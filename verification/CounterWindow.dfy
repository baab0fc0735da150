/**
 Reading counters back: one bounded forward scan over a window of days, the shards of a day
 summed as they arrive.
 */
module CounterWindow {
  import opened Results
  import opened Paging
  import opened Keys
  import opened KeyCodec
  import opened Store
  import opened Interner
  import opened HistoryPages
  import opened Counters

  const SHARD_SCAN_SLACK := 4

  datatype CountDay = CountDay(day: Short, hours: Hours)

  /** The scan prefix of one subject's counters. */
  predicate CounterGroup(g: Range) {
    g.CountersOfManifest? || g.CountersOfTag? || (g.CountersIn? && g.scope.RepoScope?)
  }

  lemma GroupMembers(g: Range, k: Key)
    requires CounterGroup(g)
    ensures InRange(k, g) <==> CounterKey(k) && GroupOf(k) == g
  {}

  function Window(s: Data, g: Range, from: nat, last: nat): set<Key> {
    set k | k in Pool(s, g) && CounterKey(k) && from <= k.day <= last
  }

  /** No day of the window has more shards than a scan is willing to walk, which is four. */
  ghost predicate FewShards(s: Data, g: Range, from: nat, last: nat) {
    forall day: nat :: from <= day <= last ==> |Window(s, g, day, day)| <= 4
  }

  lemma {:induction false} WindowSize(s: Data, g: Range, from: nat, last: nat)
    requires FewShards(s, g, from, last) && from <= last + 1
    ensures |Window(s, g, from, last)| <= SHARD_SCAN_SLACK * (last + 1 - from)
    decreases last + 1 - from
  {
    if from == last + 1 {
      assert Window(s, g, from, last) == {};
    } else {
      WindowSize(s, g, from + 1, last);
      assert Window(s, g, from, last) == Window(s, g, from, from) + Window(s, g, from + 1, last);
    }
  }

  /** A page wide enough for the window's shards misses none of it. */
  lemma WindowOnPage(lt: (Key, Key) -> bool, whole: set<Key>, window: set<Key>, limit: nat, page: Page<Key>)
    requires StrictOrder(lt) && IsPage(lt, whole, None, limit, page) && |window| <= limit && window <= whole
    requires forall a, b :: a in whole && b in window && lt(a, b) ==> a in window
    ensures forall k :: k in window ==> k in page.keys
  {
    assert Rest(lt, whole, None) == whole;
    if k :| k in window && k !in page.keys {
      assert page.next.Some? && lt(page.next.value, k);
      forall x | x in page.keys ensures x in window {
        var i :| 0 <= i < |page.keys| && page.keys[i] == x;
        assert x == page.next.value || lt(x, page.next.value);
        assert lt(x, k);
      }
      DistinctSize(lt, page.keys);
      var more := Elements(page.keys) + {k};
      SubsetSize(more, window);
      assert false;
    }
  }

  /** One day's total at one hour, over a run of rows. */
  function SumDay(s: Data, rows: seq<Key>, day: nat, hour: nat, m: Metric): nat
    requires hour < 24 && forall k :: k in rows ==> CounterKey(k)
  {
    if rows == [] then 0
    else
      var k := rows[|rows| - 1];
      SumDay(s, rows[..|rows| - 1], day, hour, m) + (if CounterKey(k) && k.day == day then Get(StoredHours(s, k)[hour], m) else 0)
  }

  lemma SumDaySnoc(s: Data, rows: seq<Key>, k: Key, day: nat, hour: nat, m: Metric)
    requires hour < 24 && CounterKey(k) && forall j :: j in rows ==> CounterKey(j)
    ensures forall j :: j in rows + [k] ==> CounterKey(j)
    ensures SumDay(s, rows + [k], day, hour, m) == SumDay(s, rows, day, hour, m) + (if k.day == day then Get(StoredHours(s, k)[hour], m) else 0)
  {
    assert (rows + [k])[..|rows|] == rows;
  }

  lemma {:induction false} NoSuchDay(s: Data, rows: seq<Key>, day: nat, hour: nat, m: Metric)
    requires hour < 24 && forall k :: k in rows ==> CounterKey(k) && k.day != day
    ensures SumDay(s, rows, day, hour, m) == 0
    decreases |rows|
  {
    if rows != [] {
      NoSuchDay(s, rows[..|rows| - 1], day, hour, m);
      assert rows[|rows| - 1] in rows;
    }
  }

  /** The rows' days in order, each with the capped sum of its shards. */
  ghost predicate Summarised(s: Data, rows: seq<Key>, out: seq<CountDay>) {
    && (forall k :: k in rows ==> CounterKey(k))
    && (forall i, j :: 0 <= i < j < |out| ==> out[i].day < out[j].day)
    && (forall i :: 0 <= i < |out| ==> Correct(s, rows, out[i]))
    && (forall k :: k in rows ==> Listing(out, k.day))
    && (forall i :: 0 <= i < |out| ==> HasDay(rows, out[i].day))
  }

  predicate DayIs(k: Key, day: nat) { CounterKey(k) && k.day == day }

  ghost predicate HasDay(rows: seq<Key>, day: nat) {
    exists k :: k in rows && DayIs(k, day)
  }

  ghost predicate Listing(out: seq<CountDay>, day: nat) {
    exists i :: 0 <= i < |out| && out[i].day == day
  }

  ghost predicate Correct(s: Data, rows: seq<Key>, row: CountDay)
    requires forall k :: k in rows ==> CounterKey(k)
  {
    forall hour, m :: 0 <= hour < 24 ==> Get(row.hours[hour], m) == Capped(SumDay(s, rows, row.day, hour, m), m)
  }

  /** Rows so far, all on or before `day`. */
  ghost predicate UpTo(rows: seq<Key>, day: nat) {
    forall k :: k in rows ==> CounterKey(k) && k.day <= day
  }

  lemma StillCorrect(s: Data, rows: seq<Key>, k: Key, row: CountDay)
    requires (forall j :: j in rows ==> CounterKey(j)) && CounterKey(k) && row.day != k.day && Correct(s, rows, row)
    ensures (forall j :: j in rows + [k] ==> CounterKey(j)) && Correct(s, rows + [k], row)
  {
    forall hour, m | 0 <= hour < 24 ensures Get(row.hours[hour], m) == Capped(SumDay(s, rows + [k], row.day, hour, m), m) {
      SumDaySnoc(s, rows, k, row.day, hour, m);
    }
  }

  lemma NewDay(s: Data, rows: seq<Key>, out: seq<CountDay>, k: Key)
    requires Summarised(s, rows, out) && CounterKey(k) && UpTo(rows, k.day) && !Listing(out, k.day)
    ensures Summarised(s, rows + [k], out + [CountDay(k.day, StoredHours(s, k))])
  {
    var row := CountDay(k.day, StoredHours(s, k));
    var more := out + [row];
    forall j | j in rows ensures j.day != k.day { assert Listing(out, j.day); }
    forall i | 0 <= i < |out| ensures out[i].day < k.day && Correct(s, rows + [k], out[i]) {
      assert HasDay(rows, out[i].day);
      var j :| j in rows && DayIs(j, out[i].day);
      StillCorrect(s, rows, k, out[i]);
    }
    forall hour, m | 0 <= hour < 24 ensures Get(row.hours[hour], m) == Capped(SumDay(s, rows + [k], k.day, hour, m), m) {
      SumDaySnoc(s, rows, k, k.day, hour, m);
      NoSuchDay(s, rows, k.day, hour, m);
      assert Fits(row.hours[hour]);
    }
    forall j | j in rows + [k] ensures Listing(more, j.day) {
      if j in rows { var i :| 0 <= i < |out| && out[i].day == j.day; assert more[i].day == j.day; }
      else { assert more[|out|].day == j.day; }
    }
    StillWitnessed(rows, k, more, |out|);
  }

  lemma StillWitnessed(rows: seq<Key>, k: Key, out: seq<CountDay>, n: nat)
    requires n < |out| && CounterKey(k) && out[n].day == k.day
    requires forall i :: 0 <= i < |out| && i != n ==> HasDay(rows, out[i].day)
    ensures forall i :: 0 <= i < |out| ==> HasDay(rows + [k], out[i].day)
  {
    forall i | 0 <= i < |out| ensures HasDay(rows + [k], out[i].day) {
      if i == n { assert k in rows + [k] && DayIs(k, out[i].day); }
      else { assert HasDay(rows, out[i].day); var j :| j in rows && DayIs(j, out[i].day); assert j in rows + [k]; }
    }
  }

  ghost predicate Merged(s: Data, prev: Hours, k: Key, hours: Hours) {
    forall hour, m :: 0 <= hour < 24 ==> Get(hours[hour], m) == Capped(Get(prev[hour], m) + Get(StoredHours(s, k)[hour], m), m)
  }

  lemma MergedIsCorrect(s: Data, rows: seq<Key>, row: CountDay, k: Key, hours: Hours)
    requires (forall j :: j in rows ==> CounterKey(j)) && CounterKey(k) && row.day == k.day && Correct(s, rows, row)
    requires Merged(s, row.hours, k, hours)
    ensures (forall j :: j in rows + [k] ==> CounterKey(j)) && Correct(s, rows + [k], CountDay(k.day, hours))
  {
    forall hour, m | 0 <= hour < 24 ensures Get(hours[hour], m) == Capped(SumDay(s, rows + [k], k.day, hour, m), m) {
      SumDaySnoc(s, rows, k, k.day, hour, m);
      CappedTwice(SumDay(s, rows, k.day, hour, m), Get(StoredHours(s, k)[hour], m), m);
    }
  }

  lemma StillListed(rows: seq<Key>, k: Key, out: seq<CountDay>, more: seq<CountDay>)
    requires CounterKey(k) && |out| == |more| && (forall i :: 0 <= i < |out| ==> out[i].day == more[i].day) && Listing(out, k.day)
    requires forall j :: j in rows ==> CounterKey(j) && Listing(out, j.day)
    ensures forall j :: j in rows + [k] ==> CounterKey(j) && Listing(more, j.day)
  {
    forall j | j in rows + [k] ensures CounterKey(j) && Listing(more, j.day) {
      assert j in rows || j == k;
      var i :| 0 <= i < |out| && out[i].day == j.day;
      assert more[i].day == j.day;
    }
  }

  /** Another shard of a day already listed last. */
  lemma SameDay(s: Data, rows: seq<Key>, out: seq<CountDay>, k: Key, hours: Hours)
    requires Summarised(s, rows, out) && CounterKey(k) && out != [] && out[|out| - 1].day == k.day
    requires Merged(s, out[|out| - 1].hours, k, hours)
    ensures Summarised(s, rows + [k], out[..|out| - 1] + [CountDay(k.day, hours)])
  {
    var n := |out| - 1;
    var more := out[..n] + [CountDay(k.day, hours)];
    StillListed(rows, k, out, more);
    MergedIsCorrect(s, rows, out[n], k, hours);
    forall i | 0 <= i < |more| ensures Correct(s, rows + [k], more[i]) {
      if i < n { StillCorrect(s, rows, k, out[i]); }
    }
    StillWitnessed(rows, k, more, n);
  }

  /** Sum a shard's hours into the day's row. */
  method AddShard(prev: Hours, shard: Hours) returns (hours: Hours)
    ensures forall hour, m :: 0 <= hour < 24 ==> Get(hours[hour], m) == Capped(Get(prev[hour], m) + Get(shard[hour], m), m)
  {
    hours := prev;
    var h := 0;
    while h < 24
      invariant 0 <= h <= 24
      invariant forall hour, m :: 0 <= hour < h ==> Get(hours[hour], m) == Capped(Get(prev[hour], m) + Get(shard[hour], m), m)
      invariant forall hour :: h <= hour < 24 ==> hours[hour] == prev[hour]
    {
      hours := AddHour(hours, h, shard[h]);
      h := h + 1;
    }
  }

  predicate InOrder(a: Key, b: Key) {
    CounterKey(a) && CounterKey(b) && a.day <= b.day
  }

  /** One more row: another shard of the last day listed, or a day of its own. */
  method FoldRow(s: Data, rows: seq<Key>, i: nat, out: seq<CountDay>) returns (more: seq<CountDay>)
    requires i < |rows| && CounterKey(rows[i]) && forall a, b :: 0 <= a < b < |rows| ==> InOrder(rows[a], rows[b])
    requires var summed := Summarised(s, rows[..i], out); summed
    ensures var summed := Summarised(s, rows[..i + 1], more); summed
  {
    var k := rows[i];
    assert rows[..i + 1] == rows[..i] + [k];
    RowsUpTo(rows, i);
    if out != [] && out[|out| - 1].day == k.day {
      var hours := AddShard(out[|out| - 1].hours, StoredHours(s, k));
      SameDay(s, rows[..i], out, k, hours);
      more := out[..|out| - 1] + [CountDay(k.day, hours)];
    } else {
      NotListed(s, rows, i, out);
      NewDay(s, rows[..i], out, k);
      more := out + [CountDay(k.day, StoredHours(s, k))];
    }
  }

  /** Fold a run of rows into days, stopping past the window's last. */
  method FoldRows(s: Data, rows: seq<Key>, last: nat) returns (out: seq<CountDay>, used: nat)
    requires forall k :: k in rows ==> CounterKey(k)
    requires forall i, j :: 0 <= i < j < |rows| ==> InOrder(rows[i], rows[j])
    ensures used <= |rows| && Summarised(s, rows[..used], out)
    ensures forall i :: 0 <= i < |rows| ==> CounterKey(rows[i]) && (i < used <==> rows[i].day <= last)
  {
    out, used := [], 0;
    var i := 0;
    while i < |rows|
      invariant 0 <= i == used <= |rows| && (var summed := Summarised(s, rows[..i], out); summed)
      invariant forall j :: 0 <= j < i ==> CounterKey(rows[j]) && rows[j].day <= last
    {
      var k := rows[i];
      assert k in rows;
      if k.day > last {
        forall j | 0 <= j < |rows| ensures CounterKey(rows[j]) && (j < used <==> rows[j].day <= last) {
          assert rows[j] in rows;
          assert i < j ==> InOrder(rows[i], rows[j]);
        }
        return;
      }
      out := FoldRow(s, rows, i, out);
      i, used := i + 1, used + 1;
    }
    forall j | 0 <= j < |rows| ensures CounterKey(rows[j]) { assert rows[j] in rows; }
  }

  lemma RowsUpTo(rows: seq<Key>, i: nat)
    requires i < |rows| && CounterKey(rows[i])
    requires forall a, b :: 0 <= a < b < |rows| ==> InOrder(rows[a], rows[b])
    ensures UpTo(rows[..i], rows[i].day)
  {
    forall k | k in rows[..i] ensures CounterKey(k) && k.day <= rows[i].day {
      var j :| 0 <= j < i && rows[..i][j] == k;
      assert InOrder(rows[j], rows[i]);
    }
  }

  lemma NotListed(s: Data, rows: seq<Key>, i: nat, out: seq<CountDay>)
    requires i < |rows| && CounterKey(rows[i]) && Summarised(s, rows[..i], out) && UpTo(rows[..i], rows[i].day)
    requires out != [] ==> out[|out| - 1].day != rows[i].day
    ensures !Listing(out, rows[i].day)
  {
    forall n | 0 <= n < |out| ensures out[n].day != rows[i].day {
      var last := |out| - 1;
      assert HasDay(rows[..i], out[last].day);
      var k :| k in rows[..i] && DayIs(k, out[last].day);
      assert out[last].day < rows[i].day;
      assert n == last || out[n].day < out[last].day;
    }
  }

  /** Exactly the stored days of the window, in order, each the capped sum of its shards. */
  ghost predicate WindowRead(s: Data, g: Range, from: nat, last: nat, out: seq<CountDay>) {
    exists rows: seq<Key> :: Ascending(Before, rows) && Elements(rows) == Window(s, g, from, last) && Summarised(s, rows, out)
  }

  /** The same for the window's first `limit` rows: any it leaves out come after them all. */
  ghost predicate HeadRead(s: Data, g: Range, from: nat, last: nat, limit: nat, out: seq<CountDay>) {
    exists rows: seq<Key> :: IsHead(Window(s, g, from, last), rows, limit) && Summarised(s, rows, out)
  }

  ghost predicate IsHead(window: set<Key>, rows: seq<Key>, limit: nat) {
    && Ascending(Before, rows) && |rows| <= limit
    && (forall k :: k in rows ==> k in window)
    && (forall k, j :: k in window && k !in rows && j in rows ==> |rows| == limit && Before(j, k))
    && (forall k :: k in window && k !in rows ==> |rows| == limit)
  }

  /** A day window over one subject, as long as no day has more shards than the scan allows for. */
  method ReadWindow(engine: Engine, g: Range, from: Short, days: Short) returns (out: seq<CountDay>)
    requires CounterGroup(g)
    ensures days == 0 ==> out == []
    ensures days > 0 ==> (var head := HeadRead(engine.data, g, from, from + days - 1, 4 * days, out); head)
    ensures days > 0 && FewShards(engine.data, g, from, from + days - 1) ==> WindowRead(engine.data, g, from, from + days - 1, out)
  {
    out := [];
    if days == 0 { return; }
    var limit := days * SHARD_SCAN_SLACK;
    var page := ScanFrom(engine, g, Some(FromDay(g, from)), limit);
    PageRows(engine.data, g, from, limit, page);
    var used;
    out, used := FoldRows(engine.data, page.keys, LastDay(from, days));
    PageReads(engine.data, g, from, days, limit, page, out, used);
  }

  lemma PageReads(s: Data, g: Range, from: Short, days: Short, limit: nat, page: Page<Key>, out: seq<CountDay>, used: nat)
    requires CounterGroup(g) && days > 0 && limit == 4 * days && used <= |page.keys| && Summarised(s, page.keys[..used], out)
    requires IsPage(Before, Seek(s, g, Some(FromDay(g, from))), None, limit, page)
    requires forall i :: 0 <= i < |page.keys| ==> CounterKey(page.keys[i]) && (i < used <==> page.keys[i].day <= LastDay(from, days))
    ensures var head := HeadRead(s, g, from, from + days - 1, limit, out); head
    ensures FewShards(s, g, from, from + days - 1) ==> WindowRead(s, g, from, from + days - 1, out)
  {
    NoLaterDays(s, g, from, days);
    HeadRows(s, g, from, days, limit, page, used);
    if FewShards(s, g, from, from + days - 1) { WindowRows(s, g, from, days, limit, page, used); }
  }

  /** The last day asked for, not running past the calendar. */
  function LastDay(from: Short, days: Short): Short
    requires days > 0
  {
    if from + days - 1 < 0x1_0000 then from + days - 1 else 0xFFFF
  }

  /** Stopping at the calendar's end leaves out no day of the window. */
  lemma NoLaterDays(s: Data, g: Range, from: Short, days: Short)
    requires days > 0
    ensures Window(s, g, from, from + days - 1) == Window(s, g, from, LastDay(from, days))
    ensures FewShards(s, g, from, from + days - 1) ==> FewShards(s, g, from, LastDay(from, days))
  {}

  lemma SeekIsFromDay(s: Data, g: Range, from: Short)
    requires CounterGroup(g)
    ensures Seek(s, g, Some(FromDay(g, from))) == Window(s, g, from, 0xFFFF)
  {
    forall k: Key ensures k in Seek(s, g, Some(FromDay(g, from))) <==> k in Window(s, g, from, 0xFFFF) {
      GroupMembers(g, k);
      if CounterKey(k) && GroupOf(k) == g { FromDayIncludesDay(k, from); }
    }
  }

  lemma PageRows(s: Data, g: Range, from: Short, limit: nat, page: Page<Key>)
    requires CounterGroup(g) && IsPage(Before, Seek(s, g, Some(FromDay(g, from))), None, limit, page)
    ensures forall k :: k in page.keys ==> k in Window(s, g, from, 0xFFFF)
    ensures forall i, j :: 0 <= i < j < |page.keys| ==> InOrder(page.keys[i], page.keys[j])
  {
    SeekIsFromDay(s, g, from);
    forall k | k in page.keys ensures k in Window(s, g, from, 0xFFFF) {
      assert k in Rest(Before, Seek(s, g, Some(FromDay(g, from))), None);
    }
    forall i, j | 0 <= i < j < |page.keys| ensures InOrder(page.keys[i], page.keys[j]) {
      var a, b := page.keys[i], page.keys[j];
      assert a in page.keys && b in page.keys && Before(a, b);
      GroupMembers(g, a);
      GroupMembers(g, b);
      CounterOrder(a, b);
    }
  }

  lemma HeadRows(s: Data, g: Range, from: Short, days: Short, limit: nat, page: Page<Key>, used: nat)
    requires CounterGroup(g) && days > 0
    requires IsPage(Before, Seek(s, g, Some(FromDay(g, from))), None, limit, page) && used <= |page.keys|
    requires forall i :: 0 <= i < |page.keys| ==> CounterKey(page.keys[i]) && (i < used <==> page.keys[i].day <= LastDay(from, days))
    ensures var head := IsHead(Window(s, g, from, LastDay(from, days)), page.keys[..used], limit); head
  {
    var last, rows := LastDay(from, days), page.keys[..used];
    SeekIsFromDay(s, g, from);
    PageRows(s, g, from, limit, page);
    KeysAreOrdered();
    forall k | k in rows ensures k in Window(s, g, from, last) {
      var i :| 0 <= i < used && rows[i] == k;
      assert page.keys[i] in page.keys;
    }
    forall k | k in Window(s, g, from, last) && k !in rows
      ensures |rows| == limit && forall j :: j in rows ==> Before(j, k)
    {
      AfterTheHead(s, g, from, last, limit, page, used, k);
    }
  }

  /** A key of the window that is not among the rows used is past a full page. */
  lemma AfterTheHead(s: Data, g: Range, from: Short, last: Short, limit: nat, page: Page<Key>, used: nat, k: Key)
    requires CounterGroup(g) && StrictOrder(Before) && IsPage(Before, Window(s, g, from, 0xFFFF), None, limit, page) && used <= |page.keys|
    requires forall i :: 0 <= i < |page.keys| ==> CounterKey(page.keys[i]) && (i < used <==> page.keys[i].day <= last)
    requires k in Window(s, g, from, last) && k !in page.keys[..used]
    ensures used == limit && forall j :: j in page.keys[..used] ==> Before(j, k)
  {
    var whole := Window(s, g, from, 0xFFFF);
    assert k in Rest(Before, whole, None);
    assert k !in page.keys;
    forall i | 0 <= i < |page.keys| ensures Before(page.keys[i], k) && i < used {
      assert page.keys[i] == page.next.value || Before(page.keys[i], page.next.value);
      assert page.keys[i] in page.keys && page.keys[i] in Rest(Before, whole, None);
      GroupMembers(g, page.keys[i]);
      GroupMembers(g, k);
      CounterOrder(page.keys[i], k);
    }
  }

  lemma WindowRows(s: Data, g: Range, from: Short, days: Short, limit: nat, page: Page<Key>, used: nat)
    requires CounterGroup(g) && days > 0 && limit == days * SHARD_SCAN_SLACK
    requires IsPage(Before, Seek(s, g, Some(FromDay(g, from))), None, limit, page)
    requires FewShards(s, g, from, LastDay(from, days)) && used <= |page.keys|
    requires forall i :: 0 <= i < |page.keys| ==> CounterKey(page.keys[i]) && (i < used <==> page.keys[i].day <= LastDay(from, days))
    ensures Ascending(Before, page.keys[..used]) && Elements(page.keys[..used]) == Window(s, g, from, LastDay(from, days))
  {
    var last := LastDay(from, days);
    var whole, window := Window(s, g, from, 0xFFFF), Window(s, g, from, last);
    SeekIsFromDay(s, g, from);
    PageRows(s, g, from, limit, page);
    WindowSize(s, g, from, last);
    KeysAreOrdered();
    forall a, b | a in whole && b in window && Before(a, b) ensures a in window {
      GroupMembers(g, a);
      GroupMembers(g, b);
      CounterOrder(a, b);
    }
    WindowOnPage(Before, whole, window, limit, page);
    forall k ensures k in page.keys[..used] <==> k in window {
      if k in window { var i :| 0 <= i < |page.keys| && page.keys[i] == k; assert page.keys[..used][i] == k; }
      if k in page.keys[..used] { var i :| 0 <= i < used && page.keys[..used][i] == k; assert page.keys[i] in page.keys; }
    }
  }

  // --- what a flush wrote, read back ------------------------------------

  lemma CounterAtReads(r: RepoId, subject: Subject, day: Short)
    ensures var k := CounterAt(r, subject, day); CounterKey(k) && k.day == day && k.shard == 0 && InRange(k, CountersOf(r, subject))
    ensures CounterGroup(CountersOf(r, subject))
  {}

  /** `k` is the only key of its day, and no key is listed twice. */
  ghost predicate OneShard(rows: seq<Key>, k: Key) {
    && CounterKey(k)
    && (forall j :: j in rows ==> CounterKey(j) && (j.day == k.day ==> j == k))
    && (forall a, b :: 0 <= a < b < |rows| ==> rows[a] != rows[b])
  }

  lemma LastShard(rows: seq<Key>, k: Key)
    requires OneShard(rows, k) && rows != []
    ensures var n := |rows| - 1; var fewer := OneShard(rows[..n], k);
      fewer && CounterKey(rows[n]) && (rows[n].day == k.day <==> rows[n] == k) && (k in rows <==> k in rows[..n] || rows[n] == k) && rows[n] !in rows[..n]
  {
    var n := |rows| - 1;
    assert rows[n] in rows && rows == rows[..n] + [rows[n]];
  }

  /** A day with one shard sums to that shard. */
  lemma {:induction false} SumOfOneShard(s: Data, rows: seq<Key>, k: Key, hour: nat, m: Metric)
    requires hour < 24 && (var one := OneShard(rows, k); one) && forall j :: j in rows ==> CounterKey(j)
    ensures CounterKey(k)
    ensures SumDay(s, rows, k.day, hour, m) == if k in rows then Get(StoredHours(s, k)[hour], m) else 0
    decreases |rows|
  {
    if rows != [] {
      LastShard(rows, k);
      SumOfOneShard(s, rows[..|rows| - 1], k, hour, m);
    }
  }

  lemma DayOfTheWindow(s: Data, g: Range, from: nat, last: nat, rows: seq<Key>, k: Key)
    requires Ascending(Before, rows) && StrictOrder(Before) && Elements(rows) == Window(s, g, from, last)
    requires CounterKey(k) && from <= k.day <= last && Window(s, g, k.day, k.day) == {k}
    ensures k in rows && OneShard(rows, k)
  {
    assert k in Window(s, g, k.day, k.day) && k in Window(s, g, from, last) && k in Elements(rows);
    forall j | j in rows ensures CounterKey(j) && (j.day == k.day ==> j == k) {
      assert j in Elements(rows) && j in Window(s, g, from, last);
      if j.day == k.day { assert j in Window(s, g, k.day, k.day); }
    }
  }

  /** The window's row for a flushed bucket. */
  ghost predicate RowAccounts(out: seq<CountDay>, b: Bucket, flushed: seq<Delta<Slot<Bucket>>>) {
    exists i :: 0 <= i < |out| && out[i].day == b.day &&
      forall hour, m :: 0 <= hour < 24 ==> Get(out[i].hours[hour], m) == Capped(Sum(flushed, Slot(b, hour), m), m)
  }

  lemma RowOfOneShard(s: Data, rows: seq<Key>, out: seq<CountDay>, k: Key, b: Bucket, flushed: seq<Delta<Slot<Bucket>>>)
    requires Summarised(s, rows, out) && CounterKey(k) && k in rows && k.day == b.day && Accounts(s, k, b, flushed)
    requires OneShard(rows, k)
    ensures RowAccounts(out, b, flushed)
  {
    assert Listing(out, k.day);
    var i :| 0 <= i < |out| && out[i].day == k.day;
    assert Correct(s, rows, out[i]);
    forall hour, m | 0 <= hour < 24 ensures Get(out[i].hours[hour], m) == Capped(Sum(flushed, Slot(b, hour), m), m) {
      SumOfOneShard(s, rows, k, hour, m);
      CappedTwice(Sum(flushed, Slot(b, hour), m), 0, m);
    }
  }

  /**
   From a pull to the page that shows it: what was flushed for a bucket on a day of the window is
   what the window reads for that day, when this node's shard is the day's only one.
   */
  lemma FlushedIsRead(s: Data, r: RepoId, from: nat, last: nat, out: seq<CountDay>, b: Bucket, flushed: seq<Delta<Slot<Bucket>>>)
    requires IdOf(s, b.repo) == Some(r) && Accounts(s, CounterAt(r, b.subject, b.day), b, flushed)
    requires WindowRead(s, CountersOf(r, b.subject), from, last, out) && from <= b.day <= last
    requires Window(s, CountersOf(r, b.subject), b.day, b.day) == {CounterAt(r, b.subject, b.day)}
    ensures RowAccounts(out, b, flushed)
  {
    var g, k := CountersOf(r, b.subject), CounterAt(r, b.subject, b.day);
    CounterAtReads(r, b.subject, b.day);
    KeysAreOrdered();
    var rows: seq<Key> :| Ascending(Before, rows) && Elements(rows) == Window(s, g, from, last) && Summarised(s, rows, out);
    DayOfTheWindow(s, g, from, last, rows, k);
    RowOfOneShard(s, rows, out, k, b, flushed);
  }
}
