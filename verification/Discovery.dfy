/**
 Substring search over the catalogue, which may stop short on either a full page or a spent
 budget. Following its cursors to the end yields each match once, in order.
 */
module Discovery {
  import opened Bytes
  import opened Results
  import opened Paging
  import opened Keys
  import opened Store

  // --- search -----------------------------------------------------------

  predicate Contains(name: Name, needle: Name) {
    exists i :: 0 <= i <= |name| && StartsWith(name[i..], needle)
  }

  lemma EverythingContainsNothing(name: Name)
    ensures Contains(name, [])
  {
    assert StartsWith(name[0..], []);
  }

  /** The needle occurs somewhere in the name. */
  lemma ContainsIff(name: Name, needle: Name)
    ensures Contains(name, needle) <==> exists a: bytes, b: bytes :: name == a + needle + b
  {
    if Contains(name, needle) {
      var i :| 0 <= i <= |name| && StartsWith(name[i..], needle);
      Around(name, needle, i);
    }
    if a: bytes, b: bytes :| name == a + needle + b { Inside(a, needle, b); }
  }

  lemma Around(name: Name, needle: Name, i: nat)
    requires i <= |name| && StartsWith(name[i..], needle)
    ensures name == name[..i] + needle + name[i..][|needle|..]
  {
    assert name[i..] == needle + name[i..][|needle|..];
  }

  lemma Inside(a: bytes, needle: Name, b: bytes)
    ensures Contains(a + needle + b, needle)
  {
    assert (a + needle + b)[|a|..] == needle + b;
    assert StartsWith((a + needle + b)[|a|..], needle);
  }

  predicate Hit(k: Key, needle: Name) {
    k.N? && Contains(k.name, needle)
  }

  function Hits(pool: set<Key>, needle: Name): set<Key> {
    set k | k in pool && Hit(k, needle)
  }

  /**
   One page of search results: all the hits up to where the page's cursor stands, or all that are
   left when it has none; and the cursor always moves.
   */
  ghost predicate SearchPage(lt: (Key, Key) -> bool, pool: set<Key>, needle: Name, start: Option<Key>, limit: nat, page: Page<Key>) {
    && Ascending(lt, page.keys) && |page.keys| <= limit
    && (forall k :: k in page.keys ==> k in Rest(lt, pool, start) && Hit(k, needle))
    && match page.next
       case None => forall k :: k in Rest(lt, pool, start) && Hit(k, needle) ==> k in page.keys
       case Some(n) =>
         && n in Rest(lt, pool, start)
         && (forall k :: k in page.keys ==> !lt(n, k))
         && (forall k :: k in Rest(lt, pool, start) && Hit(k, needle) ==> k in page.keys || lt(n, k))
  }

  /** Progress of one search: hits gathered from everything up to `at`. */
  ghost predicate Gathered(lt: (Key, Key) -> bool, pool: set<Key>, needle: Name, start: Option<Key>, at: Option<Key>, found: seq<Key>) {
    && Ascending(lt, found)
    && (forall k :: k in found ==> k in Rest(lt, pool, start) && Hit(k, needle) && !After(lt, at, k))
    && (forall k :: k in Rest(lt, pool, start) && Hit(k, needle) ==> k in found || After(lt, at, k))
    && (at.Some? ==> at == start || at.value in Rest(lt, pool, start))
    && (at.None? ==> start.None?)
  }

  /** Where a walk stands after a page: at its last key, or where it was. */
  function LastOf(at: Option<Key>, keys: seq<Key>): Option<Key> {
    if keys == [] then at else Some(keys[|keys| - 1])
  }

  lemma GatheredNothing(lt: (Key, Key) -> bool, pool: set<Key>, needle: Name, start: Option<Key>)
    ensures var gathered := Gathered(lt, pool, needle, start, start, []); gathered
  {}

  /** The same with the first `i` keys of the current page examined. */
  ghost predicate Examined(lt: (Key, Key) -> bool, pool: set<Key>, needle: Name, start: Option<Key>, at: Option<Key>, keys: seq<Key>, i: nat, found: seq<Key>)
    requires i <= |keys|
  {
    Gathered(lt, pool, needle, start, if i == 0 then at else Some(keys[i - 1]), found)
  }

  lemma ExamineOne(lt: (Key, Key) -> bool, pool: set<Key>, needle: Name, start: Option<Key>, at: Option<Key>, step: nat, page: Page<Key>, i: nat, found: seq<Key>)
    requires StrictOrder(lt) && (var served := IsPage(lt, pool, at, step, page); served) && i < |page.keys|
    requires var examined := Examined(lt, pool, needle, start, at, page.keys, i, found); examined
    ensures page.keys[i] in Rest(lt, pool, start)
    ensures var examined := Examined(lt, pool, needle, start, at, page.keys, i + 1, if Hit(page.keys[i], needle) then found + [page.keys[i]] else found); examined
  {
    var x := page.keys[i];
    assert x in page.keys;
    var here := if i == 0 then at else Some(page.keys[i - 1]);
    assert After(lt, here, x);
    NextInPage(lt, pool, at, step, page, i);
    assert After(lt, start, x) by {
      if start.Some? { assert here.Some?; }
    }
    var found' := if Hit(x, needle) then found + [x] else found;
    forall a, b | 0 <= a < b < |found'| ensures lt(found'[a], found'[b]) {
      if b == |found| { assert found[a] in found; }
    }
    forall k | k in Rest(lt, pool, start) && Hit(k, needle) ensures k in found' || After(lt, Some(x), k) {
      if k !in found { assert After(lt, here, k); }
    }
  }

  /** Nothing of the range lies between one key of a page and the next. */
  lemma NextInPage(lt: (Key, Key) -> bool, pool: set<Key>, at: Option<Key>, step: nat, page: Page<Key>, i: nat)
    requires StrictOrder(lt) && IsPage(lt, pool, at, step, page) && i < |page.keys|
    ensures var here := if i == 0 then at else Some(page.keys[i - 1]);
      forall k :: k in pool && After(lt, here, k) ==> k == page.keys[i] || lt(page.keys[i], k)
  {
    var here := if i == 0 then at else Some(page.keys[i - 1]);
    forall k | k in pool && After(lt, here, k) ensures k == page.keys[i] || lt(page.keys[i], k) {
      if i > 0 { assert page.keys[i - 1] in page.keys; }
      assert k in Rest(lt, pool, at);
      forall j | 0 <= j < i ensures page.keys[..i][j] != k { assert j == i - 1 || lt(page.keys[j], page.keys[i - 1]); }
      PageIsLeast(lt, pool, at, step, page, i, k);
    }
  }

  lemma PageDone(lt: (Key, Key) -> bool, pool: set<Key>, needle: Name, start: Option<Key>, at: Option<Key>, step: nat, page: Page<Key>, found: seq<Key>)
    requires StrictOrder(lt) && IsPage(lt, pool, at, step, page)
    requires Examined(lt, pool, needle, start, at, page.keys, |page.keys|, found)
    ensures page.next.None? ==> forall k :: k in Rest(lt, pool, start) && Hit(k, needle) ==> k in found
    ensures page.next.Some? ==> Gathered(lt, pool, needle, start, page.next, found)
  {
    if page.next.None? {
      forall k | k in Rest(lt, pool, start) && Hit(k, needle) ensures k in found {
        var n := |page.keys|;
        if k !in found {
          assert After(lt, if n == 0 then at else Some(page.keys[n - 1]), k);
          BeyondTheEnd(lt, pool, at, step, page, k);
        }
      }
    }
  }

  lemma BeyondTheEnd(lt: (Key, Key) -> bool, pool: set<Key>, at: Option<Key>, step: nat, page: Page<Key>, k: Key)
    requires StrictOrder(lt) && IsPage(lt, pool, at, step, page) && page.next.None? && k in pool
    ensures !After(lt, if page.keys == [] then at else Some(page.keys[|page.keys| - 1]), k)
  {
    if page.keys == [] {
      assert k !in Rest(lt, pool, at);
    } else {
      var n := |page.keys| - 1;
      assert page.keys[n] in page.keys && After(lt, at, page.keys[n]);
      if k in Rest(lt, pool, at) {
        var j :| 0 <= j < |page.keys| && page.keys[j] == k;
        assert j == n || lt(page.keys[j], page.keys[n]);
      }
    }
  }

  // --- the budget -------------------------------------------------------

  /** The names a page has dealt with: all up to its cursor, or all that were left. */
  function DealtWith(lt: (Key, Key) -> bool, pool: set<Key>, start: Option<Key>, next: Option<Key>): set<Key> {
    set k | k in Rest(lt, pool, start) && (next.None? || !lt(next.value, k))
  }

  /** No more names dealt with than the budget; and a cursor only for a spent budget or a match too many. */
  ghost predicate Thorough(lt: (Key, Key) -> bool, pool: set<Key>, needle: Name, start: Option<Key>, limit: nat, ceiling: nat, page: Page<Key>) {
    && |DealtWith(lt, pool, start, page.next)| <= ceiling
    && (page.next.Some? ==>
          || |DealtWith(lt, pool, start, page.next)| == ceiling
          || (|page.keys| == limit && exists k :: k in Rest(lt, pool, page.next) && Hit(k, needle)))
  }

  /** What has been examined when the walk stands at `at`. */
  function SeenBy(lt: (Key, Key) -> bool, pool: set<Key>, start: Option<Key>, at: Option<Key>): set<Key> {
    set k | k in Rest(lt, pool, start) && !After(lt, at, k)
  }

  lemma NothingSeenBy(lt: (Key, Key) -> bool, pool: set<Key>, start: Option<Key>)
    ensures SeenBy(lt, pool, start, start) == {}
  {}

  /** A page passes exactly its own keys. */
  lemma PagePasses(lt: (Key, Key) -> bool, pool: set<Key>, start: Option<Key>, at: Option<Key>, step: nat, page: Page<Key>)
    requires StrictOrder(lt) && (var served := IsPage(lt, pool, at, step, page); served) && (var here := At(lt, pool, start, at); here)
    ensures |DealtWith(lt, pool, start, page.next)| == |SeenBy(lt, pool, start, at)| + |page.keys|
    ensures page.next.Some? ==> SeenBy(lt, pool, start, page.next) == DealtWith(lt, pool, start, page.next)
  {
    PageIsAhead(lt, pool, start, at, step, page);
    DealtIsBehind(lt, pool, start, page.next);
    var keys, behind, rest := Elements(page.keys), Behind(lt, pool, at), Rest(lt, pool, start);
    assert SeenBy(lt, pool, start, at) == rest * behind;
    Joined(rest, keys, behind);
  }

  lemma Joined<T>(rest: set<T>, keys: set<T>, behind: set<T>)
    requires keys <= rest && keys !! behind
    ensures |rest * (keys + behind)| == |keys| + |rest * behind|
  {
    assert rest * (keys + behind) == keys + rest * behind;
  }

  lemma DealtIsBehind(lt: (Key, Key) -> bool, pool: set<Key>, start: Option<Key>, next: Option<Key>)
    ensures DealtWith(lt, pool, start, next) == Rest(lt, pool, start) * (if next.Some? then Behind(lt, pool, next) else pool)
    ensures next.Some? ==> SeenBy(lt, pool, start, next) == DealtWith(lt, pool, start, next)
  {}

  lemma PageIsAhead(lt: (Key, Key) -> bool, pool: set<Key>, start: Option<Key>, at: Option<Key>, step: nat, page: Page<Key>)
    requires StrictOrder(lt) && IsPage(lt, pool, at, step, page) && At(lt, pool, start, at)
    ensures Elements(page.keys) <= Rest(lt, pool, start) && Elements(page.keys) !! Behind(lt, pool, at) && |Elements(page.keys)| == |page.keys|
    ensures Elements(page.keys) + Behind(lt, pool, at) == if page.next.Some? then Behind(lt, pool, page.next) else pool
  {
    PageExtends(lt, pool, at, step, page);
    DistinctSize(lt, page.keys);
    forall k | k in page.keys ensures k in Rest(lt, pool, start) { assert k in Rest(lt, pool, at); }
  }

  /** A page given up for a match too many has dealt with nothing but what was examined. */
  lemma FullIsThorough(lt: (Key, Key) -> bool, pool: set<Key>, needle: Name, start: Option<Key>, at: Option<Key>, step: nat, page: Page<Key>,
                       ceiling: nat, found: seq<Key>, beyond: Key)
    requires StrictOrder(lt) && IsPage(lt, pool, at, step, page) && At(lt, pool, start, at)
    requires |SeenBy(lt, pool, start, at)| + |page.keys| <= ceiling
    requires found != [] && beyond in page.keys && Hit(beyond, needle) && lt(found[|found| - 1], beyond)
    ensures Thorough(lt, pool, needle, start, |found|, ceiling, Page(found, Some(found[|found| - 1])))
  {
    PagePasses(lt, pool, start, at, step, page);
    var n, all := found[|found| - 1], DealtWith(lt, pool, start, page.next);
    forall k | k in DealtWith(lt, pool, start, Some(n)) ensures k in all {
      if page.next.Some? && lt(page.next.value, k) { LastOfPage(lt, pool, at, step, page, beyond); }
    }
    SubsetSize(DealtWith(lt, pool, start, Some(n)), all);
    assert beyond in Rest(lt, pool, Some(n));
  }

  lemma LastOfPage(lt: (Key, Key) -> bool, pool: set<Key>, at: Option<Key>, step: nat, page: Page<Key>, k: Key)
    requires StrictOrder(lt) && IsPage(lt, pool, at, step, page) && page.next.Some? && k in page.keys
    ensures k == page.next.value || lt(k, page.next.value)
  {
    var i :| 0 <= i < |page.keys| && page.keys[i] == k;
  }

  // --- the walk ---------------------------------------------------------

  const SEARCH_STEP := 512

  /** A page of nothing: it has a cursor only when the budget ran out before the first hit, and then skips none. */
  ghost predicate Fruitless(lt: (Key, Key) -> bool, pool: set<Key>, needle: Name, start: Option<Key>, page: Page<Key>) {
    page.keys == [] && (page.next.Some? ==> SearchPage(lt, pool, needle, start, 0, page))
  }

  /** Names containing a needle, a page at a time, reading at most `ceiling` keys per call. */
  method SearchRepos(engine: Engine, needle: Name, start: Option<Key>, limit: nat, ceiling: nat) returns (page: Page<Key>)
    ensures limit > 0 && (ceiling > 0 || needle == []) ==> SearchPage(Before, Pool(engine.data, NamesFrom([])), needle, start, limit, page)
    ensures limit > 0 && ceiling > 0 && needle != [] ==> Thorough(Before, Pool(engine.data, NamesFrom([])), needle, start, limit, ceiling, page)
    ensures limit > 0 && needle == [] ==> IsPage(Before, Pool(engine.data, NamesFrom([])), start, limit, page)
    ensures limit == 0 ==> Fruitless(Before, Pool(engine.data, NamesFrom([])), needle, start, page)
    ensures ceiling == 0 && needle != [] ==> page == Page([], None)
  {
    KeysAreOrdered();
    if limit == 0 && needle == [] { return Page([], None); }
    ghost var pool := Pool(engine.data, NamesFrom([]));
    if needle == [] {
      page := engine.Scan(NamesFrom([]), start, limit);
      WholeCatalogue(Before, engine.data, start, limit, page);
      return;
    }
    if ceiling == 0 { return Page([], None); }
    page := Walk(engine, Before, needle, start, limit, ceiling);
  }

  /** Look at one scan's worth of names, stopping at the hit one past a full page. */
  method ExaminePage(ghost lt: (Key, Key) -> bool, ghost pool: set<Key>, needle: Name, ghost start: Option<Key>, ghost cursor: Option<Key>,
                     ghost step: nat, page: Page<Key>, limit: nat, found: seq<Key>) returns (repos: seq<Key>, full: bool)
    requires StrictOrder(lt) && (var served := IsPage(lt, pool, cursor, step, page); served)
    requires var gathered := Gathered(lt, pool, needle, start, cursor, found); gathered
    requires |found| <= limit && forall j :: 0 <= j < |page.keys| ==> page.keys[j].N?
    ensures |repos| <= limit && (full ==> |repos| == limit)
    ensures full && limit > 0 ==> (var beyond := Beyond(lt, needle, page, repos[limit - 1]); beyond)
    ensures full ==> (var stops := WalkStops(lt, pool, needle, start, limit, Page(repos, if limit == 0 then None else Some(repos[limit - 1]))); stops)
    ensures !full ==> (var gathered := Gathered(lt, pool, needle, start, LastOf(cursor, page.keys), repos); gathered)
  {
    repos := found;
    var i := 0;
    ExaminedEnds(lt, pool, needle, start, cursor, page.keys, found);
    while i < |page.keys|
      invariant 0 <= i <= |page.keys| && |repos| <= limit
      invariant var examined := Examined(lt, pool, needle, start, cursor, page.keys, i, repos); examined
    {
      repos, full := ExamineKey(lt, pool, needle, start, cursor, step, page, i, limit, repos);
      if full { return; }
      i := i + 1;
    }
    ExaminedEnds(lt, pool, needle, start, cursor, page.keys, repos);
    full := false;
  }

  /** The page has a match past the last one served. */
  ghost predicate Beyond(lt: (Key, Key) -> bool, needle: Name, page: Page<Key>, last: Key) {
    exists k :: k in page.keys && Hit(k, needle) && lt(last, k)
  }

  lemma OneTooMany(lt: (Key, Key) -> bool, pool: set<Key>, needle: Name, start: Option<Key>, at: Option<Key>, step: nat, page: Page<Key>, i: nat, found: seq<Key>)
    requires StrictOrder(lt) && (var served := IsPage(lt, pool, at, step, page); served) && i < |page.keys| && found != []
    requires var examined := Examined(lt, pool, needle, start, at, page.keys, i, found); examined
    requires Hit(page.keys[i], needle)
    ensures var beyond := Beyond(lt, needle, page, found[|found| - 1]); beyond
  {
    var x, last := page.keys[i], found[|found| - 1];
    assert x in page.keys && last in found;
    var here := if i == 0 then at else Some(page.keys[i - 1]);
    assert After(lt, here, x) && !After(lt, here, last);
    assert here.Some? && (last == here.value || lt(last, here.value));
  }

  /** One name of the page. */
  method ExamineKey(ghost lt: (Key, Key) -> bool, ghost pool: set<Key>, needle: Name, ghost start: Option<Key>, ghost cursor: Option<Key>,
                    ghost step: nat, page: Page<Key>, i: nat, limit: nat, found: seq<Key>) returns (repos: seq<Key>, full: bool)
    requires StrictOrder(lt) && (var served := IsPage(lt, pool, cursor, step, page); served)
    requires i < |page.keys| && page.keys[i].N? && |found| <= limit
    requires var examined := Examined(lt, pool, needle, start, cursor, page.keys, i, found); examined
    ensures |repos| <= limit && (full ==> |repos| == limit)
    ensures full && limit > 0 ==> (var beyond := Beyond(lt, needle, page, repos[limit - 1]); beyond)
    ensures full ==> (var stops := WalkStops(lt, pool, needle, start, limit, Page(repos, if limit == 0 then None else Some(repos[limit - 1]))); stops)
    ensures !full ==> (var examined := Examined(lt, pool, needle, start, cursor, page.keys, i + 1, repos); examined)
  {
    ExamineOne(lt, pool, needle, start, cursor, step, page, i, found);
    repos, full := found, false;
    if Contains(page.keys[i].name, needle) {
      if |found| == limit {
        PageIsFull(lt, pool, needle, start, cursor, page.keys, i, limit, found);
        if limit > 0 { OneTooMany(lt, pool, needle, start, cursor, step, page, i, found); }
        return found, true;
      }
      repos := found + [page.keys[i]];
    }
  }

  /** Before a page's first key and after its last, what is examined is what is gathered. */
  lemma ExaminedEnds(lt: (Key, Key) -> bool, pool: set<Key>, needle: Name, start: Option<Key>, at: Option<Key>, keys: seq<Key>, found: seq<Key>)
    ensures (var examined := Examined(lt, pool, needle, start, at, keys, 0, found); examined) == (var gathered := Gathered(lt, pool, needle, start, at, found); gathered)
    ensures (var examined := Examined(lt, pool, needle, start, at, keys, |keys|, found); examined)
         == (var gathered := Gathered(lt, pool, needle, start, LastOf(at, keys), found); gathered)
  {}

  lemma PageIsFull(lt: (Key, Key) -> bool, pool: set<Key>, needle: Name, start: Option<Key>, at: Option<Key>, keys: seq<Key>, i: nat, limit: nat, found: seq<Key>)
    requires StrictOrder(lt) && i < |keys| && |found| == limit
    requires var examined := Examined(lt, pool, needle, start, at, keys, i, found); examined
    ensures var stops := WalkStops(lt, pool, needle, start, limit, Page(found, if limit == 0 then None else Some(found[limit - 1]))); stops
  {
    if limit > 0 { FullPage(lt, pool, needle, start, if i == 0 then at else Some(keys[i - 1]), found); }
  }

  /** One scan of the catalogue's keys. */
  method ScanNames(engine: Engine, ghost lt: (Key, Key) -> bool, cursor: Option<Key>, step: nat) returns (page: Page<Key>)
    requires step > 0 && lt == Before
    ensures var served := IsPage(lt, Pool(engine.data, NamesFrom([])), cursor, step, page); served
    ensures |page.keys| <= step && forall j :: 0 <= j < |page.keys| ==> page.keys[j].N?
    ensures page.next.Some? ==> |page.keys| == step
  {
    page := engine.Scan(NamesFrom([]), cursor, step);
    NamesOnly(engine.data, lt, cursor, step, page);
  }

  lemma NamesOnly(s: Data, lt: (Key, Key) -> bool, cursor: Option<Key>, step: nat, page: Page<Key>)
    requires IsPage(lt, Pool(s, NamesFrom([])), cursor, step, page)
    ensures |page.keys| <= step && forall j :: 0 <= j < |page.keys| ==> page.keys[j].N?
    ensures page.next.Some? ==> |page.keys| == step
  {
    forall j | 0 <= j < |page.keys| ensures page.keys[j].N? { assert page.keys[j] in page.keys; }
  }

  /** What the walk answers, whatever the limit. */
  ghost predicate WalkStops(lt: (Key, Key) -> bool, pool: set<Key>, needle: Name, start: Option<Key>, limit: nat, out: Page<Key>) {
    if limit == 0 then Fruitless(lt, pool, needle, start, out) else SearchPage(lt, pool, needle, start, limit, out)
  }

  /** A scan read to its end: the range is done, or the walk may stop or go on at the scan's own cursor. */
  lemma PageIsDone(lt: (Key, Key) -> bool, pool: set<Key>, needle: Name, start: Option<Key>, at: Option<Key>, step: nat, page: Page<Key>, limit: nat, found: seq<Key>)
    requires StrictOrder(lt) && (var served := IsPage(lt, pool, at, step, page); served) && |found| <= limit
    requires var gathered := Gathered(lt, pool, needle, start, LastOf(at, page.keys), found); gathered
    requires At(lt, pool, start, at)
    ensures var stops := WalkStops(lt, pool, needle, start, limit, Page(found, page.next)); stops
    ensures page.next.Some? ==> At(lt, pool, start, page.next) && (var gathered := Gathered(lt, pool, needle, start, page.next, found); gathered)
  {
    assert Examined(lt, pool, needle, start, at, page.keys, |page.keys|, found);
    PageDone(lt, pool, needle, start, at, step, page, found);
    if page.next.Some? {
      assert page.next.value in page.keys;
      StopsInside(lt, pool, needle, start, at, step, page, found);
    }
  }

  /** The walk has not gone back before where it started. */
  ghost predicate At(lt: (Key, Key) -> bool, pool: set<Key>, start: Option<Key>, at: Option<Key>) {
    at == start || (at.Some? && at.value in Rest(lt, pool, start))
  }

  /** Where the walk stands, with its budget not yet spent. */
  ghost predicate Walking(lt: (Key, Key) -> bool, pool: set<Key>, needle: Name, start: Option<Key>, limit: nat, ceiling: nat,
                          cursor: Option<Key>, examined: nat, repos: seq<Key>) {
    && examined == |SeenBy(lt, pool, start, cursor)| < ceiling && |repos| <= limit
    && Gathered(lt, pool, needle, start, cursor, repos) && At(lt, pool, start, cursor)
  }

  ghost predicate WalkEnds(lt: (Key, Key) -> bool, pool: set<Key>, needle: Name, start: Option<Key>, limit: nat, ceiling: nat, out: Page<Key>) {
    WalkStops(lt, pool, needle, start, limit, out) && (limit > 0 ==> Thorough(lt, pool, needle, start, limit, ceiling, out))
  }

  /** The walk itself: gather one past the page, or stop where the budget ran out. */
  method Walk(engine: Engine, ghost lt: (Key, Key) -> bool, needle: Name, start: Option<Key>, limit: nat, ceiling: nat) returns (out: Page<Key>)
    requires ceiling > 0 && lt == Before && StrictOrder(lt)
    ensures var ends := WalkEnds(lt, Pool(engine.data, NamesFrom([])), needle, start, limit, ceiling, out); ends
  {
    ghost var pool := Pool(engine.data, NamesFrom([]));
    var cursor, examined := start, 0;
    var repos: seq<Key> := [];
    GatheredNothing(lt, pool, needle, start);
    NothingSeenBy(lt, pool, start);
    while true
      invariant var walking := Walking(lt, pool, needle, start, limit, ceiling, cursor, examined, repos); walking
      invariant examined < ceiling
      decreases ceiling - examined
    {
      var stop;
      stop, cursor, examined, repos := WalkOn(engine, lt, pool, needle, start, limit, ceiling, cursor, examined, repos);
      if stop.Some? { return stop.value; }
    }
  }

  /** One scan of the walk, within what is left of the budget. */
  method WalkOn(engine: Engine, ghost lt: (Key, Key) -> bool, ghost pool: set<Key>, needle: Name, ghost start: Option<Key>, limit: nat, ceiling: nat,
                cursor: Option<Key>, examined: nat, found: seq<Key>)
    returns (stop: Option<Page<Key>>, next: Option<Key>, read: nat, repos: seq<Key>)
    requires lt == Before && StrictOrder(lt) && pool == Pool(engine.data, NamesFrom([])) && examined < ceiling
    requires var walking := Walking(lt, pool, needle, start, limit, ceiling, cursor, examined, found); walking
    ensures stop.Some? ==> (var ends := WalkEnds(lt, pool, needle, start, limit, ceiling, stop.value); ends)
    ensures stop.None? ==> examined < read < ceiling
    ensures stop.None? ==> (var walking := Walking(lt, pool, needle, start, limit, ceiling, next, read, repos); walking)
  {
    stop, next, read := None, None, examined;
    var step := if SEARCH_STEP <= ceiling - examined then SEARCH_STEP else ceiling - examined;
    var page := ScanNames(engine, lt, cursor, step);
    var full;
    repos, full := ExaminePage(lt, pool, needle, start, cursor, step, page, limit, found);
    if full {
      FullEnds(lt, pool, needle, start, limit, ceiling, cursor, examined, step, page, found, repos);
      stop := Some(Page(repos, if limit == 0 then None else Some(repos[limit - 1])));
      return;
    }
    read, next := examined + |page.keys|, page.next;
    ScanEnds(lt, pool, needle, start, limit, ceiling, cursor, examined, step, page, found, repos);
    if page.next.None? { stop := Some(Page(repos, None)); }
    else if read >= ceiling { stop := Some(Page(repos, page.next)); }
  }

  lemma FullEnds(lt: (Key, Key) -> bool, pool: set<Key>, needle: Name, start: Option<Key>, limit: nat, ceiling: nat,
                 cursor: Option<Key>, examined: nat, step: nat, page: Page<Key>, found: seq<Key>, repos: seq<Key>)
    requires StrictOrder(lt) && (var served := IsPage(lt, pool, cursor, step, page); served)
    requires |page.keys| <= step <= ceiling - examined && |repos| == limit
    requires var walking := Walking(lt, pool, needle, start, limit, ceiling, cursor, examined, found); walking
    requires limit > 0 ==> (var beyond := Beyond(lt, needle, page, repos[limit - 1]); beyond)
    requires var stops := WalkStops(lt, pool, needle, start, limit, Page(repos, if limit == 0 then None else Some(repos[limit - 1]))); stops
    ensures var ends := WalkEnds(lt, pool, needle, start, limit, ceiling, Page(repos, if limit == 0 then None else Some(repos[limit - 1]))); ends
  {
    if limit > 0 { FullStops(lt, pool, needle, start, cursor, step, page, ceiling, repos); }
  }

  lemma ScanEnds(lt: (Key, Key) -> bool, pool: set<Key>, needle: Name, start: Option<Key>, limit: nat, ceiling: nat,
                 cursor: Option<Key>, examined: nat, step: nat, page: Page<Key>, found: seq<Key>, repos: seq<Key>)
    requires StrictOrder(lt) && (var served := IsPage(lt, pool, cursor, step, page); served)
    requires |page.keys| <= step <= ceiling - examined && |repos| <= limit
    requires var walking := Walking(lt, pool, needle, start, limit, ceiling, cursor, examined, found); walking
    requires var gathered := Gathered(lt, pool, needle, start, LastOf(cursor, page.keys), repos); gathered
    ensures page.next.None? || examined + |page.keys| >= ceiling ==>
      (var ends := WalkEnds(lt, pool, needle, start, limit, ceiling, Page(repos, page.next)); ends)
    ensures page.next.Some? && examined + |page.keys| < ceiling ==>
      (var walking := Walking(lt, pool, needle, start, limit, ceiling, page.next, examined + |page.keys|, repos); walking)
  {
    PagePasses(lt, pool, start, cursor, step, page);
    PageIsDone(lt, pool, needle, start, cursor, step, page, limit, repos);
  }

  lemma FullStops(lt: (Key, Key) -> bool, pool: set<Key>, needle: Name, start: Option<Key>, at: Option<Key>, step: nat, page: Page<Key>,
                  ceiling: nat, found: seq<Key>)
    requires StrictOrder(lt) && (var served := IsPage(lt, pool, at, step, page); served) && (var here := At(lt, pool, start, at); here)
    requires |SeenBy(lt, pool, start, at)| + |page.keys| <= ceiling
    requires found != [] && (var beyond := Beyond(lt, needle, page, found[|found| - 1]); beyond)
    ensures var thorough := Thorough(lt, pool, needle, start, |found|, ceiling, Page(found, Some(found[|found| - 1]))); thorough
  {
    var k :| k in page.keys && Hit(k, needle) && lt(found[|found| - 1], k);
    FullIsThorough(lt, pool, needle, start, at, step, page, ceiling, found, k);
  }

  /** Stopping on the budget hands back the last name examined. */
  lemma StopsInside(lt: (Key, Key) -> bool, pool: set<Key>, needle: Name, start: Option<Key>, at: Option<Key>, step: nat, page: Page<Key>, found: seq<Key>)
    requires StrictOrder(lt) && IsPage(lt, pool, at, step, page) && page.next.Some?
    requires Gathered(lt, pool, needle, start, page.next, found) && After(lt, start, page.next.value)
    ensures page.next.value in Rest(lt, pool, start)
    ensures SearchPage(lt, pool, needle, start, |found|, Page(found, page.next))
  {
    assert page.next.value in page.keys;
  }

  /** A full page's cursor is the last hit served: every earlier hit is on it or before it. */
  lemma FullPage(lt: (Key, Key) -> bool, pool: set<Key>, needle: Name, start: Option<Key>, at: Option<Key>, found: seq<Key>)
    requires StrictOrder(lt) && found != [] && (var gathered := Gathered(lt, pool, needle, start, at, found); gathered)
    ensures var page := SearchPage(lt, pool, needle, start, |found|, Page(found, Some(found[|found| - 1]))); page
  {
    var n := found[|found| - 1];
    assert n in found;
    forall k | k in found ensures !lt(n, k) { var j :| 0 <= j < |found| && found[j] == k; }
    forall k | k in Rest(lt, pool, start) && Hit(k, needle) ensures k in found || lt(n, k) {
      if k !in found && at.Some? {
        assert After(lt, at, k) && !After(lt, at, n);
        assert n == at.value || lt(n, at.value);
      }
    }
  }

  lemma WholeCatalogue(lt: (Key, Key) -> bool, s: Data, start: Option<Key>, limit: nat, page: Page<Key>)
    requires StrictOrder(lt) && IsPage(lt, Pool(s, NamesFrom([])), start, limit, page)
    ensures SearchPage(lt, Pool(s, NamesFrom([])), [], start, limit, page)
  {
    forall k | k in Pool(s, NamesFrom([])) ensures Hit(k, []) { EverythingContainsNothing(k.name); }
    if page.next.Some? {
      var n := page.next.value;
      assert n in page.keys;
      forall k | k in page.keys ensures !lt(n, k) { var j :| 0 <= j < |page.keys| && page.keys[j] == k; }
    }
  }

  /** Each page leaves strictly less ahead, and what is ahead loses exactly the hits it served. */
  lemma SearchAdvances(lt: (Key, Key) -> bool, pool: set<Key>, needle: Name, start: Option<Key>, limit: nat, page: Page<Key>)
    requires StrictOrder(lt) && SearchPage(lt, pool, needle, start, limit, page) && page.next.Some?
    ensures Rest(lt, pool, page.next) < Rest(lt, pool, start)
    ensures Hits(Rest(lt, pool, start), needle) == Elements(page.keys) + Hits(Rest(lt, pool, page.next), needle)
    ensures forall k, j :: k in page.keys && j in Rest(lt, pool, page.next) ==> lt(k, j)
  {
    var n := page.next.value;
    assert n in Rest(lt, pool, start) && n !in Rest(lt, pool, page.next);
    forall k, j | k in page.keys && j in Rest(lt, pool, page.next) ensures lt(k, j) { assert k == n || lt(k, n); }
  }

  /** Following cursors until there is none: every match, once, in order, whatever the bounds. */
  method SearchAll(engine: Engine, needle: Name, limit: nat, ceiling: nat) returns (repos: seq<Key>)
    requires limit > 0 && ceiling > 0
    ensures Ascending(Before, repos)
    ensures Elements(repos) == Hits(Pool(engine.data, NamesFrom([])), needle)
  {
    KeysAreOrdered();
    ghost var pool := Pool(engine.data, NamesFrom([]));
    repos := [];
    var cursor: Option<Key> := None;
    assert Rest(Before, pool, None) == pool;
    while true
      invariant Follow(Before, pool, needle, cursor, repos)
      decreases Rest(Before, pool, cursor)
    {
      var page := SearchRepos(engine, needle, cursor, limit, ceiling);
      FollowOne(Before, pool, needle, cursor, limit, page, repos);
      repos := repos + page.keys;
      if page.next.None? { return; }
      SearchAdvances(Before, pool, needle, cursor, limit, page);
      cursor := page.next;
    }
  }

  ghost predicate Follow(lt: (Key, Key) -> bool, pool: set<Key>, needle: Name, cursor: Option<Key>, repos: seq<Key>) {
    && Ascending(lt, repos)
    && Elements(repos) + Hits(Rest(lt, pool, cursor), needle) == Hits(pool, needle)
    && (forall k, j :: k in repos && j in Rest(lt, pool, cursor) ==> lt(k, j))
  }

  lemma FollowOne(lt: (Key, Key) -> bool, pool: set<Key>, needle: Name, cursor: Option<Key>, limit: nat, page: Page<Key>, repos: seq<Key>)
    requires StrictOrder(lt) && Follow(lt, pool, needle, cursor, repos) && SearchPage(lt, pool, needle, cursor, limit, page)
    ensures Ascending(lt, repos + page.keys)
    ensures page.next.Some? ==> Follow(lt, pool, needle, page.next, repos + page.keys)
    ensures page.next.None? ==> Elements(repos + page.keys) == Hits(pool, needle)
  {
    var more := repos + page.keys;
    forall i, j | 0 <= i < j < |more| ensures lt(more[i], more[j]) {
      if i < |repos| <= j { assert repos[i] in repos && page.keys[j - |repos|] in page.keys; }
    }
    assert Elements(more) == Elements(repos) + Elements(page.keys);
    if page.next.Some? {
      SearchAdvances(lt, pool, needle, cursor, limit, page);
      forall k, j | k in more && j in Rest(lt, pool, page.next) ensures lt(k, j) { assert j in Rest(lt, pool, cursor); }
    } else {
      assert Hits(Rest(lt, pool, cursor), needle) == Elements(page.keys);
    }
  }
}
