/**
 Tag and manifest history, newest first. A page's cursor is the instant of its last event with
 the digest (or tag) that breaks ties inside that millisecond, so resuming neither repeats nor
 skips an event even when the page ended between two of the same instant.
 */
module HistoryPages {
  import opened Bytes
  import opened Results
  import opened Paging
  import opened Keys
  import opened KeyCodec
  import opened Store

  /** What lies strictly after a byte cursor: where a seek lands. */
  function Seek(s: Data, g: Range, cursor: Option<bytes>): set<Key> {
    set k | k in Pool(s, g) && (cursor.None? || Less(cursor.value, Encode(k)))
  }

  method ScanFrom(engine: Engine, g: Range, cursor: Option<bytes>, limit: nat) returns (page: Page<Key>)
    requires limit > 0
    ensures IsPage(Before, Seek(engine.data, g, cursor), None, limit, page)
  {
    KeysAreOrdered();
    page := TakePage(Before, Seek(engine.data, g, cursor), None, limit);
  }

  /** Resuming after a page's last key serves what the page left. */
  lemma SeekResumes(s: Data, g: Range, cursor: Option<bytes>, limit: nat, page: Page<Key>)
    requires IsPage(Before, Seek(s, g, cursor), None, limit, page) && page.next.Some?
    ensures Seek(s, g, Some(Encode(page.next.value))) == Rest(Before, Seek(s, g, cursor), page.next)
  {
    assert page.next.value in page.keys;
    assert page.next.value in Rest(Before, Seek(s, g, cursor), None);
    SeekFrom(s, g, cursor, page.next.value);
  }

  lemma SeekFrom(s: Data, g: Range, cursor: Option<bytes>, n: Key)
    requires n in Seek(s, g, cursor)
    ensures Seek(s, g, Some(Encode(n))) == Rest(Before, Seek(s, g, cursor), Some(n))
  {
    forall k ensures k in Seek(s, g, Some(Encode(n))) <==> k in Rest(Before, Seek(s, g, cursor), Some(n)) {
      if cursor.Some? && Less(Encode(n), Encode(k)) { LessTransitive(cursor.value, Encode(n), Encode(k)); }
    }
  }

  datatype Event = Event(at: Millis, tag: Tag, digest: Digest, kind: Val)

  datatype Cursor<L> = Cursor(before: Millis, last: L)

  /** Whose history: a tag's (`H`) or a manifest's (`J`). */
  datatype Trail = OfTag(repo: RepoId, tag: Tag) | OfManifest(repo: RepoId, digest: Digest)

  function TrailRange(trail: Trail): Range {
    match trail case OfTag(r, t) => HistoryOf(r, t) case OfManifest(r, d) => ManifestHistoryOf(r, d)
  }

  /** The stored row an event was read from. */
  function RowOf(trail: Trail, e: Event): Key {
    match trail case OfTag(r, _) => H(r, e.tag, e.at, e.digest) case OfManifest(r, _) => J(r, e.digest, e.at, e.tag)
  }

  function RowsOf(trail: Trail, events: seq<Event>): seq<Key> {
    seq(|events|, i requires 0 <= i < |events| => RowOf(trail, events[i]))
  }

  /** Each event is a stored row of this trail, kind included. */
  ghost predicate Recorded(s: Data, trail: Trail, events: seq<Event>) {
    forall i :: 0 <= i < |events| ==>
      RowOf(trail, events[i]) in s && InRange(RowOf(trail, events[i]), TrailRange(trail)) && s[RowOf(trail, events[i])] == events[i].kind
  }

  method DecodeRows(s: Data, trail: Trail, keys: seq<Key>) returns (events: seq<Event>)
    requires forall k :: k in keys ==> k in s && InRange(k, TrailRange(trail))
    ensures RowsOf(trail, events) == keys && Recorded(s, trail, events)
  {
    events := [];
    var i := 0;
    while i < |keys|
      invariant 0 <= i <= |keys| && |events| == i && Recorded(s, trail, events)
      invariant forall j :: 0 <= j < i ==> RowOf(trail, events[j]) == keys[j]
    {
      var k := keys[i];
      assert k in keys;
      events := events + [Event(k.at, k.tag, k.digest, s[k])];
      i := i + 1;
    }
  }

  lemma InHistory(s: Data, g: Range, cursor: Option<bytes>, limit: nat, page: Page<Key>)
    requires IsPage(Before, Seek(s, g, cursor), None, limit, page)
    ensures forall k :: k in page.keys ==> k in s && InRange(k, g)
    ensures page.next.Some? ==> page.keys != [] && page.next.value == page.keys[|page.keys| - 1]
  {
    forall k | k in page.keys ensures k in s && InRange(k, g) { assert k in Rest(Before, Seek(s, g, cursor), None); }
  }

  /** One page of a trail from a byte cursor; `more` when there is a further one. */
  method ReadPage(engine: Engine, trail: Trail, cursor: Option<bytes>, limit: nat) returns (events: seq<Event>, more: bool)
    requires limit > 0
    ensures Recorded(engine.data, trail, events) && (more ==> events != [])
    ensures var served := Served(engine.data, trail, cursor, limit, events, more); served
  {
    var page := ScanFrom(engine, TrailRange(trail), cursor, limit);
    InHistory(engine.data, TrailRange(trail), cursor, limit, page);
    events := DecodeRows(engine.data, trail, page.keys);
    more := page.next.Some?;
    PageOfRows(engine.data, trail, cursor, limit, page, events);
  }

  lemma PageShape(trail: Trail, page: Page<Key>, events: seq<Event>)
    requires RowsOf(trail, events) == page.keys
    requires page.next.Some? ==> page.keys != [] && page.next.value == page.keys[|page.keys| - 1]
    ensures page.next.Some? ==> events != []
    ensures Page(RowsOf(trail, events), LastRow(trail, events, page.next.Some?)) == page
  {
    assert |events| == |page.keys|;
    if page.next.Some? { assert RowsOf(trail, events)[|events| - 1] == RowOf(trail, events[|events| - 1]); }
  }

  lemma PageOfRows(s: Data, trail: Trail, cursor: Option<bytes>, limit: nat, page: Page<Key>, events: seq<Event>)
    requires var served := IsPage(Before, Seek(s, TrailRange(trail), cursor), None, limit, page); served
    requires RowsOf(trail, events) == page.keys
    requires page.next.Some? ==> page.keys != [] && page.next.value == page.keys[|page.keys| - 1]
    ensures page.next.Some? ==> events != []
    ensures var served := Served(s, trail, cursor, limit, events, page.next.Some?); served
  {
    PageShape(trail, page, events);
  }

  function LastRow(trail: Trail, events: seq<Event>, more: bool): Option<Key> {
    if more && events != [] then Some(RowOf(trail, events[|events| - 1])) else None
  }

  /** The events are the next page of the trail, in key order. */
  ghost predicate Served(s: Data, trail: Trail, cursor: Option<bytes>, limit: nat, events: seq<Event>, more: bool) {
    IsPage(Before, Seek(s, TrailRange(trail), cursor), None, limit, Page(RowsOf(trail, events), LastRow(trail, events, more)))
  }

  /** Where a tag's history is entered: at the top, strictly before an instant, or after an event. */
  function TagCursor(r: RepoId, t: Tag, before: Option<Millis>, last: Option<Digest>): Option<bytes> {
    match (before, last)
    case (Some(at), Some(d)) => Some(Encode(H(r, t, at, d)))
    case (Some(at), None) => Some(HistoryBefore(r, t, at))
    case (None, _) => None
  }

  function ManifestCursor(r: RepoId, d: Digest, before: Option<Millis>, last: Option<Tag>): Option<bytes> {
    match (before, last)
    case (Some(at), Some(t)) => Some(Encode(J(r, d, at, t)))
    case (Some(at), None) => Some(ManifestHistoryBefore(r, d, at))
    case (None, _) => None
  }

  /** One page of a tag's history; its cursor is the last event's instant and digest. */
  method TagHistory(engine: Engine, r: RepoId, t: Tag, before: Option<Millis>, last: Option<Digest>, limit: nat)
    returns (events: seq<Event>, next: Option<Cursor<Digest>>)
    ensures limit == 0 ==> events == [] && next.None?
    ensures Recorded(engine.data, OfTag(r, t), events)
    ensures limit > 0 ==> var served := Served(engine.data, OfTag(r, t), TagCursor(r, t, before, last), limit, events, next.Some?); served
    ensures next.Some? ==> events != [] && next == Some(Cursor(events[|events| - 1].at, events[|events| - 1].digest))
  {
    if limit == 0 { return [], None; }
    var more;
    events, more := ReadPage(engine, OfTag(r, t), TagCursor(r, t, before, last), limit);
    next := if more then Some(Cursor(events[|events| - 1].at, events[|events| - 1].digest)) else None;
  }

  /** One page of a manifest's history; ties inside an instant are broken by tag. */
  method ManifestTagHistory(engine: Engine, r: RepoId, d: Digest, before: Option<Millis>, last: Option<Tag>, limit: nat)
    returns (events: seq<Event>, next: Option<Cursor<Tag>>)
    ensures limit == 0 ==> events == [] && next.None?
    ensures Recorded(engine.data, OfManifest(r, d), events)
    ensures limit > 0 ==> var served := Served(engine.data, OfManifest(r, d), ManifestCursor(r, d, before, last), limit, events, next.Some?); served
    ensures next.Some? ==> events != [] && next == Some(Cursor(events[|events| - 1].at, events[|events| - 1].tag))
  {
    if limit == 0 { return [], None; }
    var more;
    events, more := ReadPage(engine, OfManifest(r, d), ManifestCursor(r, d, before, last), limit);
    next := if more then Some(Cursor(events[|events| - 1].at, events[|events| - 1].tag)) else None;
  }

  // --- following the cursors --------------------------------------------

  /** `keys` so far, and what the cursor still has ahead, are the whole of what was asked for. */
  ghost predicate Followed<K(!new)>(lt: (K, K) -> bool, whole: set<K>, ahead: set<K>, keys: seq<K>) {
    && Ascending(lt, keys)
    && Elements(keys) + ahead == whole
    && (forall k, j :: k in keys && j in ahead ==> lt(k, j))
  }

  lemma FollowPage<K(!new)>(lt: (K, K) -> bool, whole: set<K>, ahead: set<K>, keys: seq<K>, limit: nat, page: Page<K>)
    requires StrictOrder(lt) && Followed(lt, whole, ahead, keys) && IsPage(lt, ahead, None, limit, page)
    ensures page.next.None? ==> Ascending(lt, keys + page.keys) && Elements(keys + page.keys) == whole
    ensures page.next.Some? ==> Followed(lt, whole, Rest(lt, ahead, page.next), keys + page.keys)
    ensures page.next.Some? ==> Rest(lt, ahead, page.next) < ahead
  {
    var more := keys + page.keys;
    assert Rest(lt, ahead, None) == ahead;
    forall i, j | 0 <= i < j < |more| ensures lt(more[i], more[j]) {
      if i < |keys| <= j { assert keys[i] in keys && page.keys[j - |keys|] in page.keys; }
    }
    assert Elements(more) == Elements(keys) + Elements(page.keys);
    if page.next.Some? {
      PageExtends(lt, ahead, None, limit, page);
      PageShrinksRest(lt, ahead, None, limit, page);
      var n := page.next.value;
      assert n in page.keys;
      forall k, j | k in more && j in Rest(lt, ahead, page.next) ensures lt(k, j) {
        if k in page.keys { var i :| 0 <= i < |page.keys| && page.keys[i] == k; assert k == n || lt(k, n); }
      }
    }
  }

  lemma RowsAppend(s: Data, trail: Trail, a: seq<Event>, b: seq<Event>)
    requires Recorded(s, trail, a) && Recorded(s, trail, b)
    ensures Recorded(s, trail, a + b) && RowsOf(trail, a + b) == RowsOf(trail, a) + RowsOf(trail, b)
  {}

  /** What has been read, with what is still ahead of the cursor, is the whole of what was asked for. */
  ghost predicate Reading(s: Data, trail: Trail, start: Option<bytes>, cursor: Option<bytes>, events: seq<Event>) {
    && Recorded(s, trail, events)
    && Followed(Before, Seek(s, TrailRange(trail), start), Seek(s, TrailRange(trail), cursor), RowsOf(trail, events))
  }

  /** The whole history from a starting point: each event once, in key order. */
  ghost predicate Read(s: Data, trail: Trail, start: Option<bytes>, events: seq<Event>) {
    && Recorded(s, trail, events)
    && Ascending(Before, RowsOf(trail, events)) && Elements(RowsOf(trail, events)) == Seek(s, TrailRange(trail), start)
  }

  lemma ReadMore(s: Data, trail: Trail, start: Option<bytes>, cursor: Option<bytes>, limit: nat, events: seq<Event>, some: seq<Event>, more: bool)
    requires Reading(s, trail, start, cursor, events) && Recorded(s, trail, some) && (more ==> some != [])
    requires Served(s, trail, cursor, limit, some, more)
    ensures !more ==> Read(s, trail, start, events + some)
    ensures more ==> (var next := Some(Encode(RowOf(trail, some[|some| - 1])));
      Reading(s, trail, start, next, events + some) && Seek(s, TrailRange(trail), next) < Seek(s, TrailRange(trail), cursor))
  {
    KeysAreOrdered();
    var page := Page(RowsOf(trail, some), LastRow(trail, some, more));
    RowsAppend(s, trail, events, some);
    FollowPage(Before, Seek(s, TrailRange(trail), start), Seek(s, TrailRange(trail), cursor), RowsOf(trail, events), limit, page);
    if more { SeekResumes(s, TrailRange(trail), cursor, limit, page); }
  }

  lemma ReadNone(s: Data, trail: Trail, start: Option<bytes>)
    ensures Reading(s, trail, start, start, [])
  {}

  /** A tag's events from a starting point on, each once, newest first. */
  method WholeTagHistory(engine: Engine, r: RepoId, t: Tag, before: Option<Millis>, limit: nat) returns (events: seq<Event>)
    requires limit > 0
    ensures Read(engine.data, OfTag(r, t), TagCursor(r, t, before, None), events)
  {
    var at, last := before, None;
    events := [];
    ghost var start := TagCursor(r, t, before, None);
    ReadNone(engine.data, OfTag(r, t), start);
    while true
      invariant var reading := Reading(engine.data, OfTag(r, t), start, TagCursor(r, t, at, last), events); reading
      decreases Seek(engine.data, HistoryOf(r, t), TagCursor(r, t, at, last))
    {
      var some, next := TagHistory(engine, r, t, at, last, limit);
      ReadMore(engine.data, OfTag(r, t), start, TagCursor(r, t, at, last), limit, events, some, next.Some?);
      events := events + some;
      if next.None? { return; }
      TagRow(engine.data, r, t, some);
      at, last := Some(next.value.before), Some(next.value.last);
    }
  }

  lemma TagRow(s: Data, r: RepoId, t: Tag, events: seq<Event>)
    requires events != [] && Recorded(s, OfTag(r, t), events)
    ensures var e := events[|events| - 1]; TagCursor(r, t, Some(e.at), Some(e.digest)) == Some(Encode(RowOf(OfTag(r, t), e)))
  {
    assert InRange(RowOf(OfTag(r, t), events[|events| - 1]), HistoryOf(r, t));
  }

  /** A manifest's tagging events from a starting point on, each once, newest first. */
  method WholeManifestHistory(engine: Engine, r: RepoId, d: Digest, before: Option<Millis>, limit: nat) returns (events: seq<Event>)
    requires limit > 0
    ensures Read(engine.data, OfManifest(r, d), ManifestCursor(r, d, before, None), events)
  {
    var at, last := before, None;
    events := [];
    ghost var start := ManifestCursor(r, d, before, None);
    ReadNone(engine.data, OfManifest(r, d), start);
    while true
      invariant var reading := Reading(engine.data, OfManifest(r, d), start, ManifestCursor(r, d, at, last), events); reading
      decreases Seek(engine.data, ManifestHistoryOf(r, d), ManifestCursor(r, d, at, last))
    {
      var some, next := ManifestTagHistory(engine, r, d, at, last, limit);
      ReadMore(engine.data, OfManifest(r, d), start, ManifestCursor(r, d, at, last), limit, events, some, next.Some?);
      events := events + some;
      if next.None? { return; }
      ManifestRow(engine.data, r, d, some);
      at, last := Some(next.value.before), Some(next.value.last);
    }
  }

  lemma ManifestRow(s: Data, r: RepoId, d: Digest, events: seq<Event>)
    requires events != [] && Recorded(s, OfManifest(r, d), events)
    ensures var e := events[|events| - 1]; ManifestCursor(r, d, Some(e.at), Some(e.tag)) == Some(Encode(RowOf(OfManifest(r, d), e)))
  {
    assert InRange(RowOf(OfManifest(r, d), events[|events| - 1]), ManifestHistoryOf(r, d));
  }

  // --- newest first -----------------------------------------------------

  /** How a trail's events sort: later instants first, ties by digest on a tag's trail and by tag on a manifest's. */
  predicate Newer(trail: Trail, a: Event, b: Event) {
    a.at > b.at || (a.at == b.at && if trail.OfTag? then DigestLess(a.digest, b.digest) else Less(a.tag, b.tag))
  }

  /** Where a trail is entered from an optional instant. */
  function EnteredAt(trail: Trail, before: Option<Millis>): Option<bytes> {
    match trail case OfTag(r, t) => TagCursor(r, t, before, None) case OfManifest(r, d) => ManifestCursor(r, d, before, None)
  }

  lemma RowsSortNewestFirst(trail: Trail, x: Key, y: Key)
    requires InRange(x, TrailRange(trail)) && InRange(y, TrailRange(trail)) && Before(x, y)
    ensures x.at > y.at || (x.at == y.at && if trail.OfTag? then DigestLess(x.digest, y.digest) else Less(x.tag, y.tag))
  {
    if trail.OfTag? { HistoryOrder(x, y); } else { ManifestHistoryOrder(x, y); }
  }

  /** A starting instant admits the events before it; the epoch, with nothing before it, admits its own. */
  predicate Earlier(k: Key, before: Option<Millis>)
    requires k.H? || k.J?
  {
    before.None? || k.at < before.value || k.at == before.value == 0
  }

  lemma InstantSplits(s: Data, trail: Trail, before: Option<Millis>, k: Key)
    requires InRange(k, TrailRange(trail)) && (k.J? ==> k.tag != [])
    ensures k in Seek(s, TrailRange(trail), EnteredAt(trail, before)) <==> k in s && Earlier(k, before)
  {
    if before.Some? {
      if trail.OfTag? { BeforeSplitsHistory(k, before.value); } else { BeforeSplitsManifestHistory(k, before.value); }
    }
  }

  /**
   Either trail, with or without a starting instant: the listing is every event of the trail - or,
   given an instant, every earlier one - newest first.
   */
  lemma HistoryReadsNewestFirst(s: Data, trail: Trail, before: Option<Millis>, events: seq<Event>)
    requires Read(s, trail, EnteredAt(trail, before), events)
    ensures forall k: Key :: InRange(k, TrailRange(trail)) && (k.J? ==> k.tag != []) ==>
      (k in RowsOf(trail, events) <==> k in s && Earlier(k, before))
    ensures forall i, j :: 0 <= i < j < |events| ==> Newer(trail, events[i], events[j])
  {
    var rows := RowsOf(trail, events);
    forall k: Key | InRange(k, TrailRange(trail)) && (k.J? ==> k.tag != []) ensures k in rows <==> k in s && Earlier(k, before) {
      assert k in rows <==> k in Elements(rows);
      InstantSplits(s, trail, before, k);
    }
    forall i, j | 0 <= i < j < |events| ensures Newer(trail, events[i], events[j]) {
      assert Before(rows[i], rows[j]) && rows[i] == RowOf(trail, events[i]) && rows[j] == RowOf(trail, events[j]);
      RowsSortNewestFirst(trail, rows[i], rows[j]);
    }
  }
}
