/**
 Cursor paging over an ordered key set.

 A scan serves at most `limit` keys strictly after a cursor and reads one past the page: the
 cursor it hands back is the last key served, and it is present exactly when a further key
 exists. Everything that walks a range (purge, the repository sweep, the list endpoints) is a
 sequence of such pages, possibly over a store other requests keep editing.
 */
module Paging {
  import opened Results

  datatype Page<K> = Page(keys: seq<K>, next: Option<K>)

  ghost predicate StrictOrder<K(!new)>(lt: (K, K) -> bool) {
    && (forall a :: !lt(a, a))
    && (forall a, b, c :: lt(a, b) && lt(b, c) ==> lt(a, c))
    && (forall a, b :: a == b || lt(a, b) || lt(b, a))
  }

  predicate After<K>(lt: (K, K) -> bool, cursor: Option<K>, k: K) {
    cursor.None? || lt(cursor.value, k)
  }

  function Rest<K>(lt: (K, K) -> bool, pool: set<K>, cursor: Option<K>): set<K> {
    set k | k in pool && After(lt, cursor, k)
  }

  ghost predicate Ascending<K>(lt: (K, K) -> bool, ks: seq<K>) {
    forall i, j :: 0 <= i < j < |ks| ==> lt(ks[i], ks[j])
  }

  /** What one `scan` promises about the keys a range holds, for a limit of at least one. */
  ghost predicate IsPage<K(!new)>(lt: (K, K) -> bool, pool: set<K>, cursor: Option<K>, limit: nat, page: Page<K>) {
    && Ascending(lt, page.keys)
    && |page.keys| <= limit
    && (forall k :: k in page.keys ==> k in Rest(lt, pool, cursor))
    && match page.next
       case None => forall k :: k in Rest(lt, pool, cursor) ==> k in page.keys
       case Some(n) =>
         && |page.keys| == limit > 0
         && n == page.keys[limit - 1]
         && (forall k :: k in Rest(lt, pool, cursor) ==> k in page.keys || lt(n, k))
         && (exists k :: k in Rest(lt, pool, cursor) && k !in page.keys)
  }

  /** Everything outside the first `i` keys of a page sorts at or after the next one. */
  lemma PageIsLeast<K(!new)>(lt: (K, K) -> bool, pool: set<K>, cursor: Option<K>, limit: nat, p: Page<K>, i: nat, k: K)
    requires StrictOrder(lt) && IsPage(lt, pool, cursor, limit, p)
    requires i < |p.keys| && k in Rest(lt, pool, cursor) && k !in p.keys[..i]
    ensures k == p.keys[i] || lt(p.keys[i], k)
  {
    assert forall j :: 0 <= j < i ==> p.keys[j] in p.keys[..i];
    if k in p.keys {
      var j :| 0 <= j < |p.keys| && p.keys[j] == k;
    } else {
      assert p.next.Some? && lt(p.next.value, k);
      assert i == limit - 1 || lt(p.keys[i], p.keys[limit - 1]);
    }
  }

  lemma AscendingIsFresh<K(!new)>(lt: (K, K) -> bool, ks: seq<K>, i: nat)
    requires StrictOrder(lt) && Ascending(lt, ks) && i < |ks|
    ensures ks[i] !in ks[..i]
  {
    forall j | 0 <= j < i ensures ks[..i][j] != ks[i] { assert lt(ks[j], ks[i]); }
  }

  /** Keys in order are as many as they name. */
  lemma {:induction false} DistinctSize<K(!new)>(lt: (K, K) -> bool, ks: seq<K>)
    requires StrictOrder(lt) && Ascending(lt, ks)
    ensures |Elements(ks)| == |ks|
    decreases |ks|
  {
    if ks != [] {
      var n := |ks| - 1;
      DistinctSize(lt, ks[..n]);
      AscendingIsFresh(lt, ks, n);
      assert Elements(ks) == Elements(ks[..n]) + {ks[n]} by { assert ks == ks[..n] + [ks[n]]; }
    }
  }

  lemma SubsetSize<T>(a: set<T>, b: set<T>)
    requires a <= b
    ensures |a| <= |b|
  {
    assert b == a + (b - a);
  }

  /** The contract leaves nothing to the engine: two pages that meet it are the same page. */
  lemma PageIsUnique<K(!new)>(lt: (K, K) -> bool, pool: set<K>, cursor: Option<K>, limit: nat, p: Page<K>, q: Page<K>)
    requires StrictOrder(lt)
    requires IsPage(lt, pool, cursor, limit, p) && IsPage(lt, pool, cursor, limit, q)
    ensures p == q
  {
    SamePrefix(lt, pool, cursor, limit, p, q, |p.keys|);
    SamePrefix(lt, pool, cursor, limit, q, p, |q.keys|);
    assert p.keys == p.keys[..|p.keys|] && q.keys == q.keys[..|q.keys|];
    assert p.keys == q.keys;
  }

  lemma {:induction false} SamePrefix<K(!new)>(lt: (K, K) -> bool, pool: set<K>, cursor: Option<K>, limit: nat,
                                               p: Page<K>, q: Page<K>, n: nat)
    requires StrictOrder(lt)
    requires IsPage(lt, pool, cursor, limit, p) && IsPage(lt, pool, cursor, limit, q)
    requires n <= |p.keys|
    ensures n <= |q.keys| && p.keys[..n] == q.keys[..n]
  {
    if n > 0 {
      var i := n - 1;
      SamePrefix(lt, pool, cursor, limit, p, q, i);
      var k := p.keys[i];
      AscendingIsFresh(lt, p.keys, i);
      assert i < |q.keys| by {
        assert q.keys == q.keys[..|q.keys|];
        assert k in Rest(lt, pool, cursor);
      }
      PageIsLeast(lt, pool, cursor, limit, q, i, k);
      var h := q.keys[i];
      AscendingIsFresh(lt, q.keys, i);
      PageIsLeast(lt, pool, cursor, limit, p, i, h);
      assert k == h;
      assert p.keys[..n] == p.keys[..i] + [k] && q.keys[..n] == q.keys[..i] + [h];
    }
  }

  // --- pages under an encoding -----------------------------------------

  function MapOption<K, L>(k: Option<K>, enc: K -> L): Option<L> {
    match k case Some(x) => Some(enc(x)) case None => None
  }

  function MapPage<K, L>(page: Page<K>, enc: K -> L): Page<L> {
    Page(seq(|page.keys|, i requires 0 <= i < |page.keys| => enc(page.keys[i])), MapOption(page.next, enc))
  }

  ghost predicate Injective<K(!new), L>(enc: K -> L) {
    forall a, b :: enc(a) == enc(b) ==> a == b
  }

  lemma MapPageKeys<K(!new), L>(page: Page<K>, enc: K -> L)
    requires Injective(enc)
    ensures forall k {:trigger k in page.keys} {:trigger enc(k)} :: enc(k) in MapPage(page, enc).keys <==> k in page.keys
    ensures forall b :: b in MapPage(page, enc).keys ==> exists k :: k in page.keys && b == enc(k)
  {
    var out := MapPage(page, enc).keys;
    forall k ensures enc(k) in out <==> k in page.keys {
      if enc(k) in out { var i :| 0 <= i < |out| && out[i] == enc(k); assert page.keys[i] == k; }
      if k in page.keys { var i :| 0 <= i < |page.keys| && page.keys[i] == k; assert out[i] == enc(k); }
    }
    forall b | b in out ensures exists k :: k in page.keys && b == enc(k) {
      var i :| 0 <= i < |out| && out[i] == b;
      assert page.keys[i] in page.keys;
    }
  }

  /** An injective, order-preserving encoding carries pages to pages. */
  lemma PagesMap<K(!new), L(!new)>(lt: (K, K) -> bool, less: (L, L) -> bool, enc: K -> L,
                                  pool: set<K>, image: set<L>, cursor: Option<K>, limit: nat, page: Page<K>)
    requires Injective(enc) && forall a, b :: lt(a, b) == less(enc(a), enc(b))
    requires forall k :: k in pool <==> enc(k) in image
    requires forall b :: b in image ==> exists k :: k in pool && b == enc(k)
    requires IsPage(lt, pool, cursor, limit, page)
    ensures IsPage(less, image, MapOption(cursor, enc), limit, MapPage(page, enc))
  {
    MapPageKeys(page, enc);
    var out := MapPage(page, enc);
    var rest := Rest(less, image, MapOption(cursor, enc));
    assert forall k :: enc(k) in rest <==> k in Rest(lt, pool, cursor);
    if page.next.Some? {
      var k :| k in Rest(lt, pool, cursor) && k !in page.keys;
      assert enc(k) in rest && enc(k) !in out.keys;
    }
  }

  // --- following cursors ------------------------------------------------

  function Elements<T>(s: seq<T>): set<T> {
    set x | x in s
  }

  lemma ElementsSnoc<X>(xs: seq<X>, i: nat)
    requires i < |xs|
    ensures Elements(xs[..i + 1]) == Elements(xs[..i]) + {xs[i]}
  {
    assert xs[..i + 1] == xs[..i] + [xs[i]];
  }

  function Served<K>(pages: seq<Page<K>>): seq<K> {
    if pages == [] then [] else pages[0].keys + Served(pages[1..])
  }

  /** Page `i` is read from the range as it stands at that moment, `pools[i]`. */
  ghost predicate Follows<K(!new)>(lt: (K, K) -> bool, limit: nat, start: Option<K>, pools: seq<set<K>>, pages: seq<Page<K>>)
    decreases |pages|
  {
    && |pools| == |pages| > 0
    && IsPage(lt, pools[0], start, limit, pages[0])
    && (pages[0].next.None? <==> |pages| == 1)
    && (pages[0].next.Some? ==> Follows(lt, limit, pages[0].next, pools[1..], pages[1..]))
  }

  /**
   However the range is edited between pages, a walk serves strictly ascending keys (so none
   twice), every served key was there when its page was read, and a key that is there for every
   page is served.
   */
  lemma {:induction false} WalkUnderEdits<K(!new)>(lt: (K, K) -> bool, limit: nat, start: Option<K>,
                                                   pools: seq<set<K>>, pages: seq<Page<K>>)
    requires StrictOrder(lt) && Follows(lt, limit, start, pools, pages)
    ensures Ascending(lt, Served(pages))
    ensures forall k :: k in Served(pages) ==> After(lt, start, k) && exists i :: 0 <= i < |pools| && k in pools[i]
    ensures forall k :: After(lt, start, k) && (forall i :: 0 <= i < |pools| ==> k in pools[i]) ==> k in Served(pages)
    decreases |pages|
  {
    var rest := Served(pages[1..]);
    assert Served(pages) == pages[0].keys + rest;
    forall k | k in pages[0].keys
      ensures After(lt, start, k) && exists i :: 0 <= i < |pools| && k in pools[i]
    { assert k in pools[0]; }
    if pages[0].next.None? {
      assert pages[1..] == [];
    } else {
      var n := pages[0].next.value;
      WalkUnderEdits(lt, limit, Some(n), pools[1..], pages[1..]);
      assert After(lt, start, n) by { assert n in pages[0].keys; }
      forall k | k in rest
        ensures After(lt, start, k) && exists i :: 0 <= i < |pools| && k in pools[i]
      {
        var i :| 0 <= i < |pools[1..]| && k in pools[1..][i];
        assert k in pools[i + 1];
      }
      forall i, j | 0 <= i < j < |Served(pages)|
        ensures lt(Served(pages)[i], Served(pages)[j])
      {
        var m := |pages[0].keys|;
        if j < m {
        } else if i < m {
          assert rest[j - m] in rest;
          assert i == m - 1 || lt(pages[0].keys[i], pages[0].keys[m - 1]);
        } else {
          assert lt(rest[i - m], rest[j - m]);
        }
      }
      forall k | After(lt, start, k) && (forall i :: 0 <= i < |pools| ==> k in pools[i])
        ensures k in Served(pages)
      {
        assert k in pools[0] && k in Rest(lt, pools[0], start);
        if k !in pages[0].keys {
          forall i | 0 <= i < |pools[1..]| ensures k in pools[1..][i] { assert k in pools[i + 1]; }
          assert After(lt, Some(n), k);
        }
      }
    }
  }

  /** Over a range nobody edits, following cursors yields exactly the range, sorted. */
  lemma WalkIsExact<K(!new)>(lt: (K, K) -> bool, limit: nat, start: Option<K>, pool: set<K>, pages: seq<Page<K>>)
    requires StrictOrder(lt)
    requires Follows(lt, limit, start, seq(|pages|, i => pool), pages)
    ensures Ascending(lt, Served(pages))
    ensures Elements(Served(pages)) == Rest(lt, pool, start)
  {
    WalkUnderEdits(lt, limit, start, seq(|pages|, i => pool), pages);
  }

  /** Each page moves the cursor strictly on and leaves strictly less to serve. */
  lemma PageShrinksRest<K(!new)>(lt: (K, K) -> bool, pool: set<K>, cursor: Option<K>, limit: nat, page: Page<K>)
    requires StrictOrder(lt) && IsPage(lt, pool, cursor, limit, page) && page.next.Some?
    ensures Rest(lt, pool, page.next) < Rest(lt, pool, cursor)
  {
    var n := page.next.value;
    assert n in page.keys && n in Rest(lt, pool, cursor) && n !in Rest(lt, pool, page.next);
  }

  /** Keys already behind the cursor. */
  function Behind<K>(lt: (K, K) -> bool, pool: set<K>, cursor: Option<K>): set<K> {
    set k | k in pool && !After(lt, cursor, k)
  }

  lemma NothingBehind<K>(lt: (K, K) -> bool, pool: set<K>)
    ensures Behind(lt, pool, None) == {}
  {}

  /** A page adds exactly its own keys to what is behind; the last one leaves nothing ahead. */
  lemma PageExtends<K(!new)>(lt: (K, K) -> bool, pool: set<K>, cursor: Option<K>, limit: nat, page: Page<K>)
    requires StrictOrder(lt) && IsPage(lt, pool, cursor, limit, page)
    ensures Elements(page.keys) !! Behind(lt, pool, cursor)
    ensures Elements(page.keys) + Behind(lt, pool, cursor) == if page.next.Some? then Behind(lt, pool, page.next) else pool
  {
    if page.next.Some? {
      var n := page.next.value;
      assert n in page.keys && After(lt, cursor, n);
      forall k | k in pool ensures !After(lt, page.next, k) <==> k in page.keys || !After(lt, cursor, k) {
        if k in page.keys { var i :| 0 <= i < |page.keys| && page.keys[i] == k; }
      }
    }
  }

  /** A page is decided by what lies ahead of its cursor, whatever happened behind it. */
  lemma PageAhead<K(!new)>(lt: (K, K) -> bool, pool: set<K>, pool': set<K>, cursor: Option<K>, limit: nat, page: Page<K>)
    requires IsPage(lt, pool', cursor, limit, page)
    requires forall k :: After(lt, cursor, k) ==> (k in pool <==> k in pool')
    ensures IsPage(lt, pool, cursor, limit, page)
  {
    assert Rest(lt, pool, cursor) == Rest(lt, pool', cursor);
  }

  // --- a walk in progress -----------------------------------------------

  /** How far a walk that others interleave with has got. */
  datatype Walk<K> = At(cursor: Option<K>) | Done

  predicate Passed<K>(lt: (K, K) -> bool, w: Walk<K>, k: K) {
    w.Done? || (w.cursor.Some? && !lt(w.cursor.value, k))
  }

  function Resume<K>(page: Page<K>): Walk<K> {
    match page.next case Some(k) => At(Some(k)) case None => Done
  }

  /** A page moves the walk on by exactly the keys it serves, as the range stands. */
  lemma PageCovers<K(!new)>(lt: (K, K) -> bool, pool: set<K>, w: Walk<K>, limit: nat, page: Page<K>, k: K)
    requires StrictOrder(lt) && w.At? && IsPage(lt, pool, w.cursor, limit, page)
    ensures k in page.keys ==> Passed(lt, Resume(page), k) && !Passed(lt, w, k) && k in pool
    ensures k in pool && Passed(lt, Resume(page), k) ==> Passed(lt, w, k) || k in page.keys
    ensures Passed(lt, w, k) ==> Passed(lt, Resume(page), k)
  {
    if page.next.Some? {
      assert page.keys[limit - 1] in page.keys;
      if k in page.keys { var i :| 0 <= i < |page.keys| && page.keys[i] == k; }
    }
  }

  // --- the iterator ----------------------------------------------------

  /** The first key of a set in order: what seeking an iterator finds. */
  method Least<K(==, !new)>(lt: (K, K) -> bool, pool: set<K>) returns (m: Option<K>)
    requires StrictOrder(lt)
    ensures m.None? <==> pool == {}
    ensures m.Some? ==> m.value in pool && forall k :: k in pool ==> k == m.value || lt(m.value, k)
  {
    m := None;
    var rest := pool;
    while rest != {}
      invariant rest <= pool
      invariant m.None? ==> rest == pool
      invariant m.Some? ==> m.value in pool && forall k :: k in pool - rest ==> k == m.value || lt(m.value, k)
      decreases rest
    {
      var k :| k in rest;
      ghost var seen := pool - rest;
      if m.None? || lt(k, m.value) { m := Some(k); }
      rest := rest - {k};
      assert pool - rest == seen + {k};
    }
  }

  /** One bounded scan: emit keys in order until the page is full, then read one past it. */
  method TakePage<K(==, !new)>(lt: (K, K) -> bool, pool: set<K>, cursor: Option<K>, limit: nat) returns (page: Page<K>)
    requires StrictOrder(lt) && limit > 0
    ensures IsPage(lt, pool, cursor, limit, page)
  {
    var all := Rest(lt, pool, cursor);
    var rest := all;
    var keys: seq<K> := [];
    while |keys| < limit
      invariant |keys| <= limit && rest <= all
      invariant Ascending(lt, keys)
      invariant forall k :: k in keys ==> k in all && k !in rest
      invariant forall k :: k in all ==> k in keys || k in rest
      invariant forall k, j :: k in rest && 0 <= j < |keys| ==> lt(keys[j], k)
    {
      var m := Least(lt, rest);
      if m.None? { return Page(keys, None); }
      keys := keys + [m.value];
      rest := rest - {m.value};
    }
    var more := Least(lt, rest);
    if more.None? { return Page(keys, None); }
    assert more.value !in keys;
    return Page(keys, Some(keys[limit - 1]));
  }

  // --- the two engine walks --------------------------------------------

  /** What a forward walk over `keys` can serve: it stops at the first key that is not `inside`. */
  ghost function Reach<K(!new)>(lt: (K, K) -> bool, keys: set<K>, inside: K -> bool): set<K> {
    set k | k in keys && inside(k) && forall j :: j in keys && lt(j, k) ==> inside(j)
  }

  /** `served` is everything below the iterator's position `at`, and all of it was inside. */
  ghost predicate Walked<K(!new)>(lt: (K, K) -> bool, keys: set<K>, inside: K -> bool, served: seq<K>, at: Option<K>) {
    && Ascending(lt, served)
    && (forall k :: k in served ==> k in keys && inside(k))
    && (at.Some? ==> at.value in keys)
    && (forall k :: k in keys ==> (k in served <==> at.None? || lt(k, at.value)))
  }

  /** Stepping the iterator past an inside key serves it and nothing else. */
  lemma WalkedStep<K(!new)>(lt: (K, K) -> bool, keys: set<K>, inside: K -> bool, served: seq<K>, x: K, next: Option<K>)
    requires StrictOrder(lt) && Walked(lt, keys, inside, served, Some(x)) && inside(x)
    requires next.None? ==> forall k :: k in keys ==> !lt(x, k)
    requires next.Some? ==> next.value in keys && lt(x, next.value)
    requires next.Some? ==> forall k :: k in keys && lt(x, k) ==> k == next.value || lt(next.value, k)
    ensures Walked(lt, keys, inside, served + [x], next)
  {
    var more := served + [x];
    forall i, j | 0 <= i < j < |more| ensures lt(more[i], more[j]) {
      if j == |served| { assert served[i] in served; }
    }
    forall k | k in keys ensures k in more <==> (next.None? || lt(k, next.value)) {
      assert k in more <==> k in served || k == x;
      assert k == x || lt(k, x) || lt(x, k);
    }
  }

  lemma WalkedIsPage<K(!new)>(lt: (K, K) -> bool, keys: set<K>, inside: K -> bool, limit: nat, served: seq<K>, at: Option<K>)
    requires StrictOrder(lt) && Walked(lt, keys, inside, served, at) && 0 < limit && |served| <= limit
    ensures at.None? || !inside(at.value) ==> IsPage(lt, Reach(lt, keys, inside), None, limit, Page(served, None))
    ensures at.Some? && inside(at.value) && |served| == limit ==>
              IsPage(lt, Reach(lt, keys, inside), None, limit, Page(served, Some(served[limit - 1])))
  {
    var pool := Reach(lt, keys, inside);
    assert Rest(lt, pool, None) == pool;
    forall k | k in served ensures k in pool {
      forall j | j in keys && lt(j, k) ensures inside(j) { assert j in served; }
    }
    if at.Some? && inside(at.value) && |served| == limit {
      assert at.value in pool && at.value !in served;
      forall k | k in pool && k !in served ensures lt(served[limit - 1], k) {
        assert served[limit - 1] in served;
      }
    }
  }

  /** redb: enumerate the range upwards, stop outside the prefix, read one past the limit. */
  method WalkRange<K(==, !new)>(lt: (K, K) -> bool, keys: set<K>, inside: K -> bool, limit: nat) returns (served: seq<K>, more: bool)
    requires StrictOrder(lt) && limit > 0
    ensures |served| <= limit && (more ==> |served| == limit)
    ensures IsPage(lt, Reach(lt, keys, inside), None, limit, Page(served, if more then Some(served[limit - 1]) else None))
  {
    served := [];
    var at := Least(lt, keys);
    while at.Some?
      invariant |served| <= limit && Walked(lt, keys, inside, served, at)
      decreases limit - |served|, at.Some?
    {
      WalkedIsPage(lt, keys, inside, limit, served, at);
      if !inside(at.value) { return served, false; }
      if |served| == limit { return served, true; }
      var above := set k | k in keys && lt(at.value, k);
      var next := Least(lt, above);
      assert forall k :: k in keys && lt(at.value, k) ==> k in above;
      WalkedStep(lt, keys, inside, served, at.value, next);
      served, at := served + [at.value], next;
    }
    WalkedIsPage(lt, keys, inside, limit, served, None);
    return served, false;
  }

  function Without<K(==)>(keys: set<K>, skip: Option<K>): set<K> {
    set k | k in keys && Some(k) != skip
  }

  /** RocksDB: seek inclusively, step over the cursor itself, count what was taken. */
  method WalkIterator<K(==, !new)>(lt: (K, K) -> bool, keys: set<K>, startAfter: Option<K>, inside: K -> bool, limit: nat)
    returns (served: seq<K>, more: bool)
    requires StrictOrder(lt) && limit > 0
    requires startAfter.Some? ==> forall k :: k in keys ==> k == startAfter.value || lt(startAfter.value, k)
    ensures |served| <= limit && (more ==> |served| == limit)
    ensures IsPage(lt, Reach(lt, Without(keys, startAfter), inside), None, limit,
                   Page(served, if more then Some(served[limit - 1]) else None))
  {
    ghost var rest := Without(keys, startAfter);
    served := [];
    var taken := 0;
    var it := Least(lt, keys);
    while it.Some?
      invariant it.Some? ==> it.value in keys
      invariant it.Some? && it == startAfter ==> served == [] && forall k :: k in keys ==> !lt(k, it.value)
      invariant taken == |served| <= limit
      invariant it.None? || it != startAfter ==> Walked(lt, rest, inside, served, it)
      decreases limit - |served|, it.Some?, it == startAfter
    {
      if startAfter == it {
        var above := set k | k in keys && lt(it.value, k);
        assert above == rest;
        it := Least(lt, above);
        continue;
      }
      WalkedIsPage(lt, rest, inside, limit, served, it);
      if !inside(it.value) { break; }
      if taken == limit { return served, true; }
      var above := set k | k in keys && lt(it.value, k);
      var next := Least(lt, above);
      assert forall k :: k in keys && lt(it.value, k) ==> k in above;
      WalkedStep(lt, rest, inside, served, it.value, next);
      served, taken, it := served + [it.value], taken + 1, next;
    }
    WalkedIsPage(lt, rest, inside, limit, served, it);
    return served, false;
  }

  /** The same walk with no limit, for an expansion that must see every key. */
  method WalkAll<K(==, !new)>(lt: (K, K) -> bool, keys: set<K>, inside: K -> bool) returns (served: seq<K>)
    requires StrictOrder(lt)
    ensures Elements(served) == Reach(lt, keys, inside)
  {
    served := [];
    var at := Least(lt, keys);
    while at.Some? && inside(at.value)
      invariant Walked(lt, keys, inside, served, at)
      decreases if at.None? then 0 else 1 + |set k | k in keys && lt(at.value, k)|
    {
      var above := set k | k in keys && lt(at.value, k);
      var next := Least(lt, above);
      assert forall k :: k in keys && lt(at.value, k) ==> k in above;
      WalkedStep(lt, keys, inside, served, at.value, next);
      if next.Some? {
        ghost var higher := set k | k in keys && lt(next.value, k);
        assert higher + {next.value} == above;
      }
      served, at := served + [at.value], next;
    }
    WalkedIsPage(lt, keys, inside, |served| + 1, served, at);
  }
}
