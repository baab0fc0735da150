/**
 Repository names interned to ids: a persistent bijection in the `n` and `i` ranges, a stored
 counter that never goes back, and a bounded cache of each direction in front of them.
 */
module Interner {
  import opened Bytes
  import opened Results
  import opened Keys
  import opened MetaStore
  import opened Store

  // --- the stored mapping ----------------------------------------------

  function IdOf(s: Data, name: Name): Option<RepoId> {
    if N(name) in s && s[N(name)].IdV? then Some(s[N(name)].id) else None
  }

  /** The allocation counter lives under the reserved id's own key. */
  function NextId(s: Data): RepoId {
    if I(RESERVED_ID) in s && s[I(RESERVED_ID)].IdV? then s[I(RESERVED_ID)].id else 0
  }

  /** Any stored value read as text: an id value is its four big-endian bytes. */
  function AsText(v: Val): Name {
    if v.NameV? then v.text else if v.IdV? then RepoBytes(v.id) else []
  }

  /** Every stored name is text. */
  ghost predicate Texts(s: Data) {
    forall id: RepoId :: id != RESERVED_ID && I(id) in s && s[I(id)].NameV? ==> Utf8(s[I(id)].text)
  }

  /** Names and ids are mutual inverses, and every id in use was handed out. */
  ghost predicate Bijection(s: Data) {
    && (forall n :: N(n) in s ==>
          s[N(n)].IdV? && s[N(n)].id < NextId(s) && I(s[N(n)].id) in s && s[I(s[N(n)].id)] == NameV(n))
    && (forall id: RepoId :: I(id) in s && id != RESERVED_ID ==>
          id < NextId(s) && s[I(id)].NameV? && N(s[I(id)].text) in s && s[N(s[I(id)].text)] == IdV(id))
    && (I(RESERVED_ID) in s ==> s[I(RESERVED_ID)].IdV?)
  }

  function Allocate(s: Data, id: RepoId, name: Name): Data
    requires id != RESERVED_ID
  {
    s[N(name) := IdV(id)][I(id) := NameV(name)][I(RESERVED_ID) := IdV(id + 1)]
  }

  /** Resolve a name, allocating the next id when it is new. */
  function Intern(s: Data, name: Name): (Data, Option<RepoId>) {
    match IdOf(s, name)
    case Some(id) => (s, Some(id))
    case None =>
      var id := NextId(s);
      if id == RESERVED_ID then (s, None) else (Allocate(s, id, name), Some(id))
  }

  lemma AllocateKeepsBijection(s: Data, name: Name)
    requires Bijection(s) && IdOf(s, name).None? && NextId(s) != RESERVED_ID
    ensures var s' := Allocate(s, NextId(s), name);
      && Bijection(s') && NextId(s') == NextId(s) + 1 && IdOf(s', name) == Some(NextId(s))
      && (forall n :: n != name ==> IdOf(s', n) == IdOf(s, n))
  {
    var s' := Allocate(s, NextId(s), name);
    assert N(name) !in s;
    assert forall n :: n != name ==> (N(n) in s' <==> N(n) in s);
    assert forall id: RepoId :: id != NextId(s) && id != RESERVED_ID ==> (I(id) in s' <==> I(id) in s);
  }

  lemma InternKeepsBijection(s: Data, name: Name)
    requires Bijection(s)
    ensures var (s', id) := Intern(s, name);
      && Bijection(s') && NextId(s) <= NextId(s')
      && (id.Some? ==> IdOf(s', name) == id && id.value < NextId(s'))
      && (forall n :: n != name ==> IdOf(s', n) == IdOf(s, n))
  {
    if IdOf(s, name).None? && NextId(s) != RESERVED_ID { AllocateKeepsBijection(s, name); }
  }

  /** Dropping one name and its id, by tombstone or retirement. */
  lemma ReleaseKeepsBijection(s: Data, name: Name, id: RepoId, s': Data)
    requires Bijection(s) && IdOf(s, name) == Some(id)
    requires forall k: Key :: k.N? || k.I? ==> (k in s' <==> k in s && k != N(name) && k != I(id)) && (k in s' ==> s'[k] == s[k])
    ensures Bijection(s') && NextId(s') == NextId(s)
    ensures IdOf(s', name).None? && (forall n :: n != name ==> IdOf(s', n) == IdOf(s, n))
  {}

  // --- the cache --------------------------------------------------------

  function Contents<K(==), V>(es: seq<(K, V)>): map<K, V> {
    if es == [] then map[] else Contents(es[1..])[es[0].0 := es[0].1]
  }

  function Drop<K(==), V>(es: seq<(K, V)>, k: K): seq<(K, V)> {
    if es == [] then [] else if es[0].0 == k then Drop(es[1..], k) else [es[0]] + Drop(es[1..], k)
  }

  ghost predicate Submap<K, V>(a: map<K, V>, b: map<K, V>) {
    forall k :: k in a ==> k in b && a[k] == b[k]
  }

  ghost predicate Distinct<K, V>(es: seq<(K, V)>) {
    forall i, j :: 0 <= i < j < |es| ==> es[i].0 != es[j].0
  }

  lemma {:induction false} ContentsOf<K, V>(es: seq<(K, V)>)
    ensures forall k {:trigger k in Contents(es)} :: k in Contents(es) ==> exists i :: 0 <= i < |es| && es[i].0 == k
    ensures forall i :: 0 <= i < |es| ==> es[i].0 in Contents(es)
    ensures Distinct(es) ==> forall i :: 0 <= i < |es| ==> es[i].0 in Contents(es) && Contents(es)[es[i].0] == es[i].1
  {
    if es != [] {
      ContentsOf(es[1..]);
      forall k | k in Contents(es) ensures exists i :: 0 <= i < |es| && es[i].0 == k {
        if k == es[0].0 {
        } else {
          var i :| 0 <= i < |es[1..]| && es[1..][i].0 == k;
          assert es[i + 1].0 == k;
        }
      }
      forall i | 0 <= i < |es| ensures es[i].0 in Contents(es) {
        if i > 0 { assert es[1..][i - 1] == es[i]; }
      }
      if Distinct(es) {
        forall i | 0 <= i < |es| ensures es[i].0 in Contents(es) && Contents(es)[es[i].0] == es[i].1 {
          if i > 0 { assert es[1..][i - 1] == es[i]; }
        }
      }
    }
  }

  lemma {:induction false} DropContents<K, V>(es: seq<(K, V)>, k: K)
    ensures Contents(Drop(es, k)) == Contents(es) - {k}
  {
    if es != [] {
      DropContents(es[1..], k);
      if es[0].0 != k { assert ([es[0]] + Drop(es[1..], k))[1..] == Drop(es[1..], k); }
    }
  }

  lemma {:induction false} DropKeeps<K, V>(es: seq<(K, V)>, k: K)
    ensures |Drop(es, k)| <= |es| && forall i :: 0 <= i < |Drop(es, k)| ==> Drop(es, k)[i] in es && Drop(es, k)[i].0 != k
  {
    if es != [] { DropKeeps(es[1..], k); }
  }

  lemma {:induction false} DropDistinct<K, V>(es: seq<(K, V)>, k: K)
    requires Distinct(es)
    ensures Distinct(Drop(es, k)) && (k in Contents(es) ==> |Drop(es, k)| < |es|)
  {
    if es != [] {
      var tail := es[1..];
      DropDistinct(tail, k);
      DropKeeps(tail, k);
      var d := Drop(tail, k);
      forall i | 0 <= i < |d| ensures d[i].0 != es[0].0 {
        var j :| 0 <= j < |tail| && tail[j] == d[i];
        assert es[j + 1] == d[i];
      }
    }
  }

  lemma DropIsRemove<K, V>(es: seq<(K, V)>, k: K)
    requires Distinct(es)
    ensures Contents(Drop(es, k)) == Contents(es) - {k}
    ensures |Drop(es, k)| <= |es| && forall i :: 0 <= i < |Drop(es, k)| ==> Drop(es, k)[i] in es && Drop(es, k)[i].0 != k
    ensures Distinct(Drop(es, k)) && (k in Contents(es) ==> |Drop(es, k)| < |es|)
  {
    DropContents(es, k);
    DropKeeps(es, k);
    DropDistinct(es, k);
  }

  lemma Promote<K, V>(es: seq<(K, V)>, k: K, v: V)
    requires Distinct(es)
    ensures var moved := [(k, v)] + Drop(es, k);
      && Distinct(moved) && |moved| <= |es| + 1 && (k in Contents(es) ==> |moved| <= |es|)
      && Contents(moved) == Contents(es)[k := v]
  {
    DropIsRemove(es, k);
    var moved := [(k, v)] + Drop(es, k);
    assert moved[1..] == Drop(es, k);
  }

  lemma Truncate<K, V>(es: seq<(K, V)>, n: nat)
    requires Distinct(es) && 1 <= n <= |es|
    ensures Distinct(es[..n]) && Submap(Contents(es[..n]), Contents(es))
    ensures es[0].0 in Contents(es[..n])
  {
    var front := es[..n];
    ContentsOf(es);
    ContentsOf(front);
    forall x | x in Contents(front) ensures x in Contents(es) && Contents(front)[x] == Contents(es)[x] {
      var i :| 0 <= i < |front| && front[i].0 == x;
      assert es[i] == front[i];
    }
    assert front[0] == es[0];
  }

  lemma {:induction false} DropNothing<K, V>(es: seq<(K, V)>, k: K)
    requires k !in Contents(es)
    ensures Drop(es, k) == es
  {
    if es != [] { DropNothing(es[1..], k); }
  }

  lemma {:induction false} ContentsButLast<K, V>(es: seq<(K, V)>)
    requires Distinct(es) && es != []
    ensures Contents(es[..|es| - 1]) == Contents(es) - {es[|es| - 1].0}
  {
    var n := |es| - 1;
    if n > 0 {
      assert es[1..][..n - 1] == es[..n][1..];
      ContentsButLast(es[1..]);
    }
  }

  /** At capacity a new entry displaces the last one. */
  lemma Displace<K, V>(es: seq<(K, V)>, k: K, v: V)
    requires Distinct(es) && es != [] && k !in Contents(es)
    ensures var moved := [(k, v)] + Drop(es, k);
      |moved| == |es| + 1 && Contents(moved[..|es|]) == Contents(es)[k := v] - {es[|es| - 1].0}
  {
    DropNothing(es, k);
    var moved := [(k, v)] + es;
    Promote(es, k, v);
    ContentsButLast(moved);
    assert moved[|es|] == es[|es| - 1];
  }

  /** A bounded cache, most recently used entry first. */
  class Lru<K(==), V> {
    var entries: seq<(K, V)>
    const capacity: nat

    ghost predicate Valid()
      reads this
    {
      1 <= capacity && |entries| <= capacity && Distinct(entries)
    }

    constructor (size: nat)
      ensures Valid() && Contents(entries) == map[]
    {
      capacity := if size == 0 then 1 else size;
      entries := [];
    }

    /** A hit moves the entry to the front and changes nothing else. */
    method Get(k: K) returns (v: Option<V>)
      requires Valid()
      modifies this
      ensures Valid() && Contents(entries) == old(Contents(entries))
      ensures v == if k in Contents(entries) then Some(Contents(entries)[k]) else None
      ensures entries == if v.Some? then [(k, v.value)] + Drop(old(entries), k) else old(entries)
    {
      var es := entries;
      v := None;
      ContentsOf(es);
      var i := 0;
      while i < |es|
        invariant 0 <= i <= |es|
        invariant forall j :: 0 <= j < i ==> es[j].0 != k
      {
        if es[i].0 == k {
          v := Some(es[i].1);
          Promote(es, k, es[i].1);
          entries := [(k, es[i].1)] + Drop(es, k);
          assert Contents(es)[k := es[i].1] == Contents(es);
          return;
        }
        i := i + 1;
      }
    }

    /** Insert or refresh; at capacity the least recently used entry goes. */
    method Put(k: K, v: V)
      requires Valid()
      modifies this
      ensures Valid() && Submap(Contents(entries), old(Contents(entries))[k := v])
      ensures k in Contents(entries) && Contents(entries)[k] == v
      ensures entries[0] == (k, v) && entries[1..] <= Drop(old(entries), k)
      ensures Contents(entries) == if k in old(Contents(entries)) || old(|entries|) < capacity then old(Contents(entries))[k := v]
                                   else old(Contents(entries))[k := v] - {old(entries[capacity - 1].0)}
    {
      Promote(entries, k, v);
      if k !in Contents(entries) { DropNothing(entries, k); }
      var moved := [(k, v)] + Drop(entries, k);
      if |moved| > capacity {
        if k !in Contents(entries) { Displace(entries, k, v); }
        Truncate(moved, capacity);
        moved := moved[..capacity];
      }
      entries := moved;
    }

    method Pop(k: K)
      requires Valid()
      modifies this
      ensures Valid() && Contents(entries) == old(Contents(entries)) - {k}
    {
      DropIsRemove(entries, k);
      entries := Drop(entries, k);
    }
  }

  // --- the interner -----------------------------------------------------

  /** Every id ever handed out, with the name it was handed out for. */
  ghost predicate IssueLog(s: Data, issued: map<RepoId, Name>) {
    && (forall id: RepoId :: id in issued <==> id < NextId(s))
    && (forall n :: IdOf(s, n).Some? ==> IdOf(s, n).value in issued && issued[IdOf(s, n).value] == n)
  }

  ghost predicate CachesMatch(s: Data, names: map<Name, RepoId>, ids: map<RepoId, Name>) {
    && (forall n :: n in names ==> IdOf(s, n) == Some(names[n]))
    && (forall id :: id in ids ==> id != RESERVED_ID && I(id) in s && s[I(id)] == NameV(ids[id]))
  }

  /** A new mapping disturbs nothing cached. */
  lemma AllocateKeepsCaches(s: Data, name: Name, names: map<Name, RepoId>, ids: map<RepoId, Name>)
    requires Bijection(s) && IdOf(s, name).None? && NextId(s) != RESERVED_ID && CachesMatch(s, names, ids)
    ensures CachesMatch(Allocate(s, NextId(s), name), names, ids)
  {}

  lemma AllocateKeepsLog(s: Data, name: Name, issued: map<RepoId, Name>)
    requires Bijection(s) && IdOf(s, name).None? && NextId(s) != RESERVED_ID && IssueLog(s, issued)
    ensures IssueLog(Allocate(s, NextId(s), name), issued[NextId(s) := name])
  {
    AllocateKeepsBijection(s, name);
  }

  lemma AllocateKeepsTexts(s: Data, name: Name)
    requires Texts(s) && Utf8(name) && NextId(s) != RESERVED_ID
    ensures Texts(Allocate(s, NextId(s), name))
  {}

  lemma ReleaseKeeps(s: Data, name: Name, id: RepoId, s': Data, issued: map<RepoId, Name>, names: map<Name, RepoId>, ids: map<RepoId, Name>)
    requires Bijection(s) && Texts(s) && IssueLog(s, issued) && CachesMatch(s, names, ids) && IdOf(s, name) == Some(id)
    requires s' == Perform(s, Effect({N(name), I(id)}, map[]))
    ensures Bijection(s') && Texts(s') && IssueLog(s', issued) && CachesMatch(s', names - {name}, ids - {id})
    ensures NextId(s') == NextId(s) && IdOf(s', name).None? && forall n :: n != name ==> IdOf(s', n) == IdOf(s, n)
  {
    ReleaseKeepsBijection(s, name, id, s');
    CachesAfterRelease(s, name, id, s', names, ids);
  }

  lemma CachesAfterRelease(s: Data, name: Name, id: RepoId, s': Data, names: map<Name, RepoId>, ids: map<RepoId, Name>)
    requires CachesMatch(s, names, ids) && s' == Perform(s, Effect({N(name), I(id)}, map[]))
    requires forall n :: n != name ==> IdOf(s', n) == IdOf(s, n)
    ensures CachesMatch(s', names - {name}, ids - {id})
  {}

  class RepoInterner {
    const engine: Engine
    const byName: Lru<Name, RepoId>
    const byId: Lru<RepoId, Name>
    ghost var issued: map<RepoId, Name>

    /** What the caches hold is what the store holds. */
    ghost predicate CachesAgree()
      reads this, engine, byName, byId
    {
      CachesMatch(engine.data, Contents(byName.entries), Contents(byId.entries))
    }

    ghost predicate Valid()
      reads this, engine, byName, byId
    {
      && byName.Valid() && byId.Valid()
      && Bijection(engine.data) && Texts(engine.data) && IssueLog(engine.data, issued)
      && CachesAgree()
    }

    /** A process starting over whatever store the ones before it left, `log` being what they issued. */
    constructor (e: Engine, size: nat, ghost log: map<RepoId, Name>)
      requires Bijection(e.data) && Texts(e.data) && IssueLog(e.data, log)
      ensures Valid() && engine == e && fresh(byName) && fresh(byId) && issued == log
    {
      engine := e;
      var names := new Lru<Name, RepoId>(size);
      var ids := new Lru<RepoId, Name>(size);
      byName := names;
      byId := ids;
      issued := log;
    }

    method Remember(name: Name, id: RepoId)
      requires Valid() && IdOf(engine.data, name) == Some(id)
      modifies byName, byId
      ensures Valid() && engine.data == old(engine.data)
    {
      byName.Put(name, id);
      byId.Put(id, name);
    }

    /** The id the store records for a name, cached or not. */
    method Lookup(name: Name) returns (id: Option<RepoId>)
      requires Valid()
      modifies byName, byId
      ensures Valid() && engine.data == old(engine.data)
      ensures id == IdOf(engine.data, name)
    {
      id := byName.Get(name);
      if id.Some? { return; }
      if N(name) !in engine.data { return None; }
      id := Some(engine.data[N(name)].id);
      Remember(name, id.value);
    }

    /**
     The name the store records for an id. The counter's own key reads back as a name and poisons
     the cache whenever its four bytes happen to be text, so agreement survives exactly when the
     id is not the reserved one, or there is no counter to read, or it does not read as text.
     */
    method Resolve(id: RepoId) returns (r: Result<Option<Name>, ()>)
      requires Valid()
      modifies byName, byId
      ensures engine.data == old(engine.data)
      ensures r.Err? <==> id == RESERVED_ID && I(id) in engine.data && !Utf8(AsText(engine.data[I(id)]))
      ensures Valid() <==> id != RESERVED_ID || I(id) !in engine.data || r.Err?
      ensures id != RESERVED_ID ==> (r.value.Some? <==> I(id) in engine.data)
      ensures id != RESERVED_ID && r.value.Some? ==> IdOf(engine.data, r.value.value) == Some(id)
    {
      var name := byId.Get(id);
      if name.Some? { return Ok(name); }
      if I(id) !in engine.data { return Ok(None); }
      var text := AsText(engine.data[I(id)]);
      if !Utf8(text) { return Err(()); }
      if id == RESERVED_ID {
        byName.Put(text, id);
        byId.Put(id, text);
        assert RESERVED_ID in Contents(byId.entries);
      } else {
        Remember(text, id);
      }
      r := Ok(Some(text));
    }

    /** The allocation itself: one batch for both directions and the counter. */
    method AllocateId(name: Name) returns (id: RepoId)
      requires Valid() && Utf8(name) && IdOf(engine.data, name).None? && NextId(engine.data) != RESERVED_ID
      modifies this, engine
      ensures Valid() && id == NextId(old(engine.data))
      ensures engine.data == Allocate(old(engine.data), id, name)
      ensures issued == old(issued)[id := name]
    {
      id := NextId(engine.data);
      AllocateKeepsBijection(engine.data, name);
      AllocateKeepsCaches(engine.data, name, Contents(byName.entries), Contents(byId.entries));
      AllocateKeepsLog(engine.data, name, issued);
      AllocateKeepsTexts(engine.data, name);
      ThreePuts(engine.data, name, id);
      engine.Apply([Put(N(name), IdV(id)), Put(I(id), NameV(name)), Put(I(RESERVED_ID), IdV(id + 1))]);
      issued := issued[id := name];
    }

    /** Resolve or allocate. A fresh id is one no repository has ever had. */
    method InternName(name: Name) returns (id: Option<RepoId>)
      requires Valid() && Utf8(name)
      modifies this, engine, byName, byId
      ensures Valid()
      ensures (engine.data, id) == Intern(old(engine.data), name)
      ensures id.None? <==> IdOf(old(engine.data), name).None? && NextId(old(engine.data)) == RESERVED_ID
      ensures issued == if IdOf(old(engine.data), name).None? && id.Some? then old(issued)[id.value := name] else old(issued)
      ensures id.Some? && IdOf(old(engine.data), name).None? ==> id.value !in old(issued)
    {
      id := Lookup(name);
      if id.Some? { return; }
      if NextId(engine.data) == RESERVED_ID { return None; }
      var next := AllocateId(name);
      AllocateKeepsBijection(old(engine.data), name);
      Remember(name, next);
      id := Some(next);
    }

    /** Release a name: the mapping goes from the store first, then from the caches. */
    method Release(name: Name)
      requires Valid() && IdOf(engine.data, name).Some?
      modifies engine, byName, byId
      ensures Valid() && issued == old(issued)
      ensures engine.data == old(engine.data) - {N(name), I(IdOf(old(engine.data), name).value)}
      ensures IdOf(engine.data, name).None? && NextId(engine.data) == NextId(old(engine.data))
      ensures forall n :: n != name ==> IdOf(engine.data, n) == IdOf(old(engine.data), n)
    {
      var id := IdOf(engine.data, name).value;
      engine.Apply([Delete(N(name)), Delete(I(id))]);
      TwoDeletes(old(engine.data), N(name), I(id));
      ReleaseKeeps(old(engine.data), name, id, engine.data, issued, Contents(byName.entries), Contents(byId.entries));
      byName.Pop(name);
      byId.Pop(id);
    }

    /** LRU pressure may evict anything at any time without changing what the interner answers. */
    method Evict(name: Name, id: RepoId)
      requires Valid()
      modifies byName, byId
      ensures Valid() && engine.data == old(engine.data)
    {
      byName.Pop(name);
      byId.Pop(id);
    }
  }

  lemma ThreePuts(s: Data, name: Name, id: RepoId)
    requires id != RESERVED_ID
    ensures Run(s, [Put(N(name), IdV(id)), Put(I(id), NameV(name)), Put(I(RESERVED_ID), IdV(id + 1))])
         == Allocate(s, id, name)
  {
    var x: Op, y: Op, z: Op := Put(N(name), IdV(id)), Put(I(id), NameV(name)), Put(I(RESERVED_ID), IdV(id + 1));
    assert [x, y, z][..2] == [x, y] && [x, y][..1] == [x] && [x][..0] == [];
    assert Run(s, [x]) == ApplyOp(s, x);
    assert Run(s, [x, y]) == ApplyOp(ApplyOp(s, x), y);
    assert Run(s, [x, y, z]) == ApplyOp(ApplyOp(ApplyOp(s, x), y), z);
  }

  lemma TwoDeletes(s: Data, a: Key, b: Key)
    ensures Run(s, [Delete(a), Delete(b)]) == Perform(s, Effect({a, b}, map[])) == s - {a, b}
  {
    var ops: seq<Op> := [Delete(a), Delete(b)];
    assert ops[..1] == [Delete(a)] && ops[..1][..0] == [];
    assert Run(s, ops[..1]) == s - {a};
  }

  /** After the first name is interned the counter reads as text, so resolving the reserved id poisons the cache. */
  lemma CounterReadsAsText(name: Name)
    ensures var s := Allocate(map[], 0, name);
      Bijection(s) && I(RESERVED_ID) in s && AsText(s[I(RESERVED_ID)]) == [0, 0, 0, 1] && Utf8(AsText(s[I(RESERVED_ID)]))
  {
    AllocateKeepsBijection(map[], name);
    assert RepoBytes(1) == [0, 0, 0, 1];
    PlainText([0, 0, 0, 1]);
  }
}
