/**
 The interner with its calls taken apart: a lookup reads the store and fills the cache in two
 steps, a drop deletes the mapping and forgets it in two, an allocation takes a lock, checks again,
 reads the counter and writes. The stored mapping survives every interleaving. The cache does
 not: a lookup that fills it after a drop has already forgotten the mapping leaves a dead id behind.
 */
module NameRaces {
  import opened Results
  import opened Keys
  import opened Store
  import opened Interner

  /** A mapping on its way into the cache, or on its way out of it. */
  datatype Mapping = Mapping(name: Name, id: RepoId)

  datatype Allocator = Allocator(thread: nat, name: Name, id: Option<RepoId>)

  /**
   `reading` is what each thread has found and not yet remembered; `dropped` the mappings gone
   from the store and not yet forgotten; `lock` the allocator inside the lock, with the counter
   once it has read it.
   */
  datatype Front = Front(store: Data, cache: map<Name, RepoId>, reading: map<nat, Mapping>, dropped: set<Mapping>, lock: Option<Allocator>)

  datatype Event =
    | Read(thread: nat, name: Name)
    | Remember(thread: nat)
    | Lock(thread: nat, name: Name)
    | Counter
    | Write
    | Unlock
    | Drop(name: Name)
    | Forget(mapping: Mapping)
    | Evict(name: Name)

  ghost predicate Happens(f: Front, e: Event, f': Front) {
    match e
    case Read(t, n) =>
      && t !in f.reading && n !in f.cache && IdOf(f.store, n).Some?
      && f' == f.(reading := f.reading[t := Mapping(n, IdOf(f.store, n).value)])
    case Remember(t) =>
      t in f.reading && f' == f.(cache := f.cache[f.reading[t].name := f.reading[t].id], reading := f.reading - {t})
    case Lock(t, n) => f.lock.None? && t !in f.reading && f' == f.(lock := Some(Allocator(t, n, None)))
    case Counter =>
      && f.lock.Some? && f.lock.value.id.None? && IdOf(f.store, f.lock.value.name).None? && NextId(f.store) != RESERVED_ID
      && f' == f.(lock := Some(f.lock.value.(id := Some(NextId(f.store)))))
    case Write =>
      && f.lock.Some? && f.lock.value.id.Some? && f.lock.value.id.value != RESERVED_ID && f.lock.value.thread !in f.reading
      && var a := f.lock.value;
      f' == f.(store := Allocate(f.store, a.id.value, a.name), lock := None, reading := f.reading[a.thread := Mapping(a.name, a.id.value)])
    case Unlock => f.lock.Some? && f' == f.(lock := None)
    case Drop(n) =>
      && IdOf(f.store, n).Some?
      && var id := IdOf(f.store, n).value;
      f' == f.(store := f.store - {N(n), I(id)}, dropped := f.dropped + {Mapping(n, id)})
    case Forget(m) => m in f.dropped && f' == f.(cache := f.cache - {m.name}, dropped := f.dropped - {m})
    case Evict(n) => f' == f.(cache := f.cache - {n})
  }

  // --- the stored mapping -----------------------------------------------

  ghost predicate Handed(s: Data, m: Mapping) { m.id < NextId(s) }

  /** The lock makes check, read and write one step: what the allocator read still holds. */
  ghost predicate FrontInv(f: Front) {
    && Bijection(f.store)
    && (f.lock.Some? && f.lock.value.id.Some? ==> f.lock.value.id.value == NextId(f.store) && IdOf(f.store, f.lock.value.name).None?)
    && (forall t :: t in f.reading ==> Handed(f.store, f.reading[t]))
    && (forall m :: m in f.dropped ==> Handed(f.store, m) && I(m.id) !in f.store)
  }

  lemma DropKeeps(s: Data, n: Name)
    requires Bijection(s) && IdOf(s, n).Some?
    ensures var id := IdOf(s, n).value; var s' := s - {N(n), I(id)};
      && Bijection(s') && NextId(s') == NextId(s) && I(id) !in s' && id < NextId(s)
      && (forall x :: x != n ==> IdOf(s', x) == IdOf(s, x)) && IdOf(s', n).None?
      && (forall x: RepoId :: I(x) in s' ==> I(x) in s)
  {
    assert N(n) in s;
    ReleaseKeepsBijection(s, n, IdOf(s, n).value, s - {N(n), I(IdOf(s, n).value)});
  }

  lemma EventKeepsInv(f: Front, e: Event, f': Front)
    requires FrontInv(f) && Happens(f, e, f')
    ensures FrontInv(f') && NextId(f.store) <= NextId(f'.store)
  {
    match e {
      case Read(t, n) => assert N(n) in f.store;
      case Write => AllocateKeepsBijection(f.store, f.lock.value.name);
      case Drop(n) => DropKeeps(f.store, n);
      case _ =>
    }
  }

  ghost predicate HappensAt(fs: seq<Front>, es: seq<Event>, i: nat)
    requires |fs| == |es| + 1 && i < |es|
  {
    Happens(fs[i], es[i], fs[i + 1])
  }

  ghost predicate Interleaving(fs: seq<Front>, es: seq<Event>) {
    && |fs| == |es| + 1 && fs[0] == Front(map[], map[], map[], {}, None)
    && forall i :: 0 <= i < |es| ==> HappensAt(fs, es, i)
  }

  /** In every interleaving names and ids are mutual inverses. */
  lemma {:induction false} MappingSurvives(fs: seq<Front>, es: seq<Event>, i: nat)
    requires Interleaving(fs, es) && i < |fs|
    ensures FrontInv(fs[i]) && Bijection(fs[i].store)
  {
    if i > 0 {
      MappingSurvives(fs, es, i - 1);
      assert HappensAt(fs, es, i - 1);
      EventKeepsInv(fs[i - 1], es[i - 1], fs[i]);
    }
  }

  /** And no id is handed out twice: a later write issues a later id. */
  lemma {:induction false} IdsAreIssuedOnce(fs: seq<Front>, es: seq<Event>, i: nat, j: nat)
    requires Interleaving(fs, es) && i < j < |es| && es[i].Write? && es[j].Write?
    ensures fs[i].lock.Some? && fs[i].lock.value.id.Some? && fs[j].lock.Some? && fs[j].lock.value.id.Some?
    ensures fs[i].lock.value.id.value < fs[j].lock.value.id.value
  {
    MappingSurvives(fs, es, i);
    MappingSurvives(fs, es, j);
    assert HappensAt(fs, es, i) && HappensAt(fs, es, j);
    AllocateKeepsBijection(fs[i].store, fs[i].lock.value.name);
    CounterGrows(fs, es, i + 1, j);
  }

  lemma {:induction false} CounterGrows(fs: seq<Front>, es: seq<Event>, i: nat, j: nat)
    requires Interleaving(fs, es) && i <= j < |fs|
    ensures NextId(fs[i].store) <= NextId(fs[j].store)
    decreases j
  {
    if i < j {
      CounterGrows(fs, es, i, j - 1);
      MappingSurvives(fs, es, j - 1);
      assert HappensAt(fs, es, j - 1);
      EventKeepsInv(fs[j - 1], es[j - 1], fs[j]);
    }
  }

  // --- the cache --------------------------------------------------------

  /** The mapping is stored, or its drop has still to be forgotten and will take the entry with it. */
  ghost predicate Sound(f: Front, m: Mapping) {
    IdOf(f.store, m.name) == Some(m.id) || m in f.dropped
  }

  /** The name leads to an id the store no longer gives it, and nothing is on its way to say so. */
  ghost predicate Stale(f: Front, m: Mapping) {
    m.name in f.cache && f.cache[m.name] == m.id && !Sound(f, m)
  }

  lemma SoundStep(f: Front, e: Event, f': Front, m: Mapping)
    requires FrontInv(f) && Happens(f, e, f') && Handed(f.store, m)
    ensures Sound(f', m) <==> Sound(f, m) && e != Forget(m)
  {
    if IdOf(f.store, m.name) == Some(m.id) { assert N(m.name) in f.store && I(m.id) in f.store; }
    match e {
      case Write => AllocateKeepsBijection(f.store, f.lock.value.name);
      case Drop(n) => DropKeeps(f.store, n); assert N(n) in f.store;
      case _ =>
    }
  }

  ghost predicate ForgottenWithin(es: seq<Event>, m: Mapping, i: nat, j: nat)
    requires j <= |es|
  {
    exists k :: i <= k < j && es[k] == Forget(m)
  }

  lemma {:induction false} SoundUntilForgotten(fs: seq<Front>, es: seq<Event>, i: nat, j: nat, m: Mapping)
    requires Interleaving(fs, es) && i <= j < |fs| && Handed(fs[i].store, m) && Sound(fs[i], m)
    ensures Handed(fs[j].store, m) && (Sound(fs[j], m) <==> !ForgottenWithin(es, m, i, j))
    decreases j
  {
    if i < j {
      SoundUntilForgotten(fs, es, i, j - 1, m);
      MappingSurvives(fs, es, j - 1);
      assert HappensAt(fs, es, j - 1);
      EventKeepsInv(fs[j - 1], es[j - 1], fs[j]);
      SoundStep(fs[j - 1], es[j - 1], fs[j], m);
      assert ForgottenWithin(es, m, i, j) <==> ForgottenWithin(es, m, i, j - 1) || es[j - 1] == Forget(m);
    }
  }

  /**
   A lookup that reads at step `i` and remembers at step `k` leaves a stale entry if and only if
   the mapping it read was forgotten in between. Everything else a drop can do around it is
   harmless: until the forget runs, the forget is still to come.
   */
  lemma StaleIffForgotten(fs: seq<Front>, es: seq<Event>, i: nat, k: nat, m: Mapping)
    requires Interleaving(fs, es) && i < k < |es| && es[i].Read? && es[k] == Remember(es[i].thread)
    requires IdOf(fs[i].store, es[i].name) == Some(m.id) && m.name == es[i].name && forall j :: i < j < k ==> es[j] != Remember(es[i].thread)
    ensures Stale(fs[k + 1], m) <==> ForgottenWithin(es, m, i, k)
  {
    assert HappensAt(fs, es, i) && HappensAt(fs, es, k);
    MappingSurvives(fs, es, i);
    assert N(m.name) in fs[i].store;
    SoundUntilForgotten(fs, es, i, k, m);
    StillReading(fs, es, i, k, m);
    MappingSurvives(fs, es, k);
    SoundStep(fs[k], es[k], fs[k + 1], m);
  }

  lemma {:induction false} StillReading(fs: seq<Front>, es: seq<Event>, i: nat, j: nat, m: Mapping)
    requires Interleaving(fs, es) && i < j < |fs| && es[i].Read?
    requires IdOf(fs[i].store, es[i].name) == Some(m.id) && m.name == es[i].name && forall x :: i < x < j ==> es[x] != Remember(es[i].thread)
    ensures es[i].thread in fs[j].reading && fs[j].reading[es[i].thread] == m
    decreases j
  {
    if i + 1 < j { StillReading(fs, es, i, j - 1, m); }
    assert HappensAt(fs, es, j - 1);
  }

  // --- the stale entry happens ------------------------------------------

  function Named(n: Name): Data { Allocate(map[], 0, n) }

  function Unnamed(n: Name): Data { map[I(RESERVED_ID) := IdV(1)] }

  function RaceEvents(n: Name): seq<Event> {
    [Lock(0, n), Counter, Write, Read(1, n), Drop(n), Forget(Mapping(n, 0)), Remember(1)]
  }

  function RaceFronts(n: Name): seq<Front> {
    var w := map[0 := Mapping(n, 0)];
    [Front(map[], map[], map[], {}, None),
     Front(map[], map[], map[], {}, Some(Allocator(0, n, None))),
     Front(map[], map[], map[], {}, Some(Allocator(0, n, Some(0)))),
     Front(Named(n), map[], w, {}, None),
     Front(Named(n), map[], w[1 := Mapping(n, 0)], {}, None),
     Front(Unnamed(n), map[], w[1 := Mapping(n, 0)], {Mapping(n, 0)}, None),
     Front(Unnamed(n), map[], w[1 := Mapping(n, 0)], {}, None),
     Front(Unnamed(n), map[n := 0], w, {}, None)]
  }

  lemma RaceStep(n: Name, i: nat)
    requires i < 7
    ensures HappensAt(RaceFronts(n), RaceEvents(n), i)
  {
    if i == 4 { assert Named(n) - {N(n), I(0)} == Unnamed(n); }
    if i == 6 { assert map[0 := Mapping(n, 0)][1 := Mapping(n, 0)] - {1} == map[0 := Mapping(n, 0)]; }
  }

  /** One name, one drop, one slow lookup: the cache ends up giving the name an id that is being swept. */
  lemma SlowLookupPoisonsTheCache(n: Name)
    ensures Interleaving(RaceFronts(n), RaceEvents(n)) && Stale(RaceFronts(n)[7], Mapping(n, 0))
  {
    forall i | 0 <= i < |RaceEvents(n)| ensures HappensAt(RaceFronts(n), RaceEvents(n), i) { RaceStep(n, i); }
  }
}
