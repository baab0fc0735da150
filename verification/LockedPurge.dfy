/**
 A manifest purge with its plan and its apply apart. The plan checks under the repository's lock
 that nothing needs the manifest; by the time the batch is applied, whatever else has run, that is
 still so, unless the repository was wiped meanwhile.
 */
module LockedPurge {
  import opened Results
  import opened Paging
  import opened Keys
  import opened Store
  import opened Interner
  import opened Registry
  import opened Requests
  import opened Invariants
  import opened IndexSteps
  import opened Retractions
  import opened Outcomes
  import opened RepoLocks
  import opened Guards

  // --- a locked mutation plans what its call plans ----------------------

  function CallOf(name: Name, m: Mutation): Request {
    match m
    case Pushing(d, claimed, tags, now) => PutManifest(name, d, claimed, tags, now)
    case Untagging(t, now) => Untag(name, t, now)
    case Deleting(d, now) => RemoveManifest(name, d, now)
    case Purging(d, pushedBefore, now) => PurgeManifest(name, d, now, pushedBefore)
  }

  lemma LockedPlanIsTheCalls(cfg: Config, s: Data, name: Name, r: RepoId, m: Mutation)
    ensures var planned := PlanOf(cfg, s, r, m) == Requests.Plan(cfg, s, r, CallOf(name, m)); planned
  {}

  lemma PlannedPushAgrees(cfg: Config, s: Data, r: RepoId, m: Mutation)
    requires m.Pushing? && (var planned := PlanOf(cfg, s, r, m); planned.Some?)
    ensures DigestAgrees(m.digest, m.claimed)
  {}

  lemma ArrivesAtOnce(s: Data, name: Name, r: RepoId, m: Mutation)
    requires IdOf(s, name) == Some(r) && (m.Pushing? ==> DigestAgrees(m.digest, m.claimed))
    ensures Arrive(s, CallOf(name, m)) == (s, Some(r))
  {}

  /** Taken and applied with nothing in between, a locked mutation is exactly the call. */
  lemma LockedCallIsServed(cfg: Config, s: Data, name: Name, r: RepoId, m: Mutation)
    requires IdOf(s, name) == Some(r) && PlanOf(cfg, s, r, m).Some?
    ensures var served := Serve(cfg, s, CallOf(name, m)) == Perform(s, PlanOf(cfg, s, r, m).value); served
  {
    LockedPlanIsTheCalls(cfg, s, name, r, m);
    if m.Pushing? { PlannedPushAgrees(cfg, s, r, m); }
    ArrivesAtOnce(s, name, r, m);
    ServeApplies(cfg, s, CallOf(name, m), s, r, PlanOf(cfg, s, r, m).value);
  }

  // --- batches keep to their repository ---------------------------------

  lemma PushIsLocal(cfg: Config, s: Data, r: RepoId, d: Digest, tags: set<Tag>, now: Millis)
    ensures var local := Local(PushEffect(cfg, s, r, d, tags, now), r); local
  {
    forall k: Key, x: RepoId
      | Mentions(k, x) && (k in PushEffect(cfg, s, r, d, tags, now).dels || k in PushEffect(cfg, s, r, d, tags, now).puts)
      ensures x == r
    {
      PushKeyIsLocal(cfg, s, r, d, tags, now, k, x);
    }
  }

  lemma PushKeyIsLocal(cfg: Config, s: Data, r: RepoId, d: Digest, tags: set<Tag>, now: Millis, k: Key, x: RepoId)
    requires Mentions(k, x) && (k in PushEffect(cfg, s, r, d, tags, now).dels || k in PushEffect(cfg, s, r, d, tags, now).puts)
    ensures x == r
  {
    PushPutsWhere(cfg, s, r, d, tags, now, k);
    PushAt(cfg, s, r, d, tags, now, k);
    TagSetDelsAt(cfg, s, r, tags, d, k);
  }

  lemma UntagIsLocal(cfg: Config, s: Data, r: RepoId, t: Tag, now: Millis)
    requires DeleteTag(cfg, s, r, t, now).Ok?
    ensures var local := Local(DeleteTag(cfg, s, r, t, now).value, r); local
  {}

  lemma PlannedIsLocal(cfg: Config, s: Data, r: RepoId, m: Mutation)
    requires PlanOf(cfg, s, r, m).Some?
    ensures var local := Local(PlanOf(cfg, s, r, m).value, r); local
  {
    match m {
      case Pushing(d, claimed, tags, now) => PushIsLocal(cfg, s, r, d, Elements(tags), now);
      case Untagging(t, now) => UntagIsLocal(cfg, s, r, t, now);
      case Deleting(d, now) => DeleteIsLocal(cfg, s, r, d, now);
      case Purging(d, pushedBefore, now) => DeleteIsLocal(cfg, s, r, d, now);
    }
  }

  ghost predicate AllLocal(s: Locked) { forall n :: n in s.held ==> Local(s.held[n].batch, s.held[n].repo) }

  lemma ActKeepsLocal(cfg: Config, shard: Name -> nat, s: Locked, a: Action, s': Locked)
    requires AllLocal(s) && Act(cfg, shard, s, a, s')
    ensures AllLocal(s')
  {
    if a.Plan? { PlannedIsLocal(cfg, s.store, a.id, a.mutation); }
  }

  lemma {:induction false} LocalAt(cfg: Config, shard: Name -> nat, states: seq<Locked>, actions: seq<Action>, i: nat)
    requires LockedRun(cfg, shard, states, actions) && i < |states|
    ensures AllLocal(states[i])
  {
    if i > 0 {
      LocalAt(cfg, shard, states, actions, i - 1);
      assert ActAt(cfg, shard, states, actions, i - 1);
      ActKeepsLocal(cfg, shard, states[i - 1], actions[i - 1], states[i]);
    }
  }

  // --- between plan and apply -------------------------------------------

  /** The ranges that say whether a manifest is needed. */
  predicate NeedKey(k: Key, r: RepoId) { (k.T? || k.G? || k.M? || k.Z? || k.S?) && k.repo == r }

  ghost predicate NeedsAlike(s: Data, s': Data, r: RepoId) { forall k: Key :: NeedKey(k, r) ==> SameKey(s, s', k) }

  /** The shard's lock is not released and the id not wiped; other work leaves the index and its edges alone. */
  ghost predicate Holds(shard: nat, id: RepoId, s: Locked, a: Action) {
    && a != Apply(shard) && a != Wipe(id)
    && (a.Elsewhere? ==> forall k: Key :: k.S? ==> SameKey(s.store, a.store, k))
  }

  lemma ActLeavesNeeds(cfg: Config, shard: Name -> nat, s: Locked, a: Action, s': Locked, n: nat)
    requires LockInv(shard, s) && AllLocal(s) && Act(cfg, shard, s, a, s') && n in s.held && Holds(n, s.held[n].repo, s, a)
    ensures n in s'.held && s'.held[n] == s.held[n]
    ensures var alike := NeedsAlike(s.store, s'.store, s.held[n].repo); alike
  {
    match a {
      case Apply(m) => OneHolder(shard, s, n, m); OthersLeaveNeeds(s.store, s.held[m].batch, s.held[m].repo, s.held[n].repo);
      case Wipe(id) => WipeLeavesNeeds(s.store, id, s.held[n].repo);
      case _ =>
    }
  }

  lemma OthersLeaveNeeds(s: Data, e: Effect, r: RepoId, x: RepoId)
    requires Local(e, r) && x != r
    ensures var alike := NeedsAlike(s, Perform(s, e), x); alike
  {
    forall k: Key | NeedKey(k, x) ensures SameKey(s, Perform(s, e), k) {
      assert Mentions(k, x);
      PerformAt(s, e, k);
    }
  }

  lemma WipeLeavesNeeds(s: Data, id: RepoId, x: RepoId)
    requires x != id
    ensures var alike := NeedsAlike(s, FinishSweep(s, id), x); alike
  {
    forall k: Key | NeedKey(k, x) ensures SameKey(s, FinishSweep(s, id), k) {}
  }

  lemma HeldNext(cfg: Config, shard: Name -> nat, states: seq<Locked>, actions: seq<Action>, j: nat, n: nat)
    requires LockedRun(cfg, shard, states, actions) && j < |actions| && n in states[j].held
    requires var holds := Holds(n, states[j].held[n].repo, states[j], actions[j]); holds
    ensures n in states[j + 1].held && states[j + 1].held[n] == states[j].held[n]
    ensures var alike := NeedsAlike(states[j].store, states[j + 1].store, states[j].held[n].repo); alike
  {
    IndexSurvivesInterleaving(cfg, shard, states, actions, j);
    LocalAt(cfg, shard, states, actions, j);
    assert ActAt(cfg, shard, states, actions, j);
    ActLeavesNeeds(cfg, shard, states[j], actions[j], states[j + 1], n);
  }

  lemma {:induction false} HeldThroughout(cfg: Config, shard: Name -> nat, states: seq<Locked>, actions: seq<Action>, i: nat, j: nat, n: nat, p: Pending)
    requires LockedRun(cfg, shard, states, actions) && i <= j < |states| && n in states[i].held && states[i].held[n] == p
    requires forall x :: i <= x < j ==> Holds(n, p.repo, states[x], actions[x])
    ensures n in states[j].held && states[j].held[n] == p
    ensures var alike := NeedsAlike(states[i].store, states[j].store, p.repo); alike
    decreases j
  {
    if i < j {
      HeldThroughout(cfg, shard, states, actions, i, j - 1, n, p);
      HeldNext(cfg, shard, states, actions, j - 1, n);
      AlikeTwice(states[i].store, states[j - 1].store, states[j].store, p.repo);
    }
  }

  lemma AlikeTwice(s: Data, s1: Data, s2: Data, r: RepoId)
    requires NeedsAlike(s, s1, r) && NeedsAlike(s1, s2, r)
    ensures var alike := NeedsAlike(s, s2, r); alike
  {
    forall k: Key | NeedKey(k, r) ensures SameKey(s, s2, k) { assert SameKey(s, s1, k) && SameKey(s1, s2, k); }
  }

  lemma UnneededStays(s: Data, s': Data, r: RepoId, d: Digest, pushedBefore: nat)
    requires NeedsAlike(s, s', r) && Unneeded(s, r, d, pushedBefore)
    ensures Unneeded(s', r, d, pushedBefore)
  {
    assert SameKey(s, s', M(r, d));
    forall t: Tag ensures TagAt(s', r, t) != Some(d) { assert SameKey(s, s', T(r, t)); assert TagAt(s', r, t) == TagAt(s, r, t) != Some(d); }
    forall p: Digest ensures S(r, d, p) !in s' { assert SameKey(s, s', S(r, d, p)); }
    if s[M(r, d)].subject.Some? { assert SameKey(s, s', M(r, s[M(r, d)].subject.value)); }
  }

  lemma PurgePlannedUnneeded(cfg: Config, s: Data, r: RepoId, d: Digest, pushedBefore: nat, now: Millis)
    requires TagIndex(s) && PlanOf(cfg, s, r, Purging(d, pushedBefore, now)).Some?
    ensures Unneeded(s, r, d, pushedBefore)
  {
    PurgeableIff(s, r, d, pushedBefore);
  }

  /**
   A purge planned at step `i` and applied at `j` under one lock: at the moment it is applied the
   manifest is still stored, old enough, under no tag, no index's child and of no live subject.
   */
  lemma PurgeHoldsAtTheApply(cfg: Config, shard: Name -> nat, states: seq<Locked>, actions: seq<Action>, i: nat, j: nat,
                             name: Name, id: RepoId, d: Digest, pushedBefore: nat, now: Millis)
    requires LockedRun(cfg, shard, states, actions) && i < j < |actions|
    requires actions[i] == Plan(name, id, Purging(d, pushedBefore, now)) && actions[j] == Apply(shard(name))
    requires forall x :: i < x < j ==> Holds(shard(name), id, states[x], actions[x])
    ensures Unneeded(states[j].store, id, d, pushedBefore) && M(id, d) !in states[j + 1].store
  {
    IndexSurvivesInterleaving(cfg, shard, states, actions, i);
    assert ActAt(cfg, shard, states, actions, i) && ActAt(cfg, shard, states, actions, j);
    PurgePlannedUnneeded(cfg, states[i].store, id, d, pushedBefore, now);
    var p := states[i + 1].held[shard(name)];
    HeldThroughout(cfg, shard, states, actions, i + 1, j, shard(name), p);
    UnneededStays(states[i].store, states[j].store, id, d, pushedBefore);
    PurgeTakes(cfg, states[i].store, states[j].store, id, d, pushedBefore, now);
  }

  lemma PurgeTakes(cfg: Config, s: Data, s': Data, r: RepoId, d: Digest, pushedBefore: nat, now: Millis)
    requires PlanOf(cfg, s, r, Purging(d, pushedBefore, now)).Some?
    ensures M(r, d) !in Perform(s', PlanOf(cfg, s, r, Purging(d, pushedBefore, now)).value)
  {
    var tags := TagsPointingAt(s, r, d);
    var e := DeleteManifest(cfg, s, r, d, now).value;
    DeleteManifestDelsAt(cfg, s, r, d, s[M(r, d)], tags, M(r, d));
    TagEventsAt(r, tags, d, now, Deleted, M(r, d));
    PerformAt(s', e, M(r, d));
  }
}
