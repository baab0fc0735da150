/**
 Bytes against metadata: uploads rename a file into place and then write its record, purge
 retracts the record and then removes the file, each under the digest's lock, with archive copies
 and every other registry call running beside them and a crash possible between any two steps. A
 record never names a missing file.
 */
module BlobLocks {
  import opened Results
  import opened Keys
  import opened Store
  import opened Interner
  import opened Registry
  import opened Guards
  import opened Invariants
  import opened Requests

  /** Where a lock holder has got to. */
  datatype Holder =
    | Committing(digest: Digest)
    | Renamed(digest: Digest)
    | Mounting(digest: Digest)
    | Collecting(digest: Digest)
    | Retracted(digest: Digest)

  /** The files on disk, the metadata, and the shards whose lock is taken. */
  datatype Disk = Disk(files: set<Digest>, store: Data, held: map<nat, Holder>)

  datatype Event =
    | Lock(holder: Holder)
    | Rename(digest: Digest)
    | Record(digest: Digest, repo: RepoId, size: nat, now: Millis)
    | Mount(digest: Digest, repo: RepoId, from: Option<Name>, now: Millis)
    | Retract(digest: Digest, cutoff: nat)
    | Remove(digest: Digest)
    | Unlock(digest: Digest)
    | Archive(digest: Digest)
    | Elsewhere(store: Data)
    | Crash

  ghost predicate Holds(shard: Digest -> nat, s: Disk, h: Holder) {
    shard(h.digest) in s.held && s.held[shard(h.digest)] == h
  }

  /** One step. Giving up with the lock still held is `Unlock`; it leaves whatever is on disk. */
  ghost predicate Happens(shard: Digest -> nat, s: Disk, e: Event, s': Disk) {
    match e
    case Lock(h) =>
      && (h.Committing? || h.Mounting? || h.Collecting?) && shard(h.digest) !in s.held
      && s' == s.(held := s.held[shard(h.digest) := h])
    case Rename(d) =>
      Holds(shard, s, Committing(d)) && s' == s.(files := s.files + {d}, held := s.held[shard(d) := Renamed(d)])
    case Record(d, r, size, now) =>
      && Holds(shard, s, Renamed(d))
      && s' == s.(store := Perform(s.store, CommitBlob(s.store, r, d, size, now)), held := s.held - {shard(d)})
    case Mount(d, r, from, now) =>
      && Holds(shard, s, Mounting(d)) && Mountable(s.store, from, d)
      && s' == s.(store := Perform(s.store, CommitBlob(s.store, r, d, SizeOf(s.store, d), now)), held := s.held - {shard(d)})
    case Retract(d, cutoff) =>
      && Holds(shard, s, Collecting(d)) && CollectBlob(s.store, d, cutoff).Some?
      && s' == s.(store := Perform(s.store, CollectBlob(s.store, d, cutoff).value), held := s.held[shard(d) := Retracted(d)])
    case Remove(d) =>
      Holds(shard, s, Retracted(d)) && s' == s.(files := s.files - {d}, held := s.held - {shard(d)})
    case Unlock(d) =>
      shard(d) in s.held && s.held[shard(d)].digest == d && s' == s.(held := s.held - {shard(d)})
    case Archive(d) => s' == s.(files := s.files + {d})
    case Elsewhere(store) => (forall k: Key :: k.B? ==> SameKey(s.store, store, k)) && s' == s.(store := store)
    case Crash => s' == s.(held := map[])
  }

  /** The metadata halves of the steps are the calls' own batches, and what is retracted may be collected. */
  lemma StepsAreCalls(shard: Digest -> nat, s: Disk, e: Event, s': Disk, name: Name)
    requires Happens(shard, s, e, s')
    ensures e.Record? ==> s'.store == Perform(s.store, PlanBlob(s.store, e.repo, Request.Commit(name, e.digest, e.size, None, e.now)).value)
    ensures e.Mount? ==> Offered(s.store, e.from, e.digest)
    ensures e.Mount? ==> s'.store == Perform(s.store, PlanBlob(s.store, e.repo, Request.Mount(name, e.from, e.digest, e.now)).value)
    ensures e.Retract? ==> Collectable(s.store, e.digest, e.cutoff) && s'.store == s.store - {B(e.digest), C(e.digest)}
  {
    if e.Mount? && e.from.Some? && IdOf(s.store, e.from.value).Some? { ServableIff(s.store, IdOf(s.store, e.from.value).value, e.digest); }
    if e.Retract? { RipeIff(s.store, e.digest, e.cutoff); }
  }

  /** Metadata never names missing bytes. */
  ghost predicate NothingMissing(s: Disk) {
    forall d: Digest :: B(d) in s.store ==> d in s.files
  }

  ghost predicate DiskInv(shard: Digest -> nat, s: Disk) {
    && NothingMissing(s)
    && (forall n :: n in s.held ==> shard(s.held[n].digest) == n)
    && (forall n :: n in s.held && s.held[n].Renamed? ==> s.held[n].digest in s.files)
    && (forall n :: n in s.held && s.held[n].Retracted? ==> B(s.held[n].digest) !in s.store)
  }

  lemma CommitWrites(s: Data, r: RepoId, d: Digest, size: nat, now: Millis)
    ensures forall x: Digest :: B(x) in Perform(s, CommitBlob(s, r, d, size, now)) <==> B(x) in s || x == d
  {}

  lemma CollectErases(s: Data, d: Digest, cutoff: nat)
    requires CollectBlob(s, d, cutoff).Some?
    ensures forall x: Digest :: B(x) in Perform(s, CollectBlob(s, d, cutoff).value) <==> B(x) in s && x != d
  {}

  lemma EventKeepsInv(shard: Digest -> nat, s: Disk, e: Event, s': Disk)
    requires DiskInv(shard, s) && Happens(shard, s, e, s')
    ensures DiskInv(shard, s')
  {
    match e {
      case Record(d, r, size, now) =>
        CommitWrites(s.store, r, d, size, now);
        forall n | n in s'.held && s'.held[n].Retracted? ensures B(s'.held[n].digest) !in s'.store {
          assert n in s.held && n != shard(d);
        }
      case Mount(d, r, from, now) =>
        CommitWrites(s.store, r, d, SizeOf(s.store, d), now);
      case Retract(d, cutoff) => CollectErases(s.store, d, cutoff);
      case Remove(d) =>
        forall n | n in s'.held && s'.held[n].Renamed? ensures s'.held[n].digest in s'.files {
          assert n in s.held && n != shard(d);
        }
      case Elsewhere(store) => forall x: Digest ensures SameKey(s.store, store, B(x)) {}
      case _ =>
    }
  }

  ghost predicate DiskRun(shard: Digest -> nat, states: seq<Disk>, events: seq<Event>) {
    && |states| == |events| + 1 && states[0] == Disk({}, map[], map[])
    && forall i :: 0 <= i < |events| ==> EventAt(shard, states, events, i)
  }

  ghost predicate EventAt(shard: Digest -> nat, states: seq<Disk>, events: seq<Event>, i: nat)
    requires |states| == |events| + 1 && i < |events|
  {
    Happens(shard, states[i], events[i], states[i + 1])
  }

  /** In every interleaving, through any crash, a record's file is on disk. */
  lemma {:induction false} RecordsHaveFiles(shard: Digest -> nat, states: seq<Disk>, events: seq<Event>, i: nat)
    requires DiskRun(shard, states, events) && i < |states|
    ensures DiskInv(shard, states[i]) && NothingMissing(states[i])
  {
    if i > 0 {
      RecordsHaveFiles(shard, states, events, i - 1);
      assert EventAt(shard, states, events, i - 1);
      EventKeepsInv(shard, states[i - 1], events[i - 1], states[i]);
    }
  }

  /**
   The lock is what does it. With a committer and a collector of one digest let in together, the
   commit that lands between the retraction and the removal loses its file.
   */
  lemma WithoutTheLock(s: Disk, d: Digest, cutoff: nat, r: RepoId, size: nat, now: Millis)
    requires NothingMissing(s) && CollectBlob(s.store, d, cutoff).Some?
    ensures var retracted := Perform(s.store, CollectBlob(s.store, d, cutoff).value);
      var committed := Perform(retracted, CommitBlob(retracted, r, d, size, now));
      && NothingMissing(Disk(s.files + {d}, committed, s.held))
      && !NothingMissing(Disk((s.files + {d}) - {d}, committed, s.held))
  {
    var retracted := Perform(s.store, CollectBlob(s.store, d, cutoff).value);
    CollectErases(s.store, d, cutoff);
    CommitWrites(retracted, r, d, size, now);
    assert B(d) in Perform(retracted, CommitBlob(retracted, r, d, size, now));
  }

  /**
   So is the order of the two steps: a collection interrupted half way leaves a stray file, and
   never a record without one.
   */
  lemma InterruptedCollectionIsInert(shard: Digest -> nat, s: Disk, d: Digest, cutoff: nat, s1: Disk, s2: Disk)
    requires DiskInv(shard, s) && Happens(shard, s, Retract(d, cutoff), s1) && Happens(shard, s1, Crash, s2)
    ensures DiskInv(shard, s2) && d in s2.files && B(d) !in s2.store
    ensures !NothingMissing(s.(files := s.files - {d}))
  {
    EventKeepsInv(shard, s, Retract(d, cutoff), s1);
    EventKeepsInv(shard, s1, Crash, s2);
    CollectErases(s.store, d, cutoff);
    assert B(d) in s.store;
  }
}
