/**
 The audit trail against the present: a tag points at a manifest exactly when the newest event of
 its history - the first key of its range - says it was created there, provided stamps increase.
 Where they do not, each mutation's exact condition.
 */
module TagHistory {
  import opened Results
  import opened Paging
  import opened Keys
  import opened KeyCodec
  import opened Store
  import opened Interner
  import opened Registry
  import opened Invariants
  import opened IndexSteps
  import opened Retractions
  import opened Requests
  import opened System
  import opened Runs

  function Events(s: Data, r: RepoId, t: Tag): set<Key> { Pool(s, HistoryOf(r, t)) }

  type Order = (Key, Key) -> bool

  /** An order of keys that puts a tag's later events first, as the stored order does. */
  ghost predicate NewestFirst(lt: Order) {
    && StrictOrder(lt)
    && forall r: RepoId, t: Tag, a: Millis, d: Digest, b: Millis, y: Digest :: b < a ==> lt(H(r, t, a, d), H(r, t, b, y))
  }

  lemma StoredOrderIsNewestFirst()
    ensures NewestFirst(Before)
  {
    KeysAreOrdered();
    forall r: RepoId, t: Tag, a: Millis, d: Digest, b: Millis, y: Digest | b < a ensures Before(H(r, t, a, d), H(r, t, b, y)) {
      HistoryOrder(H(r, t, a, d), H(r, t, b, y));
    }
  }

  ghost predicate First<K(!new)>(lt: (K, K) -> bool, pool: set<K>, k: K) {
    k in pool && forall j :: j in pool ==> j == k || lt(k, j)
  }

  /** The event a history listing shows first records this tag being pointed at `d`. */
  ghost predicate NewestCreated(lt: Order, s: Data, r: RepoId, t: Tag, d: Digest) {
    exists k :: First(lt, Events(s, r, t), k) && k.digest == d && s[k] == EventV(Created)
  }

  ghost predicate Agrees(lt: Order, s: Data, r: RepoId, t: Tag) {
    forall d: Digest :: TagAt(s, r, t) == Some(d) <==> NewestCreated(lt, s, r, t, d)
  }

  /** No event of the tag sorts ahead of one stamped `now` at `d`. */
  ghost predicate NothingNewer(lt: Order, s: Data, r: RepoId, t: Tag, now: Millis, d: Digest) {
    forall k :: k in Events(s, r, t) ==> k == H(r, t, now, d) || lt(H(r, t, now, d), k)
  }

  lemma FirstIsUnique<K(!new)>(lt: (K, K) -> bool, pool: set<K>, a: K, b: K)
    requires StrictOrder(lt) && First(lt, pool, a) && First(lt, pool, b)
    ensures a == b
  {}

  lemma FirstAfterAdding<K(!new)>(lt: (K, K) -> bool, pool: set<K>, x: K, k: K)
    requires StrictOrder(lt)
    ensures First(lt, pool + {x}, x) <==> forall j :: j in pool ==> j == x || lt(x, j)
    ensures k != x ==> (First(lt, pool + {x}, k) <==> First(lt, pool, k) && lt(k, x))
  {}

  // --- one mutation -----------------------------------------------------

  /** The tag's events after one of them is written. */
  ghost predicate EventAdded(s: Data, s': Data, r: RepoId, t: Tag, now: Millis, d: Digest, kind: EventKind) {
    && H(r, t, now, d) in s' && s'[H(r, t, now, d)] == EventV(kind)
    && (forall at: Millis, y: Digest :: !(at == now && y == d) ==> SameKey(s, s', H(r, t, at, y)))
  }

  lemma EventsAfter(s: Data, s': Data, r: RepoId, t: Tag, now: Millis, d: Digest, kind: EventKind)
    requires EventAdded(s, s', r, t, now, d, kind)
    ensures Events(s', r, t) == Events(s, r, t) + {H(r, t, now, d)}
    ensures forall k :: k in Events(s, r, t) && k != H(r, t, now, d) ==> k in s' && s'[k] == s[k]
  {
    forall k: Key ensures k in Events(s', r, t) <==> k in Events(s, r, t) + {H(r, t, now, d)} {
      if k.H? && k.repo == r && k.tag == t && k != H(r, t, now, d) { assert SameKey(s, s', H(r, t, k.at, k.digest)); }
    }
    forall k | k in Events(s, r, t) && k != H(r, t, now, d) ensures k in s' && s'[k] == s[k] {
      assert SameKey(s, s', H(r, t, k.at, k.digest));
    }
  }

  /** Which digest the newest event names, after one more event. */
  lemma NewestAfter(lt: Order, s: Data, s': Data, r: RepoId, t: Tag, now: Millis, d: Digest, kind: EventKind, y: Digest)
    requires NewestFirst(lt)
    requires EventAdded(s, s', r, t, now, d, kind) && NothingNewer(lt, s, r, t, now, d)
    ensures NewestCreated(lt, s', r, t, y) <==> kind == Created && y == d
  {
    EventsAfter(s, s', r, t, now, d, kind);
    var x, pool := H(r, t, now, d), Events(s, r, t);
    FirstAfterAdding(lt, pool, x, x);
    assert First(lt, Events(s', r, t), x);
    if NewestCreated(lt, s', r, t, y) {
      var k :| First(lt, Events(s', r, t), k) && k.digest == y && s'[k] == EventV(Created);
      FirstIsUnique(lt, Events(s', r, t), k, x);
    }
  }

  lemma NewestSurvives(lt: Order, s: Data, s': Data, r: RepoId, t: Tag, now: Millis, d: Digest, kind: EventKind, y: Digest)
    requires NewestFirst(lt)
    requires EventAdded(s, s', r, t, now, d, kind) && NewestCreated(lt, s, r, t, y) && !NothingNewer(lt, s, r, t, now, d)
    ensures NewestCreated(lt, s', r, t, y)
  {
    EventsAfter(s, s', r, t, now, d, kind);
    var x, pool := H(r, t, now, d), Events(s, r, t);
    var k :| First(lt, pool, k) && k.digest == y && s[k] == EventV(Created);
    FirstAfterAdding(lt, pool, x, k);
    assert k != x && lt(k, x) by {
      var j :| j in pool && j != x && !lt(x, j);
      assert j == k || lt(k, j);
      assert lt(j, x);
    }
  }

  /**
   Pointing a tag at `d` keeps history and state in agreement exactly when nothing newer is on
   record already, or the tag was at `d` to begin with.
   */
  lemma SettingAgrees(lt: Order, s: Data, s': Data, r: RepoId, t: Tag, now: Millis, d: Digest)
    requires NewestFirst(lt)
    requires Agrees(lt, s, r, t) && EventAdded(s, s', r, t, now, d, Created) && TagAt(s', r, t) == Some(d)
    ensures Agrees(lt, s', r, t) <==> NothingNewer(lt, s, r, t, now, d) || TagAt(s, r, t) == Some(d)
  {
    if NothingNewer(lt, s, r, t, now, d) {
      forall y: Digest ensures NewestCreated(lt, s', r, t, y) <==> y == d { NewestAfter(lt, s, s', r, t, now, d, Created, y); }
    } else {
      if TagAt(s, r, t) == Some(d) {
        NewestSurvives(lt, s, s', r, t, now, d, Created, d);
        OneNewest(lt, s', r, t, d);
      } else {
        AddedBehind(lt, s, s', r, t, now, d, d);
      }
    }
  }

  /** At most one digest is the newest. */
  lemma OneNewest(lt: Order, s: Data, r: RepoId, t: Tag, d: Digest)
    requires NewestFirst(lt)
    requires NewestCreated(lt, s, r, t, d)
    ensures forall y: Digest :: NewestCreated(lt, s, r, t, y) ==> y == d
  {
    var k :| First(lt, Events(s, r, t), k) && k.digest == d && s[k] == EventV(Created);
    forall y: Digest | NewestCreated(lt, s, r, t, y) ensures y == d {
      var j :| First(lt, Events(s, r, t), j) && j.digest == y && s[j] == EventV(Created);
      FirstIsUnique(lt, Events(s, r, t), k, j);
    }
  }

  lemma AddedBehind(lt: Order, s: Data, s': Data, r: RepoId, t: Tag, now: Millis, d: Digest, y: Digest)
    requires NewestFirst(lt)
    requires EventAdded(s, s', r, t, now, d, Created) && !NothingNewer(lt, s, r, t, now, d)
    ensures NewestCreated(lt, s', r, t, y) ==> NewestCreated(lt, s, r, t, y)
  {
    EventsAfter(s, s', r, t, now, d, Created);
    var x, pool := H(r, t, now, d), Events(s, r, t);
    FirstAfterAdding(lt, pool, x, x);
    if NewestCreated(lt, s', r, t, y) {
      var k :| First(lt, Events(s', r, t), k) && k.digest == y && s'[k] == EventV(Created);
      FirstAfterAdding(lt, pool, x, k);
      assert k != x;
    }
  }

  /** Removing a tag keeps the agreement exactly when nothing newer is on record. */
  lemma DroppingAgrees(lt: Order, s: Data, s': Data, r: RepoId, t: Tag, now: Millis, d: Digest)
    requires NewestFirst(lt)
    requires Agrees(lt, s, r, t) && TagAt(s, r, t) == Some(d)
    requires EventAdded(s, s', r, t, now, d, Deleted) && TagAt(s', r, t) == None
    ensures Agrees(lt, s', r, t) <==> NothingNewer(lt, s, r, t, now, d)
  {
    if NothingNewer(lt, s, r, t, now, d) {
      forall y: Digest ensures !NewestCreated(lt, s', r, t, y) { NewestAfter(lt, s, s', r, t, now, d, Deleted, y); }
    } else {
      NewestSurvives(lt, s, s', r, t, now, d, Deleted, d);
      assert TagAt(s', r, t) != Some(d);
    }
  }

  /** A stamp later than every event on record leaves nothing newer. */
  lemma LaterIsNewest(lt: Order, s: Data, r: RepoId, t: Tag, now: Millis, d: Digest)
    requires NewestFirst(lt)
    requires forall at: Millis, y: Digest :: H(r, t, at, y) in s ==> at < now
    ensures NothingNewer(lt, s, r, t, now, d)
  {
    forall k | k in Events(s, r, t) ensures lt(H(r, t, now, d), k) { assert k == H(r, t, k.at, k.digest); }
  }

  lemma AgreementFrame(lt: Order, s: Data, s': Data, r: RepoId, t: Tag)
    requires NewestFirst(lt)
    requires Agrees(lt, s, r, t) && SameKey(s, s', T(r, t))
    requires forall at: Millis, y: Digest :: SameKey(s, s', H(r, t, at, y))
    ensures Agrees(lt, s', r, t)
  {
    forall k: Key ensures k in Events(s', r, t) <==> k in Events(s, r, t) {
      if k.H? && k.repo == r && k.tag == t { assert SameKey(s, s', H(r, t, k.at, k.digest)); }
    }
    assert Events(s', r, t) == Events(s, r, t);
    forall k | k in Events(s, r, t) ensures s'[k] == s[k] { assert SameKey(s, s', H(r, t, k.at, k.digest)); }
  }

  /** A push against the history of one of its tags, exactly. */
  lemma PushAgreesIff(lt: Order, cfg: Config, s: Data, r: RepoId, d: Digest, tags: set<Tag>, now: Millis, t: Tag)
    requires NewestFirst(lt) && (var agrees := Agrees(lt, s, r, t); agrees) && t in tags
    ensures Agrees(lt, Perform(s, PushEffect(cfg, s, r, d, tags, now)), r, t)
       <==> NothingNewer(lt, s, r, t, now, d) || TagAt(s, r, t) == Some(d)
  {
    var s' := Perform(s, PushEffect(cfg, s, r, d, tags, now));
    PushIsPushed(cfg, s, r, d, tags, now);
    PushedMoves(cfg, s, s', r, d, tags, now);
    MovedSets(s, s', r, tags, d, now, t);
    SettingAgrees(lt, s, s', r, t, now, d);
  }

  lemma MovedSets(s: Data, s': Data, r: RepoId, tags: set<Tag>, d: Digest, now: Millis, t: Tag)
    requires (var moved := TagsMoved(s, s', r, tags, d, now); moved) && t in tags
    ensures (var added := EventAdded(s, s', r, t, now, d, Created); added) && TagAt(s', r, t) == Some(d)
  {
    forall at: Millis, y: Digest | !(at == now && y == d) ensures SameKey(s, s', H(r, t, at, y)) {}
  }

  lemma DropsOne(cfg: Config, s: Data, s': Data, r: RepoId, d: Digest, tags: set<Tag>, now: Millis, gone: bool, t: Tag)
    requires (forall k: Key :: DropEntry(cfg, s, s', r, d, tags, now, gone, k)) && t in tags
    ensures (var added := EventAdded(s, s', r, t, now, d, Deleted); added) && TagAt(s', r, t) == None
  {
    assert DropEntry(cfg, s, s', r, d, tags, now, gone, T(r, t)) && DropEntry(cfg, s, s', r, d, tags, now, gone, H(r, t, now, d));
    forall at: Millis, y: Digest | !(at == now && y == d) ensures SameKey(s, s', H(r, t, at, y)) {
      assert DropEntry(cfg, s, s', r, d, tags, now, gone, H(r, t, at, y));
    }
  }

  /** A tag delete against the tag's history, exactly. */
  lemma UntagAgreesIff(lt: Order, cfg: Config, s: Data, r: RepoId, t: Tag, now: Millis)
    requires NewestFirst(lt) && (var agrees := Agrees(lt, s, r, t); agrees) && DeleteTag(cfg, s, r, t, now).Ok?
    ensures TagAt(s, r, t).Some?
    ensures Agrees(lt, Perform(s, DeleteTag(cfg, s, r, t, now).value), r, t) <==> NothingNewer(lt, s, r, t, now, TagAt(s, r, t).value)
  {
    var s', d := Perform(s, DeleteTag(cfg, s, r, t, now).value), TagAt(s, r, t).value;
    forall k: Key ensures DropEntry(cfg, s, s', r, d, {t}, now, false, k) { DeleteTagTouches(cfg, s, r, t, d, now, k); }
    DropsOne(cfg, s, s', r, d, {t}, now, false, t);
    DroppingAgrees(lt, s, s', r, t, now, d);
  }

  /** A manifest delete against the history of each tag it takes along, exactly. */
  lemma RemoveAgreesIff(lt: Order, cfg: Config, s: Data, r: RepoId, d: Digest, now: Millis, t: Tag)
    requires NewestFirst(lt) && (var agrees := Agrees(lt, s, r, t); agrees)
    requires Inv(cfg, s) && DeleteManifest(cfg, s, r, d, now).Ok? && TagAt(s, r, t) == Some(d)
    ensures Agrees(lt, Perform(s, DeleteManifest(cfg, s, r, d, now).value), r, t) <==> NothingNewer(lt, s, r, t, now, d)
  {
    var s', tags := Perform(s, DeleteManifest(cfg, s, r, d, now).value), TagsPointingAt(s, r, d);
    forall k: Key ensures DropEntry(cfg, s, s', r, d, tags, now, true, k) { DeleteManifestTouches(cfg, s, r, d, tags, now, k); }
    TagsPointing(s, r, d, t);
    DropsOne(cfg, s, s', r, d, tags, now, true, t);
    DroppingAgrees(lt, s, s', r, t, now, d);
  }

  /** A document with nothing to validate. */
  predicate Plain(cfg: Config, d: Digest) { cfg.doc(d).blobs == [] && cfg.doc(d).children == [] }

  function Tagging(repo: Name, d: Digest, t: Tag, now: Millis): Request { PutManifest(repo, d, None, [t], now) }

  lemma PlainIsAllowed(cfg: Config, s: Data, r: RepoId, d: Digest, t: Tag)
    requires Plain(cfg, d) && ValidTag(t)
    ensures PushRefusal(cfg, s, r, d, None, [t]).None? && Elements([t]) == {t}
  {
    assert [t][1..] == [];
    assert FirstInvalidTag([t]).None?;
  }

  /** The store after a push of `d` under the one tag. */
  ghost function Tagged(cfg: Config, s: Data, d: Digest, t: Tag, now: Millis): Data {
    Perform(s, PushEffect(cfg, s, 0, d, {t}, now))
  }

  lemma PlainPushIsServed(cfg: Config, s: Data, s1: Data, repo: Name, d: Digest, t: Tag, now: Millis)
    requires Plain(cfg, d) && ValidTag(t) && Intern(s, repo) == (s1, Some(0))
    ensures Serve(cfg, s, Tagging(repo, d, t, now)) == Tagged(cfg, s1, d, t, now)
  {
    PlainIsAllowed(cfg, s1, 0, d, t);
    assert Arrive(s, Tagging(repo, d, t, now)) == (s1, Some(0));
    AllowedPushIsServed(cfg, s, Tagging(repo, d, t, now), s1, 0, {t});
  }

  lemma CallStep(cfg: Config, grace: nat, s: Sys, req: Request, after: Data)
    requires var served := Serve(cfg, s.store, req) == after; served
    ensures var next := Next(cfg, grace, s, Call(req), s.(store := after)); next
  {}

  /** After the first push the tag is at `d1`, its one event is stamped 20, and the two agree. */
  lemma FirstPush(lt: Order, cfg: Config, grace: nat, repo: Name, t: Tag, d1: Digest, now: Millis) returns (s1: Data)
    requires NewestFirst(lt) && Plain(cfg, d1) && ValidTag(t)
    ensures var next := Next(cfg, grace, Boot, Call(Tagging(repo, d1, t, now)), Sys(s1, None, None)); next
    ensures IdOf(s1, repo) == Some(0) && TagAt(s1, 0, t) == Some(d1) && H(0, t, now, d1) in s1
    ensures var agrees := Agrees(lt, s1, 0, t); agrees
  {
    FirstName(repo);
    s1 := PushUnder(lt, cfg, grace, Boot, Allocate(map[], 0, repo), repo, t, d1, now);
  }

  lemma FirstName(repo: Name)
    ensures var s0 := Allocate(map[], 0, repo); Intern(Boot.store, repo) == (s0, Some(0)) && IdOf(s0, repo) == Some(0)
    ensures forall k: Key :: k in Allocate(map[], 0, repo) ==> !k.T? && !k.H?
  {}

  lemma PushUnder(lt: Order, cfg: Config, grace: nat, s: Sys, s0: Data, repo: Name, t: Tag, d: Digest, now: Millis) returns (s1: Data)
    requires NewestFirst(lt) && Plain(cfg, d) && ValidTag(t) && Intern(s.store, repo) == (s0, Some(0))
    requires IdOf(s0, repo) == Some(0) && forall k: Key :: k in s0 ==> !k.T? && !k.H?
    ensures var next := Next(cfg, grace, s, Call(Tagging(repo, d, t, now)), s.(store := s1)); next
    ensures IdOf(s1, repo) == Some(0) && TagAt(s1, 0, t) == Some(d) && H(0, t, now, d) in s1
    ensures var agrees := Agrees(lt, s1, 0, t); agrees
  {
    PlainPushIsServed(cfg, s.store, s0, repo, d, t, now);
    FirstTagging(lt, cfg, s0, repo, t, d, now);
    s1 := Tagged(cfg, s0, d, t, now);
    CallStep(cfg, grace, s, Tagging(repo, d, t, now), s1);
  }

  lemma FirstTagging(lt: Order, cfg: Config, s0: Data, repo: Name, t: Tag, d: Digest, now: Millis)
    requires NewestFirst(lt) && IdOf(s0, repo) == Some(0) && forall k: Key :: k in s0 ==> !k.T? && !k.H?
    ensures var s1 := Tagged(cfg, s0, d, t, now);
      && IdOf(s1, repo) == Some(0) && TagAt(s1, 0, t) == Some(d) && H(0, t, now, d) in s1
      && (var agrees := Agrees(lt, s1, 0, t); agrees)
  {
    NothingTagged(lt, s0, 0, t);
    PushAgreesIff(lt, cfg, s0, 0, d, {t}, now, t);
    PushIsPushed(cfg, s0, 0, d, {t}, now);
    PushKeepsTheName(cfg, s0, Tagged(cfg, s0, d, t, now), 0, d, {t}, now, repo);
    PushedMoves(cfg, s0, Tagged(cfg, s0, d, t, now), 0, d, {t}, now);
    MovedSets(s0, Tagged(cfg, s0, d, t, now), 0, {t}, d, now, t);
  }

  lemma PushKeepsTheName(cfg: Config, s: Data, s': Data, r: RepoId, d: Digest, tags: set<Tag>, now: Millis, repo: Name)
    requires Pushed(cfg, s, s', r, d, tags, now)
    ensures IdOf(s', repo) == IdOf(s, repo)
  {
    assert SameKey(s, s', N(repo));
  }

  lemma NothingTagged(lt: Order, s: Data, r: RepoId, t: Tag)
    requires forall k: Key :: k in s ==> !k.T? && !k.H?
    ensures var agrees := Agrees(lt, s, r, t); agrees
    ensures forall now: Millis, d: Digest :: NothingNewer(lt, s, r, t, now, d)
  {
    assert Events(s, r, t) == {} && TagAt(s, r, t) == None;
  }

  lemma SecondPush(lt: Order, cfg: Config, grace: nat, s1: Data, repo: Name, t: Tag, d1: Digest, d2: Digest) returns (s2: Data)
    requires NewestFirst(lt) && Plain(cfg, d2) && ValidTag(t) && d1 != d2
    requires IdOf(s1, repo) == Some(0) && TagAt(s1, 0, t) == Some(d1) && H(0, t, 20, d1) in s1
    requires var agrees := Agrees(lt, s1, 0, t); agrees
    ensures var next := Next(cfg, grace, Sys(s1, None, None), Call(Tagging(repo, d2, t, 10)), Sys(s2, None, None)); next
    ensures var agrees := Agrees(lt, s2, 0, t); !agrees
  {
    PlainPushIsServed(cfg, s1, s1, repo, d2, t, 10);
    PushAgreesIff(lt, cfg, s1, 0, d2, {t}, 10, t);
    NewerOnRecord(lt, s1, 0, t, d1, d2);
    s2 := Tagged(cfg, s1, d2, t, 10);
    CallStep(cfg, grace, Sys(s1, None, None), Tagging(repo, d2, t, 10), s2);
  }

  lemma TwoSteps(cfg: Config, grace: nat, x: Step, a: Sys, y: Step, b: Sys)
    requires var next := Next(cfg, grace, Boot, x, a); next
    requires var next := Next(cfg, grace, a, y, b); next
    ensures var run := IsRun(cfg, grace, [Boot, a, b], [x, y]); run
  {
    var states, steps := [Boot, a, b], [x, y];
    forall i | 0 <= i < |steps| ensures StepAt(cfg, grace, states, steps, i) {}
  }

  lemma NewerOnRecord(lt: Order, s: Data, r: RepoId, t: Tag, d1: Digest, d2: Digest)
    requires NewestFirst(lt) && H(r, t, 20, d1) in s
    ensures !NothingNewer(lt, s, r, t, 10, d2)
  {
    var k := H(r, t, 20, d1);
    assert k in Events(s, r, t) && lt(k, H(r, t, 10, d2));
  }

  /**
   The server reads its clock before it waits for the repository's lock, so a push can land with
   an older stamp than the one before it: a whole run after which history keeps naming the
   manifest the tag has left.
   */
  lemma LateStampDisagrees(cfg: Config, grace: nat, repo: Name, t: Tag, d1: Digest, d2: Digest) returns (states: seq<Sys>)
    requires Plain(cfg, d1) && Plain(cfg, d2) && ValidTag(t) && d1 != d2
    ensures var run := IsRun(cfg, grace, states, [Call(Tagging(repo, d1, t, 20)), Call(Tagging(repo, d2, t, 10))]); run
    ensures |states| == 3 && (var agrees := Agrees(Before, states[1].store, 0, t); agrees)
    ensures var agrees := Agrees(Before, states[2].store, 0, t); !agrees
  {
    StoredOrderIsNewestFirst();
    var s1 := FirstPush(Before, cfg, grace, repo, t, d1, 20);
    var s2 := SecondPush(Before, cfg, grace, s1, repo, t, d1, d2);
    states := [Boot, Sys(s1, None, None), Sys(s2, None, None)];
    TwoSteps(cfg, grace, Call(Tagging(repo, d1, t, 20)), states[1], Call(Tagging(repo, d2, t, 10)), states[2]);
  }

  // --- over a run -------------------------------------------------------

  predicate PlanMutates(s: Data, req: Request, r: RepoId, t: Tag) {
    match req
    case PutManifest(_, _, _, tags, _) => t in tags
    case Retag(_, u, _, _) => u == t
    case Untag(_, u, _) => u == t
    case RemoveManifest(_, d, _) => TagAt(s, r, t) == Some(d)
    case PurgeManifest(_, d, _, _) => TagAt(s, r, t) == Some(d)
    case _ => false
  }

  /** The call sets or drops this tag, and applies. */
  ghost predicate Mutates(cfg: Config, s: Data, req: Request, r: RepoId, t: Tag) {
    && Batch(cfg, s, req).Some? && Arrive(s, req).1 == Some(r)
    && PlanMutates(Arrive(s, req).0, req, r, t)
  }

  predicate Stamped(req: Request) {
    req.PutManifest? || req.Retag? || req.Untag? || req.RemoveManifest? || req.PurgeManifest?
  }

  /** The call's stamp is later than every event the tag has. */
  ghost predicate Fresher(s: Data, req: Request, r: RepoId, t: Tag) {
    Stamped(req) ==> forall at: Millis, y: Digest :: H(r, t, at, y) in s ==> at < req.now
  }

  ghost predicate TagUntouched(s: Data, s': Data, r: RepoId, t: Tag) {
    SameKey(s, s', T(r, t)) && forall at: Millis, y: Digest :: SameKey(s, s', H(r, t, at, y))
  }

  lemma MovedAgrees(lt: Order, s: Data, s': Data, r: RepoId, tags: set<Tag>, d: Digest, now: Millis, x: RepoId, t: Tag)
    requires NewestFirst(lt)
    requires (var moved := TagsMoved(s, s', r, tags, d, now); moved) && (var agrees := Agrees(lt, s, x, t); agrees)
    requires x == r && t in tags ==> (var newest := NothingNewer(lt, s, r, t, now, d); newest)
    ensures var agrees := Agrees(lt, s', x, t); agrees
  {
    if x == r && t in tags {
      assert forall at: Millis, y: Digest :: !(at == now && y == d) ==> SameKey(s, s', H(r, t, at, y));
      SettingAgrees(lt, s, s', r, t, now, d);
    } else {
      AgreementFrame(lt, s, s', x, t);
    }
  }

  lemma DropAgrees(lt: Order, cfg: Config, s: Data, s': Data, r: RepoId, d: Digest, tags: set<Tag>, now: Millis, gone: bool, x: RepoId, t: Tag)
    requires NewestFirst(lt)
    requires Dropped(cfg, s, s', r, d, tags, now, gone) && Agrees(lt, s, x, t)
    requires x == r && t in tags ==> NothingNewer(lt, s, r, t, now, d)
    ensures Agrees(lt, s', x, t)
  {
    assert DropEntry(cfg, s, s', r, d, tags, now, gone, T(x, t));
    forall at: Millis, y: Digest
      ensures !(x == r && t in tags && at == now && y == d) ==> SameKey(s, s', H(x, t, at, y))
      ensures x == r && t in tags && at == now && y == d ==> H(x, t, at, y) in s' && s'[H(x, t, at, y)] == EventV(Deleted)
    { assert DropEntry(cfg, s, s', r, d, tags, now, gone, H(x, t, at, y)); }
    if x == r && t in tags {
      assert H(r, t, now, d) in s' && s'[H(r, t, now, d)] == EventV(Deleted);
      DroppingAgrees(lt, s, s', r, t, now, d);
    } else {
      AgreementFrame(lt, s, s', x, t);
    }
  }

  ghost predicate PlanAgrees(lt: Order, cfg: Config, s: Data, r: RepoId, req: Request, x: RepoId, t: Tag)
    requires Plan(cfg, s, r, req).Some?
  {
    Agrees(lt, Perform(s, Plan(cfg, s, r, req).value), x, t)
  }

  ghost predicate Ready(lt: Order, s: Data, r: RepoId, req: Request, x: RepoId, t: Tag) {
    && Agrees(lt, s, x, t)
    && (x == r && PlanMutates(s, req, r, t) ==> Fresher(s, req, r, t))
  }

  lemma PushedMoves(cfg: Config, s: Data, s': Data, r: RepoId, d: Digest, tags: set<Tag>, now: Millis)
    requires var pushed := Pushed(cfg, s, s', r, d, tags, now); pushed
    ensures var moved := TagsMoved(s, s', r, tags, d, now); moved
  {}

  lemma PushIsNewest(lt: Order, cfg: Config, s: Data, r: RepoId, req: Request, x: RepoId, t: Tag)
    requires NewestFirst(lt)
    requires req.PutManifest? && (var ready := Ready(lt, s, r, req, x, t); ready)
    ensures var agrees := Agrees(lt, s, x, t); agrees
    ensures x == r && t in Elements(req.tags) ==> (var newest := NothingNewer(lt, s, r, t, req.now, req.digest); newest)
  {
    if x == r && t in Elements(req.tags) { LaterIsNewest(lt, s, r, t, req.now, req.digest); }
  }

  lemma PushAgrees(lt: Order, cfg: Config, s: Data, r: RepoId, req: Request, x: RepoId, t: Tag)
    requires NewestFirst(lt)
    requires req.PutManifest? && Plan(cfg, s, r, req).Some? && (var ready := Ready(lt, s, r, req, x, t); ready)
    ensures var agrees := PlanAgrees(lt, cfg, s, r, req, x, t); agrees
  {
    PushIsNewest(lt, cfg, s, r, req, x, t);
    PushPlanIsPushed(cfg, s, r, req);
    PushedMoves(cfg, s, Perform(s, Plan(cfg, s, r, req).value), r, req.digest, Elements(req.tags), req.now);
    MovedAgrees(lt, s, Perform(s, Plan(cfg, s, r, req).value), r, Elements(req.tags), req.digest, req.now, x, t);
  }

  lemma RetagAgrees(lt: Order, cfg: Config, s: Data, r: RepoId, req: Request, x: RepoId, t: Tag)
    requires NewestFirst(lt)
    requires Inv(cfg, s) && Plan(cfg, s, r, req).Some?
    requires req.Retag? && (var ready := Ready(lt, s, r, req, x, t); ready)
    ensures var agrees := PlanAgrees(lt, cfg, s, r, req, x, t); agrees
  {
    var s' := Perform(s, Plan(cfg, s, r, req).value);
    forall k: Key ensures RetagEntry(cfg, s, s', r, req.tag, req.digest, req.now, k) {
      RetagTouches(cfg, s, r, req.tag, req.digest, req.now, k);
    }
    RetagMoves(cfg, s, s', r, req.tag, req.digest, req.now);
    if x == r && t == req.tag { LaterIsNewest(lt, s, r, t, req.now, req.digest); }
    MovedAgrees(lt, s, s', r, {req.tag}, req.digest, req.now, x, t);
  }

  lemma UntagAgrees(lt: Order, cfg: Config, s: Data, r: RepoId, req: Request, x: RepoId, t: Tag)
    requires NewestFirst(lt)
    requires Inv(cfg, s) && Plan(cfg, s, r, req).Some?
    requires req.Untag? && (var ready := Ready(lt, s, r, req, x, t); ready)
    ensures var agrees := PlanAgrees(lt, cfg, s, r, req, x, t); agrees
  {
    var s' := Perform(s, Plan(cfg, s, r, req).value);
    var d := TagAt(s, r, req.tag).value;
    forall k: Key ensures DropEntry(cfg, s, s', r, d, {req.tag}, req.now, false, k) {
      DeleteTagTouches(cfg, s, r, req.tag, d, req.now, k);
    }
    if x == r && t == req.tag { LaterIsNewest(lt, s, r, t, req.now, d); }
    DropAgrees(lt, cfg, s, s', r, d, {req.tag}, req.now, false, x, t);
  }

  lemma RemoveAgrees(lt: Order, cfg: Config, s: Data, r: RepoId, req: Request, x: RepoId, t: Tag)
    requires NewestFirst(lt)
    requires Inv(cfg, s) && Plan(cfg, s, r, req).Some?
    requires (req.RemoveManifest? || req.PurgeManifest?) && (var ready := Ready(lt, s, r, req, x, t); ready)
    ensures var agrees := PlanAgrees(lt, cfg, s, r, req, x, t); agrees
  {
    var s' := Perform(s, Plan(cfg, s, r, req).value);
    var d, now, tags := req.digest, req.now, TagsPointingAt(s, r, req.digest);
    forall k: Key ensures DropEntry(cfg, s, s', r, d, tags, now, true, k) {
      DeleteManifestTouches(cfg, s, r, d, tags, now, k);
    }
    forall u: Tag ensures u in tags <==> TagAt(s, r, u) == Some(d) { TagsPointing(s, r, d, u); }
    if x == r && t in tags { LaterIsNewest(lt, s, r, t, now, d); }
    DropAgrees(lt, cfg, s, s', r, d, tags, now, true, x, t);
  }

  lemma ElsewhereAgrees(lt: Order, cfg: Config, s: Data, r: RepoId, req: Request, x: RepoId, t: Tag)
    requires NewestFirst(lt)
    requires Inv(cfg, s) && Plan(cfg, s, r, req).Some?
    requires !Stamped(req) && (var ready := Ready(lt, s, r, req, x, t); ready)
    ensures var agrees := PlanAgrees(lt, cfg, s, r, req, x, t); agrees
  {
    ElsewhereKeys(cfg, s, r, req);
    AgreementFrame(lt, s, Perform(s, Plan(cfg, s, r, req).value), x, t);
  }

  lemma ElsewhereKeys(cfg: Config, s: Data, r: RepoId, req: Request)
    requires !Stamped(req) && Plan(cfg, s, r, req).Some?
    ensures forall k: Key :: k.T? || k.H? ==> SameKey(s, Perform(s, Plan(cfg, s, r, req).value), k)
  {
    var e := Plan(cfg, s, r, req).value;
    assert forall k :: k in e.dels || k in e.puts ==> !k.T? && !k.H?;
    forall k: Key | k.T? || k.H? ensures SameKey(s, Perform(s, e), k) { PerformAt(s, e, k); }
  }

  lemma PlanKeepsAgreement(lt: Order, cfg: Config, s: Data, r: RepoId, req: Request, x: RepoId, t: Tag)
    requires NewestFirst(lt)
    requires Inv(cfg, s) && Plan(cfg, s, r, req).Some?
    requires var ready := Ready(lt, s, r, req, x, t); ready
    ensures var agrees := PlanAgrees(lt, cfg, s, r, req, x, t); agrees
  {
    if req.PutManifest? { PushAgrees(lt, cfg, s, r, req, x, t); }
    else if req.Retag? { RetagAgrees(lt, cfg, s, r, req, x, t); }
    else if req.Untag? { UntagAgrees(lt, cfg, s, r, req, x, t); }
    else if req.RemoveManifest? || req.PurgeManifest? { RemoveAgrees(lt, cfg, s, r, req, x, t); }
    else { ElsewhereAgrees(lt, cfg, s, r, req, x, t); }
  }

  lemma ArriveLeavesTags(s: Data, req: Request, x: RepoId, t: Tag)
    ensures TagUntouched(s, Arrive(s, req).0, x, t)
  {}

  lemma FresherFrame(s: Data, s1: Data, req: Request, x: RepoId, t: Tag)
    requires TagUntouched(s, s1, x, t) && Fresher(s, req, x, t)
    ensures Fresher(s1, req, x, t)
  {
    forall at: Millis, y: Digest ensures SameKey(s, s1, H(x, t, at, y)) {}
  }

  lemma ServeKeepsAgreement(lt: Order, cfg: Config, s: Data, req: Request, x: RepoId, t: Tag)
    requires NewestFirst(lt)
    requires Inv(cfg, s) && Agrees(lt, s, x, t)
    requires Mutates(cfg, s, req, x, t) ==> Fresher(s, req, x, t)
    ensures Agrees(lt, Serve(cfg, s, req), x, t)
  {
    ArriveKeepsInv(cfg, s, req);
    ArriveLeavesTags(s, req, x, t);
    AgreementFrame(lt, s, Arrive(s, req).0, x, t);
    if Batch(cfg, s, req).Some? {
      if Fresher(s, req, x, t) { FresherFrame(s, Arrive(s, req).0, req, x, t); }
      PlanKeepsAgreement(lt, cfg, Arrive(s, req).0, Arrive(s, req).1.value, req, x, t);
    }
  }

  lemma FinishForgets(lt: Order, s: Data, r: RepoId, t: Tag)
    requires NewestFirst(lt)
    ensures Agrees(lt, FinishSweep(s, r), r, t)
  {
    assert Events(FinishSweep(s, r), r, t) == {} && TagAt(FinishSweep(s, r), r, t) == None;
  }

  lemma UpkeepKeepsAgreement(lt: Order, cfg: Config, grace: nat, s: Sys, step: Step, s': Sys, r: RepoId, t: Tag)
    requires NewestFirst(lt)
    requires Next(cfg, grace, s, step, s') && Agrees(lt, s.store, r, t)
    requires !step.Call? && !(step.FinishRepo? && s.sweep.Some? && r == s.sweep.value.id)
    ensures Agrees(lt, s'.store, r, t)
  {
    UpkeepLeavesTags(cfg, grace, s, step, s');
    AgreementFrame(lt, s.store, s'.store, r, t);
  }

  lemma StepKeepsAgreement(lt: Order, cfg: Config, grace: nat, s: Sys, step: Step, s': Sys, r: RepoId, t: Tag)
    requires NewestFirst(lt)
    requires SysInv(cfg, s) && Next(cfg, grace, s, step, s') && Agrees(lt, s.store, r, t)
    requires Orderly(cfg, s.store, step, r, t)
    ensures Agrees(lt, s'.store, r, t)
  {
    if step.Call? {
      ServeKeepsAgreement(lt, cfg, s.store, step.req, r, t);
    } else if step.FinishRepo? && s.sweep.Some? && r == s.sweep.value.id {
      FinishForgets(lt, s.store, r, t);
    } else {
      UpkeepKeepsAgreement(lt, cfg, grace, s, step, s', r, t);
    }
  }

  lemma UpkeepLeavesTags(cfg: Config, grace: nat, s: Sys, step: Step, s': Sys)
    requires Next(cfg, grace, s, step, s') && !step.Call?
    ensures forall k: Key :: (k.T? || k.H?) && !(step.FinishRepo? && s.sweep.Some? && k.repo == s.sweep.value.id) ==> SameKey(s.store, s'.store, k)
  {}

  /** Every applied mutation of the tag carries a later stamp than all its events so far. */
  ghost predicate StampsIncrease(cfg: Config, states: seq<Sys>, steps: seq<Step>, r: RepoId, t: Tag)
    requires |states| == |steps| + 1
  {
    forall i :: 0 <= i < |steps| ==> OrderlyAt(cfg, states, steps, i, r, t)
  }

  ghost predicate OrderlyAt(cfg: Config, states: seq<Sys>, steps: seq<Step>, i: nat, r: RepoId, t: Tag)
    requires |states| == |steps| + 1 && i < |steps|
  {
    Orderly(cfg, states[i].store, steps[i], r, t)
  }

  ghost predicate Orderly(cfg: Config, s: Data, step: Step, r: RepoId, t: Tag) {
    step.Call? && Mutates(cfg, s, step.req, r, t) ==> Fresher(s, step.req, r, t)
  }

  lemma NothingAgrees(lt: Order, r: RepoId, t: Tag)
    ensures Agrees(lt, map[], r, t)
  {}

  lemma AgreementAt(lt: Order, cfg: Config, grace: nat, states: seq<Sys>, steps: seq<Step>, i: nat, r: RepoId, t: Tag)
    requires NewestFirst(lt)
    requires IsRun(cfg, grace, states, steps) && i < |steps| && StampsIncrease(cfg, states, steps, r, t)
    requires var agrees := Agrees(lt, states[i].store, r, t); agrees
    ensures var agrees := Agrees(lt, states[i + 1].store, r, t); agrees
  {
    ReachableInv(cfg, grace, states, steps, i);
    assert StepAt(cfg, grace, states, steps, i);
    assert OrderlyAt(cfg, states, steps, i, r, t);
    StepKeepsAgreement(lt, cfg, grace, states[i], steps[i], states[i + 1], r, t);
  }

  lemma {:induction false} HistoryAgreesBy(lt: Order, cfg: Config, grace: nat, states: seq<Sys>, steps: seq<Step>, i: nat, r: RepoId, t: Tag)
    requires NewestFirst(lt)
    requires IsRun(cfg, grace, states, steps) && i < |states| && StampsIncrease(cfg, states, steps, r, t)
    ensures var agrees := Agrees(lt, states[i].store, r, t); agrees
  {
    if i == 0 {
      NothingAgrees(lt, r, t);
    } else {
      HistoryAgreesBy(lt, cfg, grace, states, steps, i - 1, r, t);
      AgreementAt(lt, cfg, grace, states, steps, i - 1, r, t);
    }
  }

  /** History agrees with state: the tag is where its newest stored event says it was created. */
  lemma HistoryAgreesWithState(cfg: Config, grace: nat, states: seq<Sys>, steps: seq<Step>, i: nat, r: RepoId, t: Tag)
    requires IsRun(cfg, grace, states, steps) && i < |states| && StampsIncrease(cfg, states, steps, r, t)
    ensures Agrees(Before, states[i].store, r, t)
  {
    StoredOrderIsNewestFirst();
    HistoryAgreesBy(Before, cfg, grace, states, steps, i, r, t);
  }
}
