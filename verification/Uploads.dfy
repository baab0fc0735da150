/**
 Resumable uploads: a staging file, an offset and a running hash, saved together in a session
 record after the bytes they describe. Writes may be short, interrupted or fail, bodies may break
 off, and the process may die before the record is saved.
 */
module Uploads {
  import opened Bytes
  import opened Results
  import opened Keys

  datatype Algorithm = Sha2With256 | Sha2With512

  function AlgorithmOf(d: Digest): Algorithm { if d.Sha256? then Sha2With256 else Sha2With512 }

  /** A running hash is the algorithm and what it has been fed; saving and restoring is exact. */
  datatype Hasher = Hasher(algorithm: Algorithm, absorbed: bytes)

  type Hash = (Algorithm, bytes) -> Digest

  datatype Session = Session(algorithm: Algorithm, offset: nat, state: Option<Hasher>)

  datatype Fault = Short(count: nat) | Interrupted | Failed

  datatype Failure =
    | UploadUnknown | OffsetMismatch(current: nat) | BodyTooLarge | BodyIncomplete | SizeMismatch
    | DigestMismatch | Storage | Died

  // --- writing ----------------------------------------------------------

  /** A file with `buf` laid over it at an offset within it. */
  function Overwrite(file: bytes, at: nat, buf: bytes): (r: bytes)
    requires at <= |file|
    ensures |r| >= at + |buf| && r[..at] == file[..at] && r[at..at + |buf|] == buf
  {
    file[..at] + buf + (if at + |buf| < |file| then file[at + |buf|..] else [])
  }

  lemma OverwriteTwice(file: bytes, at: nat, a: bytes, b: bytes)
    requires at <= |file|
    ensures Overwrite(Overwrite(file, at, a), at + |a|, b) == Overwrite(file, at, a + b)
  {
    var once := Overwrite(file, at, a);
    assert once[..at + |a|] == file[..at] + a;
    assert file[..at] + a + b == file[..at] + (a + b);
    if at + |a| + |b| < |once| { assert once[at + |a| + |b|..] == file[at + |a| + |b|..]; }
  }

  lemma WriteMore(file: bytes, offset: nat, chunk: bytes, written: nat, count: nat)
    requires offset <= |file| && written + count <= |chunk|
    ensures var out, buf := Overwrite(file, offset, chunk[..written]), chunk[written..];
      && Overwrite(out, offset + written, buf[..count]) == Overwrite(file, offset, chunk[..written + count])
      && buf[count..] == chunk[written + count..]
  {
    var buf := chunk[written..];
    OverwriteTwice(file, offset, chunk[..written], buf[..count]);
    assert chunk[..written] + buf[..count] == chunk[..written + count];
  }

  /** `pwrite` until the chunk is down: short writes go on, interrupts retry, zero is an error. */
  method WriteAllAt(file: bytes, offset: nat, chunk: bytes, faults: seq<Fault>) returns (out: bytes, ok: bool, ghost written: nat)
    requires offset <= |file|
    ensures written <= |chunk| && out == Overwrite(file, offset, chunk[..written])
    ensures ok ==> written == |chunk| && out == Overwrite(file, offset, chunk)
    ensures faults == [] ==> ok
  {
    out, written := file, 0;
    var at, buf, i := offset, chunk, 0;
    assert Overwrite(file, offset, chunk[..0]) == file;
    while buf != []
      invariant written <= |chunk| && at == offset + written && buf == chunk[written..]
      invariant out == Overwrite(file, offset, chunk[..written]) && 0 <= i <= |faults|
      decreases |buf|, |faults| - i
    {
      var count := |buf|;
      if i < |faults| {
        var fault := faults[i];
        i := i + 1;
        match fault {
          case Failed => return out, false, written;
          case Interrupted => continue;
          case Short(n) => if n < |buf| { count := n; }
        }
      }
      if count == 0 { return out, false, written; }
      WriteMore(file, offset, chunk, written, count);
      out := Overwrite(out, at, buf[..count]);
      buf, at, written := buf[count..], at + count, written + count;
    }
    assert chunk[..|chunk|] == chunk;
    ok := true;
  }

  /** Feed the first `len` staged bytes to a fresh hasher, a buffer at a time. */
  method Rehash(file: bytes, len: nat, algorithm: Algorithm, chunkSize: nat) returns (hasher: Hasher)
    requires len <= |file|
    ensures hasher == Hasher(algorithm, file[..len])
  {
    hasher := Hasher(algorithm, []);
    var size := if chunkSize == 0 then 1 else chunkSize;
    var at := 0;
    while at < len
      invariant 0 <= at <= len && hasher == Hasher(algorithm, file[..at])
    {
      var want := if size <= len - at then size else len - at;
      assert file[..at] + file[at..at + want] == file[..at + want];
      hasher := hasher.(absorbed := hasher.absorbed + file[at..at + want]);
      at := at + want;
    }
  }

  /** An open upload: append-only, hashed on the way in. */
  class Upload {
    var algorithm: Algorithm
    var offset: nat
    var hasher: Hasher
    var file: bytes

    /** The hash is always that of the first `offset` bytes on disk. */
    ghost predicate Valid()
      reads this
    {
      offset <= |file| && hasher == Hasher(algorithm, file[..offset])
    }

    constructor (a: Algorithm, at: nat, h: Hasher, contents: bytes)
      requires at <= |contents| && h == Hasher(a, contents[..at])
      ensures Valid() && algorithm == a && offset == at && file == contents
    {
      algorithm, offset, hasher, file := a, at, h, contents;
    }

    /** Append at the claimed offset, or change nothing anyone will ever read. */
    method Append(claimed: nat, chunk: bytes, faults: seq<Fault>) returns (ok: bool)
      requires Valid()
      modifies this
      ensures Valid() && algorithm == old(algorithm)
      ensures ok ==> claimed == old(offset) && offset == old(offset) + |chunk| && file[..offset] == old(file[..offset]) + chunk
      ensures !ok ==> offset == old(offset) && file[..offset] == old(file[..offset])
      ensures claimed != old(offset) ==> !ok && file == old(file)
      ensures claimed == old(offset) && faults == [] ==> ok
      ensures ok && old(offset) == old(|file|) ==> offset == |file|
    {
      if claimed != offset { return false; }
      if chunk == [] { assert file[..offset] + [] == file[..offset]; return true; }
      ghost var written;
      ghost var was := file;
      var out;
      out, ok, written := WriteAllAt(file, offset, chunk, faults);
      file := out;
      assert file[..offset] == was[..offset];
      if ok {
        assert file[..offset + |chunk|] == was[..offset] + chunk;
        hasher := hasher.(absorbed := hasher.absorbed + chunk);
        offset := offset + |chunk|;
      }
    }

    /** Re-derive the hash under another algorithm; a failed read leaves the old one. */
    method RehashAs(a: Algorithm, chunkSize: nat, readable: bool) returns (ok: bool)
      requires Valid()
      modifies this
      ensures Valid() && file == old(file) && offset == old(offset)
      ensures ok <==> readable || a == old(algorithm)
      ensures algorithm == if ok then a else old(algorithm)
    {
      if a == algorithm { return true; }
      if !readable { return false; }
      hasher := Rehash(file, offset, a, chunkSize);
      algorithm := a;
      ok := true;
    }
  }

  // --- bodies -----------------------------------------------------------

  datatype Frame = Chunk(data: bytes, faults: seq<Fault>) | Broken

  datatype Body = Body(frames: seq<Frame>, declared: Option<nat>, limit: Option<nat>)

  /** The bytes a body carries when none of it breaks off. */
  function Payload(frames: seq<Frame>): bytes {
    if frames == [] then [] else Payload(frames[..|frames| - 1]) + (match frames[|frames| - 1] case Chunk(data, _) => data case Broken => [])
  }

  lemma PayloadSnoc(frames: seq<Frame>, i: nat)
    requires i < |frames|
    ensures Payload(frames[..i + 1]) == Payload(frames[..i]) + (match frames[i] case Chunk(data, _) => data case Broken => [])
  {
    assert frames[..i + 1][..i] == frames[..i];
  }

  predicate Unbroken(frames: seq<Frame>) { forall i :: 0 <= i < |frames| ==> frames[i].Chunk? }

  predicate Within(n: nat, limit: Option<nat>) { limit.Some? ==> n <= limit.value }

  /** The body came through to its end, at the length it declared, inside its limit. */
  predicate CameWhole(body: Body) {
    && Unbroken(body.frames)
    && (body.declared.Some? ==> body.declared.value == |Payload(body.frames)|)
    && Within(|Payload(body.frames)|, body.limit)
  }

  /** And nothing failed on the way. */
  ghost predicate Arrives(body: Body) {
    CameWhole(body) && forall f :: f in body.frames ==> f.Chunk? && f.faults == []
  }

  predicate Overdeclared(body: Body) { body.declared.Some? && !Within(body.declared.value, body.limit) }

  /** What was wrong with a body that was refused: one thing only, storage apart. */
  ghost predicate Blamed(body: Body, e: Failure) {
    match e
    case BodyTooLarge =>
      Overdeclared(body) || exists i :: 0 <= i <= |body.frames| && Unbroken(body.frames[..i]) && !Within(|Payload(body.frames[..i])|, body.limit)
    case BodyIncomplete =>
      && !Overdeclared(body)
      && exists i :: 0 <= i < |body.frames| && body.frames[i].Broken? && Unbroken(body.frames[..i]) && Within(|Payload(body.frames[..i])|, body.limit)
    case SizeMismatch =>
      && !Overdeclared(body) && Unbroken(body.frames) && Within(|Payload(body.frames)|, body.limit)
      && body.declared.Some? && body.declared.value != |Payload(body.frames)|
    case Storage => exists f :: f in body.frames && f.Chunk? && f.faults != []
    case _ => false
  }

  lemma {:induction false} PayloadGrows(frames: seq<Frame>, i: nat)
    requires i <= |frames|
    ensures |Payload(frames[..i])| <= |Payload(frames)|
    decreases |frames| - i
  {
    if i == |frames| { assert frames[..i] == frames; } else { PayloadSnoc(frames, i); PayloadGrows(frames, i + 1); }
  }

  /** The upload holds `before` and then `payload`, hashed; nothing past it if nothing was past `before`. */
  ghost predicate Holding(upload: Upload, before: bytes, payload: bytes, tight: bool)
    reads upload
  {
    && upload.Valid()
    && upload.offset == |before| + |payload|
    && upload.file[..upload.offset] == before + payload
    && (tight ==> upload.offset == |upload.file|)
  }

  lemma StillThere(file: bytes, offset: nat, before: bytes, payload: bytes)
    requires offset <= |file| && offset == |before| + |payload| && file[..offset] == before + payload
    ensures file[..|before|] == before
  {
    assert file[..offset][..|before|] == file[..|before|] && (before + payload)[..|before|] == before;
  }

  /** Land one frame where the last one ended. */
  method TakeFrame(upload: Upload, frame: Frame, ghost before: bytes, ghost payload: bytes, ghost tight: bool) returns (ok: bool)
    requires Holding(upload, before, payload, tight) && frame.Chunk?
    modifies upload
    ensures upload.Valid() && upload.algorithm == old(upload.algorithm) && |before| <= upload.offset && upload.file[..|before|] == before
    ensures ok ==> Holding(upload, before, payload + frame.data, tight)
    ensures frame.faults == [] ==> ok
  {
    ok := upload.Append(upload.offset, frame.data, frame.faults);
    assert before + payload + frame.data == before + (payload + frame.data);
    StillThere(upload.file, upload.offset, before, if ok then payload + frame.data else payload);
  }

  /** Nothing wrong with the first `i` frames. */
  predicate FineSoFar(body: Body, i: nat)
    requires i <= |body.frames|
  {
    !Overdeclared(body) && Unbroken(body.frames[..i]) && Within(|Payload(body.frames[..i])|, body.limit)
  }

  lemma FineNext(body: Body, i: nat)
    requires i < |body.frames| && FineSoFar(body, i)
    ensures body.frames[i].Broken? ==> (var blamed := Blamed(body, BodyIncomplete); blamed)
    ensures body.frames[i].Chunk? ==> Unbroken(body.frames[..i + 1]) && |Payload(body.frames[..i + 1])| == |Payload(body.frames[..i])| + |body.frames[i].data|
    ensures body.frames[i].Chunk? && !Within(|Payload(body.frames[..i + 1])|, body.limit) ==> (var blamed := Blamed(body, BodyTooLarge); blamed)
    ensures body.frames[i].Chunk? && body.frames[i].faults != [] ==> (var blamed := Blamed(body, Storage); blamed)
  {
    PayloadSnoc(body.frames, i);
    assert body.frames[..i + 1] == body.frames[..i] + [body.frames[i]];
    assert body.frames[i] in body.frames;
  }

  lemma FineToTheEnd(body: Body)
    requires FineSoFar(body, |body.frames|)
    ensures if body.declared.Some? && body.declared.value != |Payload(body.frames)|
      then (var blamed := Blamed(body, SizeMismatch); blamed) else CameWhole(body)
  {
    assert body.frames[..|body.frames|] == body.frames;
  }

  lemma FineArrival(body: Body, i: nat)
    requires i < |body.frames|
    ensures (var arrives := Arrives(body); arrives) ==>
      body.frames[i].Chunk? && body.frames[i].faults == [] && Within(|Payload(body.frames[..i + 1])|, body.limit)
  {
    assert body.frames[i] in body.frames;
    PayloadGrows(body.frames, i + 1);
  }

  /** The first `i` frames have landed behind `before`, with nothing wrong so far. */
  ghost predicate Drained(upload: Upload, body: Body, i: nat, written: nat, before: bytes, tight: bool)
    requires i <= |body.frames|
    reads upload
  {
    Holding(upload, before, Payload(body.frames[..i]), tight) && written == |Payload(body.frames[..i])| && FineSoFar(body, i)
  }

  /** Whatever becomes of the body, what was there before it is intact. */
  ghost predicate Intact(upload: Upload, before: bytes)
    reads upload
  {
    upload.Valid() && |before| <= upload.offset && upload.file[..|before|] == before
  }

  /** One frame of a body. */
  method DrainFrame(upload: Upload, body: Body, i: nat, written: nat, ghost before: bytes, ghost tight: bool) returns (failed: Option<Failure>, more: nat)
    requires i < |body.frames| && (var drained := Drained(upload, body, i, written, before, tight); drained)
    modifies upload
    ensures upload.algorithm == old(upload.algorithm) && (var intact := Intact(upload, before); intact)
    ensures failed.None? ==> (var drained := Drained(upload, body, i + 1, more, before, tight); drained)
    ensures failed.Some? ==> (var blamed := Blamed(body, failed.value); blamed)
    ensures (var arrives := Arrives(body); arrives) ==> failed.None?
  {
    PayloadSnoc(body.frames, i);
    FineNext(body, i);
    FineArrival(body, i);
    StillThere(upload.file, upload.offset, before, Payload(body.frames[..i]));
    var frame := body.frames[i];
    more := written;
    if frame.Broken? { return Some(BodyIncomplete), more; }
    if frame.data != [] {
      more := written + |frame.data|;
      if body.limit.Some? && more > body.limit.value { return Some(BodyTooLarge), more; }
      var ok := TakeFrame(upload, frame, before, Payload(body.frames[..i]), tight);
      if !ok { return Some(Storage), more; }
    } else {
      assert Payload(body.frames[..i]) + [] == Payload(body.frames[..i]);
    }
    failed := None;
  }

  lemma DrainedAll(upload: Upload, body: Body, written: nat, before: bytes, tight: bool)
    requires Drained(upload, body, |body.frames|, written, before, tight)
    ensures Holding(upload, before, Payload(body.frames), tight) && written == |Payload(body.frames)|
    ensures var intact := Intact(upload, before); intact
  {
    assert body.frames[..|body.frames|] == body.frames;
    StillThere(upload.file, upload.offset, before, Payload(body.frames));
  }

  /** Drain a body into an upload, frame by frame. */
  method DrainInto(upload: Upload, body: Body) returns (failed: Option<Failure>)
    requires upload.Valid()
    modifies upload
    ensures upload.Valid() && upload.algorithm == old(upload.algorithm) && old(upload.offset) <= upload.offset
    ensures upload.file[..old(upload.offset)] == old(upload.file[..upload.offset])
    ensures failed.None? ==> Holding(upload, old(upload.file[..upload.offset]), Payload(body.frames), old(upload.offset == |upload.file|))
    ensures failed.None? ==> CameWhole(body)
    ensures failed.Some? ==> (var blamed := Blamed(body, failed.value); blamed)
    ensures (var arrives := Arrives(body); arrives) ==> failed.None?
  {
    ghost var before, tight := upload.file[..upload.offset], upload.offset == |upload.file|;
    if body.declared.Some? && body.limit.Some? && body.declared.value > body.limit.value { return Some(BodyTooLarge); }
    var written, i := 0, 0;
    assert before + [] == before && body.frames[..0] == [];
    while i < |body.frames|
      invariant 0 <= i <= |body.frames| && upload.algorithm == old(upload.algorithm)
      invariant var drained := Drained(upload, body, i, written, before, tight); drained
    {
      var bad;
      bad, written := DrainFrame(upload, body, i, written, before, tight);
      if bad.Some? { return bad; }
      i := i + 1;
    }
    DrainedAll(upload, body, written, before, tight);
    FineToTheEnd(body);
    if body.declared.Some? && body.declared.value != written { return Some(SizeMismatch); }
    failed := None;
  }

  // --- the session ------------------------------------------------------

  datatype Death = Survives | BeforeCommit | AfterRename

  /** One upload session on one server: staged bytes, the saved record, and the published blobs. */
  class UploadServer {
    const hash: Hash
    var staging: Option<bytes>
    var session: Option<Session>
    var blobs: map<Digest, bytes>
    ghost var accepted: bytes

    ghost predicate Valid()
      reads this
    {
      && (forall d :: d in blobs ==> hash(AlgorithmOf(d), blobs[d]) == d)
      && (session.Some? ==> Saved(session.value, accepted))
      && (session.Some? && staging.Some? ==> |accepted| <= |staging.value| && staging.value[..|accepted|] == accepted)
    }

    constructor (h: Hash)
      ensures Valid() && hash == h && session.None? && staging.None? && blobs == map[]
    {
      hash, staging, session, blobs, accepted := h, None, None, map[], [];
    }

    /** Staging file first, record second. */
    method CreateUpload(algorithm: Algorithm, dies: bool) returns (r: Result<(), Failure>)
      requires Valid() && session.None?
      modifies this
      ensures Valid() && blobs == old(blobs)
      ensures r.Ok? <==> old(staging).None? && !dies
      ensures r.Ok? ==> session == Some(Session(algorithm, 0, None)) && accepted == [] && staging == Some([])
      ensures r.Err? ==> session.None?
    {
      if staging.Some? { return Err(Storage); }
      staging := Some([]);
      if dies { return Err(Died); }
      session, accepted := Some(Session(algorithm, 0, None)), [];
      r := Ok(());
    }

    /** Reopen the staging file where the record says, dropping whatever ran past it. */
    method Resume(s: Session) returns (upload: Option<Upload>)
      requires Valid() && session == Some(s)
      modifies this
      ensures Valid() && session == old(session) && blobs == old(blobs) && accepted == old(accepted)
      ensures upload.Some? <==> old(staging).Some?
      ensures staging == if old(staging).Some? then Some(accepted) else None
      ensures upload.Some? ==> fresh(upload.value) && upload.value.Valid() && upload.value.algorithm == s.algorithm
      ensures upload.Some? ==> upload.value.offset == s.offset && upload.value.file == accepted
    {
      if s.state.None? && s.offset > 0 { return None; }
      var hasher := if s.state.Some? then s.state.value else Hasher(s.algorithm, []);
      if staging.None? { return None; }
      if |staging.value| < s.offset { return None; }
      if |staging.value| > s.offset { staging := Some(staging.value[..s.offset]); }
      assert staging.value == accepted && accepted[..s.offset] == accepted;
      var u := new Upload(s.algorithm, s.offset, hasher, staging.value);
      upload := Some(u);
    }

    /** A chunk: accepted whole, or the session is exactly as it was. */
    method AppendUpload(expected: nat, body: Body, dies: bool) returns (r: Result<nat, Failure>)
      requires Valid()
      modifies this
      ensures Valid() && blobs == old(blobs)
      ensures r.Ok? ==> old(session).Some? && expected == old(session).value.offset && CameWhole(body)
      ensures r == Err(UploadUnknown) <==> old(session).None?
      ensures r.Err? && old(session).Some? && expected == old(session).value.offset ==>
                r.error == Storage || (r.error == Died && dies) || Blamed(body, r.error)
      ensures r.Ok? ==> accepted == old(accepted) + Payload(body.frames) && r.value == |accepted|
      ensures r.Ok? ==> session == Some(old(session).value.(offset := |accepted|, state := Some(Hasher(old(session).value.algorithm, accepted))))
      ensures r.Ok? ==> old(staging).Some? && staging == Some(accepted)
      ensures r.Err? ==> session == old(session) && accepted == old(accepted) && (staging.Some? <==> old(staging).Some?)
      ensures old(session).Some? && expected != old(session).value.offset ==>
                r == Err(OffsetMismatch(old(session).value.offset)) && staging == old(staging)
      ensures old(session).Some? && old(staging).Some? && expected == old(session).value.offset && Arrives(body) && !dies ==> r.Ok?
    {
      if session.None? { return Err(UploadUnknown); }
      var s := session.value;
      if s.offset != expected { return Err(OffsetMismatch(s.offset)); }
      var upload := Resume(s);
      if upload.None? { return Err(Storage); }
      var u := upload.value;
      assert u.file[..u.offset] == accepted;
      var failed := DrainInto(u, body);
      staging := Some(u.file);
      if failed.Some? { return Err(failed.value); }
      if dies { return Err(Died); }
      WholeFile(u.file, u.offset);
      accepted := accepted + Payload(body.frames);
      session := Some(s.(offset := u.offset, state := Some(u.hasher)));
      r := Ok(u.offset);
    }

    /**
     Close the session under a digest, in its algorithm whatever the session was opened with:
     exactly the accepted bytes and the closing chunk are published, under their own digest.
     */
    method FinishUpload(expected: nat, body: Body, digest: Digest, chunkSize: nat, readable: bool, death: Death) returns (r: Result<nat, Failure>)
      requires Valid()
      modifies this
      ensures Valid()
      ensures r.Ok? ==> old(session).Some? && expected == old(session).value.offset && CameWhole(body)
      ensures r == Err(UploadUnknown) <==> old(session).None?
      ensures r == Err(DigestMismatch) ==> CameWhole(body) && digest != hash(AlgorithmOf(digest), old(accepted) + Payload(body.frames))
      ensures r.Err? && old(session).Some? && expected == old(session).value.offset ==>
                r.error == Storage || r.error == DigestMismatch || (r.error == Died && death != Survives) || Blamed(body, r.error)
      ensures r.Ok? ==> session.None? && staging.None? && r.value == |old(accepted) + Payload(body.frames)|
      ensures r.Ok? ==> blobs == old(blobs)[digest := old(accepted) + Payload(body.frames)]
      ensures r.Ok? ==> digest == hash(AlgorithmOf(digest), old(accepted) + Payload(body.frames))
      ensures r.Err? ==> session == old(session) && accepted == old(accepted)
      ensures r.Ok? ==> old(staging).Some?
      ensures r.Err? && death != AfterRename ==> (staging.Some? <==> old(staging).Some?)
      ensures r.Err? ==> blobs == old(blobs) || (death == AfterRename && blobs == old(blobs)[digest := old(accepted) + Payload(body.frames)])
      ensures old(session).Some? && expected != old(session).value.offset ==>
                r == Err(OffsetMismatch(old(session).value.offset)) && staging == old(staging)
      ensures (&& old(session).Some? && old(staging).Some? && expected == old(session).value.offset && Arrives(body)
               && readable && death == Survives && digest == hash(AlgorithmOf(digest), old(accepted) + Payload(body.frames))) ==> r.Ok?
    {
      if session.None? { return Err(UploadUnknown); }
      var s := session.value;
      if s.offset != expected { return Err(OffsetMismatch(s.offset)); }
      var upload := Resume(s);
      if upload.None? { return Err(Storage); }
      var u := upload.value;
      assert u.file[..u.offset] == accepted;
      var rehashed := u.RehashAs(AlgorithmOf(digest), chunkSize, readable);
      if !rehashed { return Err(Storage); }
      var failed := DrainInto(u, body);
      staging := Some(u.file);
      if failed.Some? { return Err(failed.value); }
      if hash(u.algorithm, u.hasher.absorbed) != digest { return Err(DigestMismatch); }
      if death == BeforeCommit { return Err(Died); }
      assert u.file == u.file[..u.offset] by { WholeFile(u.file, u.offset); }
      staging, blobs := None, blobs[digest := u.file];
      if death == AfterRename { return Err(Died); }
      session, accepted := None, [];
      r := Ok(u.offset);
    }
  }

  lemma WholeFile(file: bytes, offset: nat)
    requires offset == |file|
    ensures file == file[..offset]
  {}

  /** The saved record describes the accepted bytes and nothing else. */
  predicate Saved(s: Session, accepted: bytes) {
    && s.offset == |accepted|
    && (s.state.Some? ==> s.state.value == Hasher(s.algorithm, accepted))
    && (s.state.None? ==> s.offset == 0)
  }

  // --- a whole session --------------------------------------------------

  datatype Attempt =
    | Send(expected: nat, body: Body, dies: bool)
    | Close(expected: nat, body: Body, digest: Digest, chunkSize: nat, readable: bool, death: Death)

  /** What the accepted chunks of a run amount to. */
  function Sent(attempts: seq<Attempt>, oks: seq<bool>): bytes
    requires |attempts| == |oks|
  {
    if attempts == [] then []
    else
      var n := |attempts| - 1;
      Sent(attempts[..n], oks[..n]) + (if oks[n] && attempts[n].Send? then Payload(attempts[n].body.frames) else [])
  }

  lemma SentSnoc(attempts: seq<Attempt>, oks: seq<bool>, ok: bool)
    requires |oks| < |attempts|
    ensures var a := attempts[|oks|];
      Sent(attempts[..|oks| + 1], oks + [ok]) == Sent(attempts[..|oks|], oks) + (if ok && a.Send? then Payload(a.body.frames) else [])
  {
    assert attempts[..|oks| + 1][..|oks|] == attempts[..|oks|] && (oks + [ok])[..|oks|] == oks;
  }

  /** An attempt answered with success sent a whole body, from where the accepted bytes then ended. */
  predicate Earned(start: bytes, attempts: seq<Attempt>, oks: seq<bool>, i: nat)
    requires i < |oks| <= |attempts|
  {
    CameWhole(attempts[i].body) && attempts[i].expected == |start| + |Sent(attempts[..i], oks[..i])|
  }

  predicate AllEarned(start: bytes, attempts: seq<Attempt>, oks: seq<bool>) {
    |oks| <= |attempts| && forall i :: 0 <= i < |oks| && oks[i] ==> Earned(start, attempts, oks, i)
  }

  lemma EarnedStays(start: bytes, attempts: seq<Attempt>, oks: seq<bool>, ok: bool)
    requires |oks| < |attempts| && (var earned := AllEarned(start, attempts, oks); earned)
    requires ok ==> CameWhole(attempts[|oks|].body) && attempts[|oks|].expected == |start| + |Sent(attempts[..|oks|], oks)|
    ensures var earned := AllEarned(start, attempts, oks + [ok]); earned
  {
    forall i | 0 <= i < |oks| + 1 && (oks + [ok])[i] ensures Earned(start, attempts, oks + [ok], i) {
      if i < |oks| { assert (oks + [ok])[..i] == oks[..i]; } else { assert (oks + [ok])[..i] == oks; }
    }
  }

  /** The accepted bytes are those of the chunks answered with success, each of them earned. */
  predicate Tallied(start: bytes, accepted: bytes, attempts: seq<Attempt>, oks: seq<bool>) {
    |oks| <= |attempts| && accepted == start + Sent(attempts[..|oks|], oks) && AllEarned(start, attempts, oks)
  }

  lemma TalliedNothing(start: bytes, attempts: seq<Attempt>)
    ensures Tallied(start, start, attempts, [])
  {
    assert start + [] == start && attempts[..0] == [];
  }

  lemma TalliedNext(start: bytes, accepted: bytes, attempts: seq<Attempt>, oks: seq<bool>, ok: bool, more: bytes)
    requires |oks| < |attempts| && (var tallied := Tallied(start, accepted, attempts, oks); tallied)
    requires ok ==> CameWhole(attempts[|oks|].body) && attempts[|oks|].expected == |accepted|
    requires more == accepted + (if ok && attempts[|oks|].Send? then Payload(attempts[|oks|].body.frames) else [])
    ensures var tallied := Tallied(start, more, attempts, oks + [ok]); tallied
  {
    EarnedStays(start, attempts, oks, ok);
    SentNext(start, accepted, attempts, oks, ok, more);
  }

  lemma SentNext(start: bytes, accepted: bytes, attempts: seq<Attempt>, oks: seq<bool>, ok: bool, more: bytes)
    requires |oks| < |attempts| && accepted == start + Sent(attempts[..|oks|], oks)
    requires more == accepted + (if ok && attempts[|oks|].Send? then Payload(attempts[|oks|].body.frames) else [])
    ensures |oks + [ok]| == |oks| + 1 && more == start + Sent(attempts[..|oks| + 1], oks + [ok])
  {
    SentSnoc(attempts, oks, ok);
    Appended(start, Sent(attempts[..|oks|], oks), if ok && attempts[|oks|].Send? then Payload(attempts[|oks|].body.frames) else []);
  }

  lemma Appended(a: bytes, b: bytes, c: bytes)
    ensures (a + b) + c == a + (b + c)
  {}

  /** A close that succeeds published the accepted bytes and its own. */
  predicate Published(start: bytes, server: Hash, blobs: map<Digest, bytes>, attempts: seq<Attempt>, oks: seq<bool>)
    requires 0 < |oks| <= |attempts| && attempts[|oks| - 1].Close?
  {
    var n := |oks| - 1;
    var bytes := start + Sent(attempts[..n], oks[..n]) + Payload(attempts[n].body.frames);
    var d := attempts[n].digest;
    d in blobs && blobs[d] == bytes && d == server(AlgorithmOf(d), bytes)
  }

  /**
   Any sequence of attempts on one session: what is accepted is exactly the chunks that were
   answered with success, in order, each a whole body sent from where the last one ended, and a
   close that succeeds publishes those bytes and its own.
   */
  method RunSession(server: UploadServer, attempts: seq<Attempt>) returns (oks: seq<bool>, closed: bool)
    requires server.Valid() && server.session.Some?
    modifies server
    ensures server.Valid() && |oks| <= |attempts|
    ensures var earned := AllEarned(old(server.accepted), attempts, oks); earned
    ensures !closed ==> |oks| == |attempts| && server.session.Some? && server.session.value.algorithm == old(server.session).value.algorithm
    ensures !closed ==> server.accepted == old(server.accepted) + Sent(attempts, oks)
    ensures closed ==> oks != [] && attempts[|oks| - 1].Close?
    ensures closed ==> (var published := Published(old(server.accepted), server.hash, server.blobs, attempts, oks); published)
  {
    oks, closed := [], false;
    ghost var start := server.accepted;
    TalliedNothing(start, attempts);
    while |oks| < |attempts|
      invariant |oks| <= |attempts| && server.Valid()
      invariant server.session.Some? && server.session.value.algorithm == old(server.session).value.algorithm
      invariant var tallied := Tallied(start, server.accepted, attempts, oks); tallied
      decreases |attempts| - |oks|
    {
      var n := |oks|;
      ghost var was := server.accepted;
      match attempts[n] {
        case Send(expected, body, dies) =>
          var r := server.AppendUpload(expected, body, dies);
          TalliedNext(start, was, attempts, oks, r.Ok?, server.accepted);
          oks := oks + [r.Ok?];
        case Close(expected, body, digest, chunkSize, readable, death) =>
          var r := server.FinishUpload(expected, body, digest, chunkSize, readable, death);
          TalliedNext(start, was, attempts, oks, r.Ok?, was);
          if r.Ok? {
            ClosePublishes(start, was, server.hash, server.blobs, attempts, oks);
            return oks + [true], true;
          }
          oks := oks + [false];
      }
    }
    assert attempts[..|attempts|] == attempts;
  }

  lemma ClosePublishes(start: bytes, accepted: bytes, server: Hash, blobs: map<Digest, bytes>, attempts: seq<Attempt>, oks: seq<bool>)
    requires |oks| < |attempts| && attempts[|oks|].Close? && (var tallied := Tallied(start, accepted, attempts, oks); tallied)
    requires attempts[|oks|].digest in blobs && blobs[attempts[|oks|].digest] == accepted + Payload(attempts[|oks|].body.frames)
    requires attempts[|oks|].digest == server(AlgorithmOf(attempts[|oks|].digest), accepted + Payload(attempts[|oks|].body.frames))
    ensures var published := Published(start, server, blobs, attempts, oks + [true]); published
  {
    assert (oks + [true])[..|oks|] == oks;
  }
}
