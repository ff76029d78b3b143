/**
 * Concurrent publication of content-addressed objects (shared/storage_immutable.py): any number of
 * publishers, interleaved request by request, against a store with atomic create-if-absent
 * (If-None-Match of section 13.1.2 of RFC 9110). Replies may be lost, conflicts may be spurious, and
 * publishers may die. The digest is a parameter.
 */
module ImmutableStorage {
  import opened Arithmetic
  import Sequences

  newtype byte = x: int | 0 <= x < 256

  type Bytes = seq<byte>
  type Digest = Bytes -> string

  datatype Settings = Settings(singlePutMax: nat, minPart: nat, part: nat, maxParts: nat, maxAttempts: nat, maxObject: nat)

  predicate ValidSettings(s: Settings) { s.minPart >= 1 && s.part >= 1 && s.maxParts >= 1 && s.maxAttempts >= 1 }

  ghost predicate Injective(digest: Digest) {
    forall a, b :: digest(a) == digest(b) ==> a == b
  }

  // ----- Part sizes -----

  function PartSize(size: nat, s: Settings): nat
    requires ValidSettings(s)
  {
    Max(Max(s.minPart, s.part), CeilDiv(size, s.maxParts))
  }

  /** The body, cut into parts of the given size. */
  function Chunks(body: Bytes, size: nat): seq<Bytes>
    requires size > 0
  {
    if |body| == 0 then []
    else if |body| <= size then [body]
    else [body[..size]] + Chunks(body[size..], size)
  }

  function Join(parts: seq<Bytes>): Bytes {
    if parts == [] then [] else parts[0] + Join(parts[1..])
  }

  lemma {:induction false} ChunksJoin(body: Bytes, size: nat)
    requires size > 0
    ensures Join(Chunks(body, size)) == body
    ensures forall p | p in Chunks(body, size) :: 0 < |p| <= size
  {
    if |body| == 0 {
    } else if |body| <= size {
      assert Join([body]) == body + Join([]) == body;
    } else {
      ChunksJoin(body[size..], size);
      JoinCons(body[..size], Chunks(body[size..], size));
      Sequences.SplitAt(body, size);
    }
  }

  lemma JoinCons(part: Bytes, parts: seq<Bytes>)
    ensures Join([part] + parts) == part + Join(parts)
  {
    assert ([part] + parts)[1..] == parts;
  }

  lemma {:induction false} ChunksCount(body: Bytes, size: nat)
    requires size > 0
    ensures |Chunks(body, size)| == CeilDiv(|body|, size)
  {
    CeilDivBounds(|body|, size);
    if |body| == 0 {
    } else if |body| <= size {
      CeilDivLeast(|body|, size, 1);
    } else {
      ChunksCount(body[size..], size);
      CeilDivNext(|body| - size, size);
    }
  }

  /** Whatever the size, the parts stay within the limit of the store. */
  lemma PartsWithinLimit(body: Bytes, s: Settings)
    requires ValidSettings(s)
    ensures PartSize(|body|, s) >= s.minPart && PartSize(|body|, s) > 0
    ensures |Chunks(body, PartSize(|body|, s))| <= s.maxParts && Join(Chunks(body, PartSize(|body|, s))) == body
  {
    var size := PartSize(|body|, s);
    ChunksJoin(body, size);
    ChunksCount(body, size);
    CeilDivBounds(|body|, s.maxParts);
    Monotone(CeilDiv(|body|, s.maxParts), size, s.maxParts);
    assert s.maxParts * size == size * s.maxParts;
    CeilDivLeast(|body|, size, s.maxParts);
  }

  /** The upload loop: the file read part by part. */
  method ReadParts(body: Bytes, s: Settings) returns (parts: seq<Bytes>)
    requires ValidSettings(s)
    ensures parts == Chunks(body, PartSize(|body|, s)) && Join(parts) == body && |parts| <= s.maxParts
  {
    hide Chunks, Join, PartSize;
    var size := PartSize(|body|, s);
    PartsWithinLimit(body, s);
    parts := [];
    var rest := body;
    Sequences.AppendNothing(Chunks(body, size));
    while |rest| > 0
      invariant parts + Chunks(rest, size) == Chunks(body, size)
      decreases |rest|
    {
      var n := if size <= |rest| then size else |rest|;
      NextChunk(rest, size);
      Sequences.AppendAssociative(parts, [rest[..n]], Chunks(rest[n..], size));
      parts, rest := parts + [rest[..n]], rest[n..];
    }
    NoChunks(rest, size);
    Sequences.AppendNothing(parts);
  }

  lemma NoChunks(rest: Bytes, size: nat)
    requires size > 0 && |rest| == 0
    ensures Chunks(rest, size) == []
  {
  }

  lemma NextChunk(rest: Bytes, size: nat)
    requires size > 0 && |rest| > 0
    ensures var n := if size <= |rest| then size else |rest|;
            Chunks(rest, size) == [rest[..n]] + Chunks(rest[n..], size)
  {
    if |rest| <= size {
      assert rest[..|rest|] == rest && rest[|rest|..] == [];
    }
  }

  /** An inclusive byte range of a copy request. */
  datatype Range = Range(first: nat, last: nat)

  /** Consecutive ranges from byte `from` up to, not including, `to`. */
  predicate Contiguous(ranges: seq<Range>, from: nat, to: nat) {
    if ranges == [] then from == to
    else ranges[0].first == from && from <= ranges[0].last < to && Contiguous(ranges[1..], ranges[0].last + 1, to)
  }

  lemma {:induction false} ContiguousSnoc(ranges: seq<Range>, from: nat, to: nat, r: Range)
    requires Contiguous(ranges, from, to) && r.first == to && r.last >= to
    ensures Contiguous(ranges + [r], from, r.last + 1)
  {
    if ranges != [] {
      ContiguousSnoc(ranges[1..], ranges[0].last + 1, to, r);
      assert (ranges + [r])[1..] == ranges[1..] + [r];
    }
  }

  function RangesOver(ranges: seq<Range>, b: nat): nat {
    if ranges == [] then 0 else (if ranges[0].first <= b <= ranges[0].last then 1 else 0) + RangesOver(ranges[1..], b)
  }

  lemma {:induction false} ContiguousOnce(ranges: seq<Range>, from: nat, to: nat, b: nat)
    requires Contiguous(ranges, from, to)
    ensures from <= to && RangesOver(ranges, b) == if from <= b < to then 1 else 0
  {
    if ranges != [] {
      ContiguousOnce(ranges[1..], ranges[0].last + 1, to, b);
    }
  }

  /** The copy loop: ranges that hold every byte of the source exactly once. */
  method CopyRanges(size: nat, s: Settings) returns (ranges: seq<Range>)
    requires ValidSettings(s)
    ensures forall b: nat :: RangesOver(ranges, b) == if b < size then 1 else 0
    ensures |ranges| <= s.maxParts
  {
    var part := PartSize(size, s);
    ranges := [];
    var start := 0;
    while start < size
      invariant Contiguous(ranges, 0, if start < size then start else size)
      invariant start == |ranges| * part && (|ranges| > 0 ==> (|ranges| - 1) * part < size)
      decreases size - start
    {
      var end := (if start + part <= size then start + part else size) - 1;
      ContiguousSnoc(ranges, 0, start, Range(start, end));
      assert (|ranges| + 1) * part == start + part;
      ranges := ranges + [Range(start, end)];
      start := start + part;
    }
    forall b: nat ensures RangesOver(ranges, b) == if b < size then 1 else 0 {
      ContiguousOnce(ranges, 0, size, b);
    }
    RangesWithinLimit(|ranges|, size, part, s);
  }

  lemma RangesWithinLimit(count: nat, size: nat, part: nat, s: Settings)
    requires ValidSettings(s) && part == PartSize(size, s) && (count > 0 ==> (count - 1) * part < size)
    ensures count <= s.maxParts
  {
    CeilDivBounds(size, s.maxParts);
    Monotone(CeilDiv(size, s.maxParts), part, s.maxParts);
    assert part * s.maxParts == s.maxParts * part;
    Monotone(s.maxParts, count - 1, part);
  }

  // ----- The store and its publishers -----

  datatype Object = Object(body: Bytes, checksum: string)

  /** Unanswered: the reply that carried its identity was lost, so no publisher knows of it. */
  datatype UploadState = Open | Completed | AbortAttempted | Unanswered

  datatype MultipartUpload = MultipartUpload(owner: nat, parts: seq<Bytes>, state: UploadState)

  /** Where a publisher stands; attempt 0 is a single conditional put. */
  datatype Phase =
    | Head
    | Put
    | Create(attempt: nat)
    | Uploading(attempt: nat, upload: nat)
    | Complete(attempt: nat, upload: nat)
    | Recheck(attempt: nat)
    | Verify
    | Returned(reused: bool)
    | Raised
    | Dead

  datatype Publisher = Publisher(body: Bytes, forceMultipart: bool, phase: Phase)

  datatype World = World(store: map<string, Object>, uploads: seq<MultipartUpload>, publishers: seq<Publisher>)

  /** What happens to the next request: it succeeds, is refused with a conflict, takes effect but its reply is lost, or fails. */
  datatype Event = Go | Conflict | LostReply | Fail | Die

  datatype Seen = Missing | Matching | Conflicting

  function Look(w: World, key: string, body: Bytes): Seen {
    if key !in w.store then Missing
    else if |w.store[key].body| == |body| && w.store[key].checksum == key then Matching
    else Conflicting
  }

  function At(w: World, i: nat, phase: Phase): World
    requires i < |w.publishers|
  {
    w.(publishers := w.publishers[i := w.publishers[i].(phase := phase)])
  }

  predicate Multipart(p: Publisher, s: Settings) { p.forceMultipart || |p.body| > s.singlePutMax }

  function Abort(w: World, u: nat): World {
    if u < |w.uploads| then w.(uploads := w.uploads[u := w.uploads[u].(state := AbortAttempted)]) else w
  }

  function Store(w: World, key: string, o: Object): World { w.(store := w.store[key := o]) }

  /** A conditional write: creates the object, unless it is there or the store reports a conflict. */
  predicate Creates(w: World, key: string, event: Event) {
    key !in w.store && (event == Go || event == LostReply)
  }

  /** The request of one publisher changes nothing but that publisher's phase, among the publishers. */
  predicate OnlyMoves(w: World, v: World, i: nat) {
    && |v.publishers| == |w.publishers|
    && (i < |w.publishers| ==> v.publishers == w.publishers[i := w.publishers[i].(phase := v.publishers[i].phase)])
  }

  function StepHead(w: World, i: nat, event: Event, s: Settings, digest: Digest): (v: World)
    requires i < |w.publishers|
    ensures OnlyMoves(w, v, i)
  {
    var p := w.publishers[i];
    if |p.body| > s.maxObject || event != Go then At(w, i, Raised)
    else match Look(w, digest(p.body), p.body)
         case Matching => At(w, i, Returned(true))
         case Conflicting => At(w, i, Raised)
         case Missing => At(w, i, if Multipart(p, s) then Create(1) else Put)
  }

  function StepPut(w: World, i: nat, event: Event, digest: Digest): (v: World)
    requires i < |w.publishers|
    ensures OnlyMoves(w, v, i)
  {
    var p := w.publishers[i];
    var key := digest(p.body);
    var w' := if Creates(w, key, event) then Store(w, key, Object(p.body, key)) else w;
    if event == Go && key !in w.store then At(w', i, Verify)
    else if event == Go || event == Conflict then At(w', i, Recheck(0))
    else At(w', i, Raised)
  }

  function StepCreate(w: World, i: nat, event: Event): (v: World)
    requires i < |w.publishers| && w.publishers[i].phase.Create?
    ensures OnlyMoves(w, v, i)
  {
    if event == LostReply then At(w.(uploads := w.uploads + [MultipartUpload(i, [], Unanswered)]), i, Raised)
    else if event != Go then At(w, i, Raised)
    else At(w.(uploads := w.uploads + [MultipartUpload(i, [], Open)]), i,
            Uploading(w.publishers[i].phase.attempt, |w.uploads|))
  }

  function StepUpload(w: World, i: nat, event: Event, s: Settings): (v: World)
    requires i < |w.publishers| && w.publishers[i].phase.Uploading? && ValidSettings(s)
    ensures OnlyMoves(w, v, i)
  {
    var p := w.publishers[i];
    var u := p.phase.upload;
    var chunks := Chunks(p.body, PartSize(|p.body|, s));
    if event != Go || u >= |w.uploads| then At(Abort(w, u), i, Raised)
    else
      var n := |w.uploads[u].parts|;
      if n < |chunks| then w.(uploads := w.uploads[u := w.uploads[u].(parts := w.uploads[u].parts + [chunks[n]])])
      else if n > s.maxParts then At(Abort(w, u), i, Raised)
      else At(w, i, Complete(p.phase.attempt, u))
  }

  function StepComplete(w: World, i: nat, event: Event, digest: Digest): (v: World)
    requires i < |w.publishers| && w.publishers[i].phase.Complete?
    ensures OnlyMoves(w, v, i)
  {
    var p := w.publishers[i];
    var u, key := p.phase.upload, digest(p.body);
    if u >= |w.uploads| then At(w, i, Raised)
    else
      var w' := if Creates(w, key, event) then Store(w, key, Object(Join(w.uploads[u].parts), key)) else w;
      if event == Go && key !in w.store
      then At(w'.(uploads := w.uploads[u := w.uploads[u].(state := Completed)]), i, Verify)
      else if event == Go || event == Conflict then At(Abort(w', u), i, Recheck(p.phase.attempt))
      else At(Abort(w', u), i, Raised)
  }

  function StepRecheck(w: World, i: nat, event: Event, s: Settings, digest: Digest): (v: World)
    requires i < |w.publishers| && w.publishers[i].phase.Recheck?
    ensures OnlyMoves(w, v, i)
  {
    var p := w.publishers[i];
    if event != Go then At(w, i, Raised)
    else match Look(w, digest(p.body), p.body)
         case Matching => At(w, i, Returned(true))
         case Conflicting => At(w, i, Raised)
         case Missing =>
           if p.phase.attempt == 0 || p.phase.attempt >= s.maxAttempts then At(w, i, Raised)
           else At(w, i, Create(p.phase.attempt + 1))
  }

  function StepVerify(w: World, i: nat, event: Event, digest: Digest): (v: World)
    requires i < |w.publishers|
    ensures OnlyMoves(w, v, i)
  {
    var p := w.publishers[i];
    if event != Go then At(w, i, Raised)
    else match Look(w, digest(p.body), p.body)
         case Matching => At(w, i, Returned(false))
         case Conflicting => At(w, i, Raised)
         case Missing => At(w, i, Raised)
  }

  predicate Active(p: Publisher) { !p.phase.Returned? && !p.phase.Raised? && !p.phase.Dead? }

  /** The next request of publisher i. */
  function Step(w: World, i: nat, event: Event, s: Settings, digest: Digest): World
    requires ValidSettings(s)
  {
    if i >= |w.publishers| || !Active(w.publishers[i]) then w
    else
      var phase := w.publishers[i].phase;
      if event == Die then At(w, i, Dead)
      else if phase.Head? then StepHead(w, i, event, s, digest)
      else if phase.Put? then StepPut(w, i, event, digest)
      else if phase.Create? then StepCreate(w, i, event)
      else if phase.Uploading? then StepUpload(w, i, event, s)
      else if phase.Complete? then StepComplete(w, i, event, digest)
      else if phase.Recheck? then StepRecheck(w, i, event, s, digest)
      else StepVerify(w, i, event, digest)
  }

  type Schedule = seq<(nat, Event)>

  function After(w: World, schedule: Schedule, s: Settings, digest: Digest): World
    requires ValidSettings(s)
  {
    if schedule == [] then w
    else Step(After(w, schedule[..|schedule| - 1], s, digest), schedule[|schedule| - 1].0, schedule[|schedule| - 1].1, s, digest)
  }

  ghost predicate Start(w: World, digest: Digest) {
    Addressed(w.store, digest) && w.uploads == [] && forall p | p in w.publishers :: p.phase == Head
  }

  /** Every object lies under the digest of its own bytes. */
  ghost predicate Addressed(store: map<string, Object>, digest: Digest) {
    forall k | k in store :: digest(store[k].body) == k && store[k].checksum == k
  }

  predicate Won(p: Publisher) { p.phase == Verify || p.phase == Returned(false) }

  /** Creators and returning publishers find their key; no two publishers created the same one. */
  ghost predicate Created(w: World, digest: Digest) {
    && (forall p | p in w.publishers && (Won(p) || p.phase.Returned?) :: digest(p.body) in w.store)
    && (forall i, j | 0 <= i < j < |w.publishers| && Won(w.publishers[i]) && Won(w.publishers[j]) ::
          digest(w.publishers[i].body) != digest(w.publishers[j].body))
  }

  predicate Holds(p: Publisher, u: nat) { (p.phase.Uploading? || p.phase.Complete?) && p.phase.upload == u }

  predicate Holding(phase: Phase) { phase.Uploading? || phase.Complete? }

  function PartsOf(body: Bytes, s: Settings): seq<Bytes>
    requires ValidSettings(s)
  {
    Chunks(body, PartSize(|body|, s))
  }

  /** An open upload is in its owner's hands, and holds a prefix of the owner's parts. */
  ghost predicate UploadOk(uploads: seq<MultipartUpload>, publishers: seq<Publisher>, u: nat, s: Settings)
    requires u < |uploads| && ValidSettings(s)
  {
    var upload := uploads[u];
    && upload.owner < |publishers|
    && var p := publishers[upload.owner];
       && (upload.state == Open ==> Holds(p, u) || p.phase.Dead?)
       && |upload.parts| <= |PartsOf(p.body, s)| && upload.parts == PartsOf(p.body, s)[..|upload.parts|]
  }

  ghost predicate PublisherOk(uploads: seq<MultipartUpload>, publishers: seq<Publisher>, i: nat, s: Settings)
    requires i < |publishers| && ValidSettings(s)
  {
    var p := publishers[i];
    Holding(p.phase) ==>
      && p.phase.upload < |uploads| && uploads[p.phase.upload].owner == i && uploads[p.phase.upload].state == Open
      && (p.phase.Complete? ==> uploads[p.phase.upload].parts == PartsOf(p.body, s))
  }

  ghost predicate UploadsOk(uploads: seq<MultipartUpload>, publishers: seq<Publisher>, s: Settings)
    requires ValidSettings(s)
  {
    && (forall u | 0 <= u < |uploads| :: UploadOk(uploads, publishers, u, s))
    && (forall i | 0 <= i < |publishers| :: PublisherOk(uploads, publishers, i, s))
  }

  ghost predicate Inv(w: World, s: Settings, digest: Digest)
    requires ValidSettings(s)
  {
    Addressed(w.store, digest) && Created(w, digest) && UploadsOk(w.uploads, w.publishers, s)
  }

  // ----- Every interleaving -----

  /** Objects are never changed once created. */
  lemma StepKeepsObjects(w: World, i: nat, event: Event, s: Settings, digest: Digest)
    requires ValidSettings(s)
    ensures forall k | k in w.store :: k in Step(w, i, event, s, digest).store && Step(w, i, event, s, digest).store[k] == w.store[k]
  {
    hide Chunks, Join, PartSize;
  }

  lemma StepKeepsBodies(w: World, i: nat, event: Event, s: Settings, digest: Digest)
    requires ValidSettings(s)
    ensures var w' := Step(w, i, event, s, digest);
            && |w'.publishers| == |w.publishers|
            && forall j | 0 <= j < |w.publishers| ::
                 w'.publishers[j].body == w.publishers[j].body && (j != i ==> w'.publishers[j] == w.publishers[j])
  {
    hide StepHead, StepPut, StepCreate, StepUpload, StepComplete, StepRecheck, StepVerify;
    assert OnlyMoves(w, Step(w, i, event, s, digest), i) || Step(w, i, event, s, digest) == w;
  }

  lemma StepAddressed(w: World, i: nat, event: Event, s: Settings, digest: Digest)
    requires ValidSettings(s) && Inv(w, s, digest)
    ensures Addressed(Step(w, i, event, s, digest).store, digest)
  {
    hide Chunks, Join, PartSize, Created;
    if i < |w.publishers| && w.publishers[i].phase.Complete? {
      var p := w.publishers[i];
      assert PublisherOk(w.uploads, w.publishers, i, s);
      PartsWithinLimit(p.body, s);
    }
  }

  /** What a request can do to the standing of publisher i. */
  lemma StepOutcome(w: World, i: nat, event: Event, s: Settings, digest: Digest)
    requires ValidSettings(s) && i < |w.publishers|
    ensures Outcome(w, Step(w, i, event, s, digest), i, digest(w.publishers[i].body))
  {
    hide Outcome, OnlyMoves, StepHead, StepPut, StepCreate, StepUpload, StepComplete, StepRecheck, StepVerify;
    var phase := w.publishers[i].phase;
    if !Active(w.publishers[i]) || event == Die {
      Moved(w, i, Dead, digest);
    } else if phase.Put? {
      PutOutcome(w, i, event, digest);
    } else if phase.Complete? {
      CompleteOutcome(w, i, event, digest);
    } else if phase.Create? || phase.Uploading? {
      UploadOutcome(w, i, event, s, digest);
    } else {
      LookOutcome(w, i, event, s, digest);
    }
  }

  /** Publisher i won only by creating its object, and returns only with its object there. */
  predicate Outcome(w: World, w': World, i: nat, key: string) {
    && i < |w.publishers| && i < |w'.publishers|
    && var phase, phase' := w.publishers[i].phase, w'.publishers[i].phase;
       && (phase' == Verify && phase != Verify ==> key !in w.store && key in w'.store)
       && (phase' == Returned(false) ==> Won(w.publishers[i]))
       && (phase'.Returned? && !phase.Returned? ==> key in w.store)
  }

  lemma Moved(w: World, i: nat, phase: Phase, digest: Digest)
    requires i < |w.publishers| && phase != Verify && !phase.Returned?
    ensures Outcome(w, w, i, digest(w.publishers[i].body)) && Outcome(w, At(w, i, phase), i, digest(w.publishers[i].body))
  {
  }

  lemma PutOutcome(w: World, i: nat, event: Event, digest: Digest)
    requires i < |w.publishers|
    ensures Outcome(w, StepPut(w, i, event, digest), i, digest(w.publishers[i].body))
  {
    hide OnlyMoves;
  }

  lemma CompleteOutcome(w: World, i: nat, event: Event, digest: Digest)
    requires i < |w.publishers| && w.publishers[i].phase.Complete?
    ensures Outcome(w, StepComplete(w, i, event, digest), i, digest(w.publishers[i].body))
  {
    hide OnlyMoves, Join;
  }

  lemma UploadOutcome(w: World, i: nat, event: Event, s: Settings, digest: Digest)
    requires ValidSettings(s) && i < |w.publishers|
    requires w.publishers[i].phase.Create? || w.publishers[i].phase.Uploading?
    ensures Outcome(w, if w.publishers[i].phase.Create? then StepCreate(w, i, event) else StepUpload(w, i, event, s),
                    i, digest(w.publishers[i].body))
  {
    hide OnlyMoves, Chunks, PartSize;
  }

  lemma LookOutcome(w: World, i: nat, event: Event, s: Settings, digest: Digest)
    requires i < |w.publishers|
    ensures var p := w.publishers[i]; var key := digest(p.body);
            && Outcome(w, StepHead(w, i, event, s, digest), i, key)
            && (p.phase.Recheck? ==> Outcome(w, StepRecheck(w, i, event, s, digest), i, key))
            && (p.phase == Verify ==> Outcome(w, StepVerify(w, i, event, digest), i, key))
  {
    hide OnlyMoves;
  }

  lemma StepCreated(w: World, i: nat, event: Event, s: Settings, digest: Digest)
    requires ValidSettings(s) && Inv(w, s, digest)
    ensures Created(Step(w, i, event, s, digest), digest)
  {
    hide Step, UploadsOk, Addressed;
    if i < |w.publishers| {
      StepOutcome(w, i, event, s, digest);
      StepKeepsObjects(w, i, event, s, digest);
      StepKeepsBodies(w, i, event, s, digest);
      var w' := Step(w, i, event, s, digest);
      forall p | p in w'.publishers && (Won(p) || p.phase.Returned?) ensures digest(p.body) in w'.store {
        var j :| 0 <= j < |w'.publishers| && w'.publishers[j] == p;
        assert w.publishers[j] in w.publishers;
      }
      forall a, b | 0 <= a < b < |w'.publishers| && Won(w'.publishers[a]) && Won(w'.publishers[b])
        ensures digest(w'.publishers[a].body) != digest(w'.publishers[b].body)
      {
        assert w.publishers[a] in w.publishers && w.publishers[b] in w.publishers;
      }
    } else {
      Idle(w, i, event, s, digest);
    }
  }

  lemma Idle(w: World, i: nat, event: Event, s: Settings, digest: Digest)
    requires ValidSettings(s) && i >= |w.publishers|
    ensures Step(w, i, event, s, digest) == w
  {
  }

  /** Publisher i moves on, holding an upload neither before nor after. */
  lemma MovesOn(uploads: seq<MultipartUpload>, publishers: seq<Publisher>, i: nat, phase: Phase, s: Settings)
    requires ValidSettings(s) && UploadsOk(uploads, publishers, s) && i < |publishers| && Active(publishers[i])
    requires !Holding(phase) && (Holding(publishers[i].phase) ==> phase.Dead?)
    ensures UploadsOk(uploads, publishers[i := publishers[i].(phase := phase)], s)
  {
    hide PartsOf;
    var next := publishers[i := publishers[i].(phase := phase)];
    forall u | 0 <= u < |uploads| ensures UploadOk(uploads, next, u, s) {
      assert UploadOk(uploads, publishers, u, s);
    }
    forall j | 0 <= j < |next| ensures PublisherOk(uploads, next, j, s) {
      assert PublisherOk(uploads, publishers, j, s);
    }
  }

  /** Publisher i lets go of its upload, completed or with an abort attempted. */
  lemma LetsGo(uploads: seq<MultipartUpload>, publishers: seq<Publisher>, i: nat, phase: Phase, state: UploadState, s: Settings)
    requires ValidSettings(s) && UploadsOk(uploads, publishers, s) && i < |publishers|
    requires Holding(publishers[i].phase) && !Holding(phase) && state != Open
    ensures publishers[i].phase.upload < |uploads|
    ensures var u := publishers[i].phase.upload;
            UploadsOk(uploads[u := uploads[u].(state := state)], publishers[i := publishers[i].(phase := phase)], s)
  {
    hide PartsOf;
    assert PublisherOk(uploads, publishers, i, s);
    var u := publishers[i].phase.upload;
    var settled, next := uploads[u := uploads[u].(state := state)], publishers[i := publishers[i].(phase := phase)];
    forall v | 0 <= v < |settled| ensures UploadOk(settled, next, v, s) {
      assert UploadOk(uploads, publishers, v, s);
    }
    forall j | 0 <= j < |next| ensures PublisherOk(settled, next, j, s) {
      assert PublisherOk(uploads, publishers, j, s);
    }
  }

  /** Publisher i starts an upload; when the reply is lost it does not know of it. */
  lemma StartsUpload(uploads: seq<MultipartUpload>, publishers: seq<Publisher>, i: nat, attempt: nat, answered: bool, s: Settings)
    requires ValidSettings(s) && UploadsOk(uploads, publishers, s) && i < |publishers|
    requires !Holding(publishers[i].phase) && Active(publishers[i])
    ensures UploadsOk(uploads + [MultipartUpload(i, [], if answered then Open else Unanswered)],
                      publishers[i := publishers[i].(phase := if answered then Uploading(attempt, |uploads|) else Raised)], s)
  {
    hide PartsOf;
    var more := uploads + [MultipartUpload(i, [], if answered then Open else Unanswered)];
    var next := publishers[i := publishers[i].(phase := if answered then Uploading(attempt, |uploads|) else Raised)];
    forall v | 0 <= v < |more| ensures UploadOk(more, next, v, s) {
      if v < |uploads| {
        assert UploadOk(uploads, publishers, v, s);
      }
    }
    forall j | 0 <= j < |next| ensures PublisherOk(more, next, j, s) {
      assert PublisherOk(uploads, publishers, j, s);
    }
  }

  /** Publisher i uploads its next part. */
  lemma AddsPart(uploads: seq<MultipartUpload>, publishers: seq<Publisher>, i: nat, s: Settings)
    requires ValidSettings(s) && UploadsOk(uploads, publishers, s) && i < |publishers| && publishers[i].phase.Uploading?
    ensures publishers[i].phase.upload < |uploads|
    ensures var u, parts := publishers[i].phase.upload, PartsOf(publishers[i].body, s); var n := |uploads[u].parts|;
            n < |parts| ==> UploadsOk(uploads[u := uploads[u].(parts := uploads[u].parts + [parts[n]])], publishers, s)
  {
    hide PartsOf;
    assert PublisherOk(uploads, publishers, i, s);
    var u, parts := publishers[i].phase.upload, PartsOf(publishers[i].body, s);
    assert UploadOk(uploads, publishers, u, s);
    var n := |uploads[u].parts|;
    if n < |parts| {
      Sequences.PrefixSnoc(parts, n);
      var more := uploads[u := uploads[u].(parts := uploads[u].parts + [parts[n]])];
      forall v | 0 <= v < |more| ensures UploadOk(more, publishers, v, s) {
        assert UploadOk(uploads, publishers, v, s);
      }
      forall j | 0 <= j < |publishers| ensures PublisherOk(more, publishers, j, s) {
        assert PublisherOk(uploads, publishers, j, s);
      }
    }
  }

  /** Publisher i has uploaded every part. */
  lemma Uploaded(uploads: seq<MultipartUpload>, publishers: seq<Publisher>, i: nat, s: Settings)
    requires ValidSettings(s) && UploadsOk(uploads, publishers, s) && i < |publishers| && publishers[i].phase.Uploading?
    ensures publishers[i].phase.upload < |uploads|
    ensures var u := publishers[i].phase.upload;
            |uploads[u].parts| >= |PartsOf(publishers[i].body, s)| ==>
              UploadsOk(uploads, publishers[i := publishers[i].(phase := Complete(publishers[i].phase.attempt, u))], s)
  {
    hide PartsOf;
    assert PublisherOk(uploads, publishers, i, s);
    var u := publishers[i].phase.upload;
    assert UploadOk(uploads, publishers, u, s);
    if |uploads[u].parts| >= |PartsOf(publishers[i].body, s)| {
      Sequences.PrefixAll(PartsOf(publishers[i].body, s));
      var next := publishers[i := publishers[i].(phase := Complete(publishers[i].phase.attempt, u))];
      forall v | 0 <= v < |uploads| ensures UploadOk(uploads, next, v, s) {
        assert UploadOk(uploads, publishers, v, s);
      }
      forall j | 0 <= j < |next| ensures PublisherOk(uploads, next, j, s) {
        assert PublisherOk(uploads, publishers, j, s);
      }
    }
  }

  lemma StepUploads(w: World, i: nat, event: Event, s: Settings, digest: Digest)
    requires ValidSettings(s) && UploadsOk(w.uploads, w.publishers, s)
    ensures UploadsOk(Step(w, i, event, s, digest).uploads, Step(w, i, event, s, digest).publishers, s)
  {
    hide UploadsOk, Chunks, PartSize, Join;
    var v := Step(w, i, event, s, digest);
    if i < |w.publishers| && Active(w.publishers[i]) {
      var phase, phase' := w.publishers[i].phase, v.publishers[i].phase;
      if event == Die {
        MovesOn(w.uploads, w.publishers, i, Dead, s);
      } else if phase.Create? && event == Go {
        StartsUpload(w.uploads, w.publishers, i, phase.attempt, true, s);
      } else if phase.Create? && event == LostReply {
        StartsUpload(w.uploads, w.publishers, i, phase.attempt, false, s);
      } else if phase.Uploading? && event == Go {
        AddsPart(w.uploads, w.publishers, i, s);
        Uploaded(w.uploads, w.publishers, i, s);
        LetsGo(w.uploads, w.publishers, i, Raised, AbortAttempted, s);
      } else if phase.Uploading? {
        LetsGo(w.uploads, w.publishers, i, Raised, AbortAttempted, s);
      } else if phase.Complete? {
        LetsGo(w.uploads, w.publishers, i, phase', AbortAttempted, s);
        LetsGo(w.uploads, w.publishers, i, phase', Completed, s);
      } else {
        MovesOn(w.uploads, w.publishers, i, phase', s);
      }
    }
  }

  lemma {:induction false} PublicationConsistent(w: World, schedule: Schedule, s: Settings, digest: Digest)
    requires ValidSettings(s) && Start(w, digest)
    ensures Inv(After(w, schedule, s, digest), s, digest)
    ensures |After(w, schedule, s, digest).publishers| == |w.publishers|
  {
    if schedule == [] {
    } else {
      hide Step, Start, Addressed, Created, UploadsOk;
      var init, last := schedule[..|schedule| - 1], schedule[|schedule| - 1];
      PublicationConsistent(w, init, s, digest);
      var v := After(w, init, s, digest);
      StepAddressed(v, last.0, last.1, s, digest);
      StepCreated(v, last.0, last.1, s, digest);
      StepUploads(v, last.0, last.1, s, digest);
      StepKeepsBodies(v, last.0, last.1, s, digest);
    }
  }

  lemma {:induction false} ObjectsImmutable(w: World, schedule: Schedule, s: Settings, digest: Digest)
    requires ValidSettings(s)
    ensures forall k | k in w.store :: k in After(w, schedule, s, digest).store && After(w, schedule, s, digest).store[k] == w.store[k]
  {
    if schedule != [] {
      hide Step;
      var init, last := schedule[..|schedule| - 1], schedule[|schedule| - 1];
      ObjectsImmutable(w, init, s, digest);
      StepKeepsObjects(After(w, init, s, digest), last.0, last.1, s, digest);
    }
  }

  /** A publisher that returned finds its own bytes under its key, and at most one per key says it created them. */
  lemma ReturnedBytesStored(w: World, schedule: Schedule, s: Settings, digest: Digest, i: nat)
    requires ValidSettings(s) && Start(w, digest) && Injective(digest)
    requires i < |After(w, schedule, s, digest).publishers| && After(w, schedule, s, digest).publishers[i].phase.Returned?
    ensures var v := After(w, schedule, s, digest); var p := v.publishers[i];
            && digest(p.body) in v.store && v.store[digest(p.body)] == Object(p.body, digest(p.body))
            && (p.phase == Returned(false) ==>
                  forall j | 0 <= j < |v.publishers| && j != i && v.publishers[j].phase == Returned(false) ::
                    digest(v.publishers[j].body) != digest(p.body))
  {
    PublicationConsistent(w, schedule, s, digest);
    hide UploadsOk, After;
    var v := After(w, schedule, s, digest);
    assert v.publishers[i] in v.publishers;
  }

  /** Every upload a publisher knew of was completed or its abort was attempted, unless the publisher died or is still at it. */
  lemma UploadsSettled(w: World, schedule: Schedule, s: Settings, digest: Digest, u: nat)
    requires ValidSettings(s) && Start(w, digest)
    requires u < |After(w, schedule, s, digest).uploads|
    ensures var v := After(w, schedule, s, digest); var upload := v.uploads[u];
            && upload.owner < |v.publishers|
            && (upload.state == Open ==> Holds(v.publishers[upload.owner], u) || v.publishers[upload.owner].phase.Dead?)
            && |upload.parts| <= s.maxParts
  {
    PublicationConsistent(w, schedule, s, digest);
    hide After, Chunks, PartSize, Join, Created, Addressed;
    var v := After(w, schedule, s, digest);
    assert UploadOk(v.uploads, v.publishers, u, s);
    PartsWithinLimit(v.publishers[v.uploads[u].owner].body, s);
  }

  /** With an injective digest no object is in conflict, so a refusal because the key exists ends in reuse. */
  lemma RefusalMeansReuse(w: World, i: nat, s: Settings, digest: Digest)
    requires ValidSettings(s) && Inv(w, s, digest) && Injective(digest)
    requires i < |w.publishers| && w.publishers[i].phase.Recheck? && digest(w.publishers[i].body) in w.store
    ensures Step(w, i, Go, s, digest).publishers[i].phase == Returned(true)
  {
    hide UploadsOk, Created, StepHead, StepPut, StepCreate, StepUpload, StepComplete, StepVerify;
  }
}
