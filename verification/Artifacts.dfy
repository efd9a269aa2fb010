/** Response bodies of src/agent_state/store.rs: which run gives up its body, and what storing one records. */
module Artifacts {
  import opened Base
  import opened Records
  import opened Guards
  import opened Reducer
  import opened Regions
  import opened Protocol

  const ARTIFACT_STORE_MAX_FILES: nat := 4096
  const ARTIFACT_STORE_MAX_BYTES: nat := 64 * 1024 * 1024

  type Bodies = map<RunId, Text>

  function TextSize(t: Text): nat {
    |t|
  }

  // ---------------------------------------------------------------- expiry of one artifact

  /** The record of a run whose body is given up. */
  function Expire(r: RunRecord): RunRecord
    requires r.artifact.Some?
  {
    r.(artifact := Some(r.artifact.value.(fileName := None, stored := Expired)), revision := SaturatingNext(r.revision))
  }

  /** Nothing about the run changed except what is recorded of its response. */
  predicate SameButArtifact(a: RunRecord, b: RunRecord) {
    b == a.(artifact := b.artifact, revision := b.revision, updatedAt := b.updatedAt)
  }

  lemma KeepsEvents(a: RunRecord, b: RunRecord)
    requires b.evidence == a.evidence && DistinctEvents(a)
    ensures DistinctEvents(b) && EvidenceReplacement(a.evidence, b.evidence)
    ensures forall e :: b.HasEvent(e) <==> a.HasEvent(e)
  {
  }

  /** Giving up a body is always an admissible replacement, whatever the run's revision. */
  lemma ExpiryIsAccepted(c: Codec, r: RunRecord)
    requires ValidRun(c, r) && DistinctEvents(r) && r.artifact.Some? && r.artifact.value.stored != Expired
    ensures ValidRun(c, Expire(r)) && RunReplacement(r, Expire(r))
    ensures SameButArtifact(r, Expire(r)) && !Expire(r).HasBody()
  {
    KeepsEvents(r, Expire(r));
  }

  // ---------------------------------------------------------------- eviction order

  /** Runs whose body may be evicted to make room for the target's. */
  function Evictable(runs: Runs, target: RunId): set<RunId> {
    set id | id in runs && id != target && runs[id].resolution.Some? && runs[id].artifact.Some?
             && (runs[id].artifact.value.stored == Complete || runs[id].artifact.value.stored == Truncated)
  }

  /** Earliest resolution first, then earliest creation, then identifier. */
  predicate Before(runs: Runs, a: RunId, b: RunId)
    requires a in runs && b in runs && runs[a].resolution.Some? && runs[b].resolution.Some?
  {
    var x, y := runs[a], runs[b];
    || x.resolution.value.resolvedAt < y.resolution.value.resolvedAt
    || (x.resolution.value.resolvedAt == y.resolution.value.resolvedAt
        && (x.createdAt < y.createdAt || (x.createdAt == y.createdAt && a < b)))
  }

  lemma {:induction false} FirstExists(runs: Runs, ids: set<RunId>) returns (k: RunId)
    requires ids != {} && ids <= runs.Keys && forall id :: id in ids ==> runs[id].resolution.Some?
    ensures k in ids && forall j :: j in ids ==> j == k || Before(runs, k, j)
    decreases |ids|
  {
    k :| k in ids;
    if ids != {k} {
      var rest := ids - {k};
      var m := FirstExists(runs, rest);
      var first := if Before(runs, m, k) then m else k;
      assert forall j :: j in ids ==> j == k || j in rest;
      k := first;
    }
  }

  /** The first of them, as a function. */
  ghost function FirstIn(runs: Runs, ids: set<RunId>): (k: RunId)
    requires ids != {} && ids <= runs.Keys && forall id :: id in ids ==> runs[id].resolution.Some?
    ensures k in ids && forall j :: j in ids ==> j == k || Before(runs, k, j)
  {
    assert exists k :: k in ids && forall j :: j in ids ==> j == k || Before(runs, k, j) by {
      var first := FirstExists(runs, ids);
    }
    var k :| k in ids && forall j :: j in ids ==> j == k || Before(runs, k, j);
    k
  }

  // ---------------------------------------------------------------- eviction

  function ExpireAll(runs: Runs, gone: set<RunId>): Runs
    requires forall id :: id in gone && id in runs ==> runs[id].artifact.Some?
  {
    map id | id in runs :: if id in gone then Expire(runs[id]) else runs[id]
  }

  function FileSize(bodies: Bodies, target: RunId): Option<nat> {
    if target in bodies then Some(|bodies[target]|) else None
  }

  /** The directory has room for a body of this size at the target's place. */
  ghost predicate HasRoom(bodies: Bodies, target: RunId, size: nat) {
    NextCapacity(RegionCapacity(|bodies|, TotalSize(bodies, TextSize)), FileSize(bodies, target), size,
                 ARTIFACT_STORE_MAX_FILES, ARTIFACT_STORE_MAX_BYTES).Some?
  }

  function EarlierThan(runs: Runs, target: RunId, x: RunId): set<RunId>
    requires x in Evictable(runs, target)
  {
    set y | y in Evictable(runs, target) && Before(runs, y, x)
  }

  /** `gone` is a first stretch of the eviction order, and every shorter one left too little room. */
  ghost predicate EvictedPrefix(runs: Runs, bodies: Bodies, target: RunId, size: nat, gone: set<RunId>) {
    && gone <= Evictable(runs, target)
    && (forall x :: x in gone ==> EarlierThan(runs, target, x) <= gone)
    && (forall x :: x in gone ==> !HasRoom(bodies - EarlierThan(runs, target, x), target, size))
  }

  lemma EvictableAfter(runs: Runs, target: RunId, gone: set<RunId>)
    requires gone <= Evictable(runs, target)
    ensures Evictable(ExpireAll(runs, gone), target) == Evictable(runs, target) - gone
  {
  }

  lemma PrefixGrows(runs: Runs, bodies: Bodies, target: RunId, size: nat, gone: set<RunId>, k: RunId)
    requires EvictedPrefix(runs, bodies, target, size, gone)
    requires k in Evictable(runs, target) - gone && !HasRoom(bodies - gone, target, size)
    requires forall j :: j in Evictable(runs, target) - gone ==> j == k || Before(runs, k, j)
    ensures EvictedPrefix(runs, bodies, target, size, gone + {k})
  {
    hide HasRoom;
    assert EarlierThan(runs, target, k) == gone by {
      forall y | y in gone
        ensures Before(runs, y, k)
      {
        assert k !in EarlierThan(runs, target, y);
      }
      forall y | y in EarlierThan(runs, target, k)
        ensures y in gone
      {
        assert y in Evictable(runs, target) - gone || y in gone;
      }
    }
  }

  lemma ExpireOneMore(runs: Runs, gone: set<RunId>, k: RunId)
    requires k in runs && k !in gone
    requires forall id :: id in gone + {k} && id in runs ==> runs[id].artifact.Some?
    ensures ExpireAll(runs, gone)[k := Expire(runs[k])] == ExpireAll(runs, gone + {k})
  {
  }

  lemma NothingEvicted(runs: Runs, bodies: Bodies, target: RunId, size: nat)
    ensures EvictedPrefix(runs, bodies, target, size, {}) && ExpireAll(runs, {}) == runs && bodies - {} == bodies
  {
  }

  lemma NoneExpired(runs: Runs, target: RunId)
    ensures {} <= Evictable(runs, target) && ExpireAll(runs, {}) == runs
  {
  }

  /** One round of the eviction loop, seen from its start. */
  lemma EvictOneMore(runs: Runs, bodies: Bodies, target: RunId, size: nat, gone: set<RunId>, k: RunId)
    requires EvictedPrefix(runs, bodies, target, size, gone) && !HasRoom(bodies - gone, target, size)
    requires k in Evictable(ExpireAll(runs, gone), target)
    requires forall j :: j in Evictable(ExpireAll(runs, gone), target) ==> j == k || Before(ExpireAll(runs, gone), k, j)
    ensures k in runs && k !in gone && k != target && ExpireAll(runs, gone)[k] == runs[k]
    ensures EvictedPrefix(runs, bodies, target, size, gone + {k})
    ensures ExpireAll(runs, gone)[k := Expire(runs[k])] == ExpireAll(runs, gone + {k})
    ensures bodies - gone - {k} == bodies - (gone + {k})
  {
    hide HasRoom;
    EvictableAfter(runs, target, gone);
    forall j | j in Evictable(runs, target) - gone
      ensures j == k || Before(runs, k, j)
    {
      assert ExpireAll(runs, gone)[j] == runs[j];
    }
    PrefixGrows(runs, bodies, target, size, gone, k);
    ExpireOneMore(runs, gone, k);
  }

  lemma TargetIsKept(runs: Runs, bodies: Bodies, target: RunId, size: nat, gone: set<RunId>)
    requires EvictedPrefix(runs, bodies, target, size, gone)
    ensures gone <= Evictable(runs, target)
    ensures target in runs ==> target in ExpireAll(runs, gone) && ExpireAll(runs, gone)[target] == runs[target]
  {
  }

  lemma FewerLeft(all: set<RunId>, gone: set<RunId>, k: RunId)
    requires k in all && k !in gone
    ensures |all - (gone + {k})| < |all - gone|
  {
    assert all - gone == (all - (gone + {k})) + {k};
  }

  // ---------------------------------------------------------------- what is given up, run by run, in the fields of the records

  /** A resolved run with a body. */
  ghost predicate HoldsResponse(r: RunRecord) {
    r.resolution.Some? && r.artifact.Some? && (r.artifact.value.stored == Complete || r.artifact.value.stored == Truncated)
  }

  /** Earlier resolved; or at the same time but created earlier; or, both alike, with the smaller identifier. */
  ghost predicate ResolvedEarlier(runs: Runs, y: RunId, x: RunId)
    requires x in runs && y in runs && runs[x].resolution.Some? && runs[y].resolution.Some?
  {
    var ry, rx := runs[y].resolution.value.resolvedAt, runs[x].resolution.value.resolvedAt;
    ry < rx || (ry == rx && runs[y].createdAt < runs[x].createdAt) || (ry == rx && runs[y].createdAt == runs[x].createdAt && y < x)
  }

  /** Written at the target's place, the body leaves at most 4096 files and 64 MiB. */
  ghost predicate BodyFits(bodies: Bodies, target: RunId, size: nat) {
    |bodies - {target}| + 1 <= 4096 && TotalSize(bodies - {target}, TextSize) + size <= 64 * 1_048_576
  }

  lemma TextSizeIsLength(t: Text)
    ensures TextSize(t) == |t|
  {
  }

  lemma RoomIsFit(bodies: Bodies, target: RunId, size: nat)
    ensures HasRoom(bodies, target, size) <==> BodyFits(bodies, target, size)
  {
    if target in bodies {
      TotalWithout(bodies, TextSize, target);
      assert bodies.Keys == (bodies - {target}).Keys + {target};
    } else {
      assert bodies - {target} == bodies;
    }
  }

  lemma RoomGrows(bodies: Bodies, target: RunId, size: nat, few: set<RunId>, many: set<RunId>)
    requires few <= many && target !in many && HasRoom(bodies - few, target, size)
    ensures HasRoom(bodies - many, target, size)
  {
    hide HasRoom, TotalSize;
    RoomIsFit(bodies - few, target, size);
    RoomIsFit(bodies - many, target, size);
    TotalOfPart(bodies - few - {target}, TextSize, many);
    assert bodies - few - {target} - many == bodies - many - {target};
  }

  ghost function EarlierBodies(runs: Runs, target: RunId, x: RunId): set<RunId>
    requires x in runs && runs[x].resolution.Some?
  {
    set y | y in runs && y != target && HoldsResponse(runs[y]) && ResolvedEarlier(runs, y, x)
  }

  /** Nothing is given up unless, with everything resolved earlier given up, the body still does not fit. */
  ghost predicate GivenUpForRoom(runs: Runs, bodies: Bodies, target: RunId, size: nat, gone: set<RunId>) {
    forall x :: x in gone ==>
      && x in runs && x != target && HoldsResponse(runs[x])
      && !BodyFits(bodies - EarlierBodies(runs, target, x), target, size)
  }

  /** And when the body fits in the end, everything of that kind was given up. */
  ghost predicate KeptAboveRoom(runs: Runs, bodies: Bodies, target: RunId, size: nat, gone: set<RunId>) {
    forall x :: x in runs && x != target && HoldsResponse(runs[x]) && x !in gone ==>
      BodyFits(bodies - EarlierBodies(runs, target, x), target, size)
  }

  lemma EvictedInFields(runs: Runs, bodies: Bodies, target: RunId, size: nat, gone: set<RunId>)
    requires EvictedPrefix(runs, bodies, target, size, gone)
    ensures GivenUpForRoom(runs, bodies, target, size, gone)
    ensures HasRoom(bodies - gone, target, size) ==> KeptAboveRoom(runs, bodies, target, size, gone)
  {
    hide HasRoom, BodyFits;
    forall x | x in Evictable(runs, target)
      ensures EarlierThan(runs, target, x) == EarlierBodies(runs, target, x)
    {
    }
    forall x | x in gone
      ensures !BodyFits(bodies - EarlierBodies(runs, target, x), target, size)
    {
      RoomIsFit(bodies - EarlierThan(runs, target, x), target, size);
    }
    forall x | x in runs && x != target && HoldsResponse(runs[x]) && x !in gone && HasRoom(bodies - gone, target, size)
      ensures BodyFits(bodies - EarlierBodies(runs, target, x), target, size)
    {
      assert gone <= EarlierThan(runs, target, x);
      RoomGrows(bodies, target, size, gone, EarlierThan(runs, target, x));
      RoomIsFit(bodies - EarlierThan(runs, target, x), target, size);
    }
  }

  /** The next value of a run whose body is given up. */
  ghost predicate GivenUpAs(r: RunRecord, next: RunRecord) {
    && r.artifact.Some?
    && next == r.(artifact := Some(r.artifact.value.(fileName := None, stored := Expired)),
                  revision := if r.revision < 0xFFFF_FFFF_FFFF_FFFF then r.revision + 1 else r.revision)
  }

  lemma ExpireIsGivenUp(r: RunRecord)
    requires r.artifact.Some?
    ensures GivenUpAs(r, Expire(r))
  {
  }

  lemma AllGivenUp(runs: Runs, gone: set<RunId>)
    requires forall id :: id in gone && id in runs ==> runs[id].artifact.Some?
    ensures forall id :: id in gone && id in runs ==> GivenUpAs(runs[id], ExpireAll(runs, gone)[id])
  {
    hide GivenUpAs, Expire;
    forall id | id in gone && id in runs
      ensures GivenUpAs(runs[id], ExpireAll(runs, gone)[id])
    {
      ExpireIsGivenUp(runs[id]);
    }
  }

  // ---------------------------------------------------------------- storing a response

  predicate Decodes(c: Codec, response: Response) {
    && response.body.Some?
    && |response.body.value| == response.storedBytes
    && Sha256(response.body.value) == response.storedDigest
    && c.isUtf8(response.body.value)
  }

  predicate Consistent(response: Response) {
    && response.storedBytes <= RESPONSE_ARTIFACT_BODY_MAX_BYTES
    && (response.truncated <==> response.storedBytes != response.originalBytes)
    && (!response.truncated ==> response.originalDigest == response.storedDigest)
  }

  /** What the run records; without room the body is dropped and only its description stays. */
  function Metadata(run: RunRecord, response: Response, source: Text, at: int, kept: bool): Artifact {
    Artifact(run.runId, run.operationId, run.binding.session, run.binding.process, response.originalBytes, response.storedBytes,
             response.originalDigest, Some(response.storedDigest), response.provider,
             if !kept then Unavailable else if response.truncated then Truncated else Complete,
             source, at, if kept then Some(run.runId) else None)
  }

  /** A Stop without a response records an empty, unavailable artifact. */
  function NoResponse(run: RunRecord, at: int): Artifact {
    Artifact(run.runId, run.operationId, run.binding.session, run.binding.process, 0, 0, Sha256([]), None, ProviderUnknown,
             Unavailable, Ascii("provider_hook"), at, None)
  }

  function WithArtifact(run: RunRecord, a: Artifact, at: int): Option<RunRecord> {
    if run.revision >= U64_MAX then None
    else Some(run.(artifact := Some(a), revision := run.revision + 1, updatedAt := Max(run.updatedAt, at)))
  }

  /** The run still accepts this response: it has none, or the same one whose body was not available. */
  predicate Receptive(run: RunRecord, response: Response) {
    run.artifact.Some? ==>
      && run.artifact.value.originalDigest == response.originalDigest
      && run.artifact.value.originalBytes == response.originalBytes
      && run.artifact.value.stored == Unavailable
  }

  lemma ResponseIsAccepted(c: Codec, run: RunRecord, response: Response, source: Text, at: int, kept: bool)
    requires ValidRun(c, run) && DistinctEvents(run) && run.outcome == Completed && Receptive(run, response)
    requires Decodes(c, response) && Consistent(response)
    requires ValidArtifact(Metadata(run, response, source, at, kept))
    requires WithArtifact(run, Metadata(run, response, source, at, kept), at).Some?
    ensures var run' := WithArtifact(run, Metadata(run, response, source, at, kept), at).value;
      && ValidRun(c, run') && RunReplacement(run, run') && SameButArtifact(run, run')
      && (run'.HasBody() <==> kept)
      && (kept ==> BodyMatches(c, run'.artifact.value, response.body.value))
  {
    var run' := WithArtifact(run, Metadata(run, response, source, at, kept), at).value;
    KeepsEvents(run, run');
  }

  /** A response as it may be stored: the transported body is intact and at most 512 KiB, and truncated if and only if it is said to be. */
  ghost predicate AcceptableResponse(c: Codec, response: Response) {
    && response.body.Some?
    && response.storedBytes == |response.body.value| <= 524_288
    && response.storedDigest == Sha256(response.body.value)
    && c.isUtf8(response.body.value)
    && (response.truncated <==> response.storedBytes != response.originalBytes)
    && (response.truncated || response.originalDigest == response.storedDigest)
  }

  lemma DecodesIsAcceptable(c: Codec, response: Response)
    ensures Decodes(c, response) && Consistent(response) <==> AcceptableResponse(c, response)
  {
  }

  /** The next value of a run that records this response; without room its body is dropped. */
  ghost predicate RecordsAs(run: RunRecord, next: RunRecord, response: Response, source: Text, at: int, kept: bool) {
    && next.artifact.Some?
    && var a := next.artifact.value;
       && next == run.(artifact := next.artifact, revision := run.revision + 1, updatedAt := if run.updatedAt < at then at else run.updatedAt)
       && a.runId == run.runId && a.operationId == run.operationId && a.session == run.binding.session && a.process == run.binding.process
       && a.originalBytes == response.originalBytes && a.originalDigest == response.originalDigest
       && a.storedBytes == response.storedBytes && a.storedDigest == Some(response.storedDigest)
       && a.provider == response.provider && a.source == source && a.observedAt == at
       && a.stored == (if !kept then Unavailable else if response.truncated then Truncated else Complete)
       && a.fileName == (if kept then Some(run.runId) else None)
  }

  lemma MetadataRecords(run: RunRecord, next: RunRecord, response: Response, source: Text, at: int, kept: bool)
    requires WithArtifact(run, Metadata(run, response, source, at, kept), at) == Some(next)
    ensures RecordsAs(run, next, response, source, at, kept)
  {
  }
}
