/** Parallel resumable copy: the sender cuts a file into fixed chunks and keeps
    a bounded set of workers sending them; the receiver writes each at its offset
    and keeps a bitmap of completed chunks. */
module ParallelCopy {
  import opened Wrappers
  import TransferDigest

  type Byte = bv8

  const CHUNK := 0x1_0000
  const MAX_CHUNKS := 0x10_0000

  // ----- The chunk grid -----

  function ChunkCount(size: nat): nat {
    (size + CHUNK - 1) / CHUNK
  }

  function Offset(index: nat): nat {
    index * CHUNK
  }

  function Length(size: nat, index: nat): nat {
    var left := if size >= Offset(index) then size - Offset(index) else 0;
    if left < CHUNK then left else CHUNK
  }

  predicate InChunk(size: nat, b: nat, index: nat) {
    index < ChunkCount(size) && Offset(index) <= b < Offset(index) + Length(size, index)
  }

  /** The chunk ranges tile the file: consecutive, none empty, none longer than a
      chunk, and each byte in exactly one, the one its position divided by the
      chunk size names. */
  lemma RangesTile(size: nat)
    ensures ChunkCount(size) == 0 <==> size == 0
    ensures forall i: nat | i < ChunkCount(size) ::
              && 1 <= Length(size, i) <= CHUNK
              && Offset(i) + Length(size, i) == (if i + 1 == ChunkCount(size) then size else Offset(i + 1))
    ensures forall b: nat, i: nat | b < size :: InChunk(size, b, i) <==> i == b / CHUNK
  {
  }

  function Slice(file: seq<Byte>, index: nat): (r: seq<Byte>)
    requires index < ChunkCount(|file|)
    ensures |r| == Length(|file|, index)
  {
    file[Offset(index)..Offset(index) + Length(|file|, index)]
  }

  function Joined(file: seq<Byte>, upTo: nat): seq<Byte>
    requires upTo <= ChunkCount(|file|)
  {
    if upTo == 0 then [] else Joined(file, upTo - 1) + Slice(file, upTo - 1)
  }

  lemma {:induction false} JoinedIsPrefix(file: seq<Byte>, upTo: nat)
    requires upTo <= ChunkCount(|file|)
    ensures Offset(upTo) <= |file| || upTo == ChunkCount(|file|)
    ensures Joined(file, upTo) == file[..if upTo == ChunkCount(|file|) then |file| else Offset(upTo)]
  {
    if upTo > 0 {
      JoinedIsPrefix(file, upTo - 1);
    }
  }

  /** The slices in order are the file. */
  lemma SlicesAreTheFile(file: seq<Byte>)
    ensures Joined(file, ChunkCount(|file|)) == file
  {
    JoinedIsPrefix(file, ChunkCount(|file|));
    assert file[..|file|] == file;
  }

  // ----- Requests -----

  datatype Operation = Prepare | Chunk | Finalize

  datatype Request = Request(operation: Operation, size: nat, chunkSize: nat, chunkCount: nat,
                             index: nat, offset: nat, len: nat, chunkDigest: seq<Byte>)

  /** What the receiver demands of a request before acting on it. */
  predicate ValidRequest(r: Request) {
    && r.chunkSize == CHUNK
    && r.chunkCount == ChunkCount(r.size) && r.chunkCount <= MAX_CHUNKS
    && (if r.operation.Chunk?
        then r.index < r.chunkCount && r.offset == Offset(r.index) && r.len == Length(r.size, r.index)
        else r.index == 0 && r.offset == 0 && r.len == 0)
  }

  /** Exactly which requests the receiver acts on: chunks of 64 KiB, as many as
      the size takes and at most 2^20, and a chunk request for one of them that
      starts where it starts and reaches its end or the file's. */
  lemma RequestIsValidExactly(r: Request)
    ensures ValidRequest(r) <==>
            && r.chunkSize == 65536 && r.chunkCount <= 1048576
            && r.size <= 65536 * r.chunkCount < r.size + 65536
            && (r.operation != Chunk ==> r.index == 0 && r.offset == 0 && r.len == 0)
            && (r.operation == Chunk ==>
                && r.index < r.chunkCount && r.offset == 65536 * r.index && 0 < r.len <= 65536
                && r.offset + r.len <= r.size && (r.len < 65536 ==> r.offset + r.len == r.size))
  {
  }

  function ControlRequest(operation: Operation, size: nat): Request {
    Request(operation, size, CHUNK, ChunkCount(size), 0, 0, 0, seq(32, _ => 0))
  }

  /** What the sender asks before and after the chunks, and the receiver takes. */
  lemma ControlRequestsAreTaken(operation: Operation, size: nat)
    ensures var r := ControlRequest(operation, size);
            && r.operation == operation && r.size == size && r.chunkDigest == seq(32, _ => 0)
            && (operation != Chunk && size <= 65536 * 1048576 ==> ValidRequest(r))
            && (size > 65536 * 1048576 ==> !ValidRequest(r))
  {
  }

  function ChunkRequest(file: seq<Byte>, index: nat): Request
    requires index < ChunkCount(|file|)
  {
    ControlRequest(Chunk, |file|).(index := index, offset := Offset(index), len := Length(|file|, index),
                                   chunkDigest := TransferDigest.Digest(Slice(file, index)))
  }

  predicate ReceiverTakes(r: Request, payload: seq<Byte>) {
    ValidRequest(r) && |payload| == r.len && TransferDigest.Digest(payload) == r.chunkDigest
  }

  /** Up to the receiver's limit every chunk the sender cuts is taken, and the
      same chunk with one byte altered on the way never is. */
  lemma HonestChunksAreTaken(file: seq<Byte>, index: nat, at: nat, b: Byte)
    requires index < ChunkCount(|file|) <= MAX_CHUNKS && at < Length(|file|, index)
    ensures ReceiverTakes(ChunkRequest(file, index), Slice(file, index))
    ensures b != Slice(file, index)[at] ==> !ReceiverTakes(ChunkRequest(file, index), Slice(file, index)[at := b])
  {
    hide TransferDigest.Digest;
    var s := Slice(file, index);
    if b != s[at] {
      TransferDigest.OneByteChangesDigest(s, s[at := b], at);
    }
  }

  // ----- The sender's worker pool -----

  datatype Action = Spawn(index: nat) | Acked(index: nat) | Failed(index: nat) | SendFinalize

  function Moved(flying: set<nat>, a: Action): set<nat> {
    match a
    case Spawn(i) => flying + {i}
    case Acked(i) => flying - {i}
    case Failed(i) => flying - {i}
    case SendFinalize => flying
  }

  /** Chunks spawned and not yet joined. */
  function InFlight(trace: seq<Action>): set<nat> {
    if trace == [] then {} else Moved(InFlight(trace[..|trace| - 1]), trace[|trace| - 1])
  }

  function AckedIn(trace: seq<Action>): set<nat> {
    if trace == [] then {}
    else
      var a := trace[|trace| - 1];
      AckedIn(trace[..|trace| - 1]) + if a.Acked? then {a.index} else {}
  }

  function SpawnedIn(trace: seq<Action>): set<nat> {
    if trace == [] then {}
    else
      var a := trace[|trace| - 1];
      SpawnedIn(trace[..|trace| - 1]) + if a.Spawn? then {a.index} else {}
  }

  predicate IsIndex(size: nat, index: nat) {
    index < ChunkCount(size)
  }

  /** The chunks below `upTo` the remote does not have. */
  function Lacking(size: nat, completed: set<nat>, upTo: nat): set<nat> {
    set i: nat | i < upTo && IsIndex(size, i) && i !in completed
  }

  function Bound(parallel: nat): nat {
    if parallel == 0 then 1 else parallel
  }

  lemma LackingGrows(size: nat, completed: set<nat>, upTo: nat)
    requires upTo <= ChunkCount(size)
    ensures Lacking(size, completed, upTo) <= Lacking(size, completed, ChunkCount(size))
  {
  }

  predicate Finalizes(trace: seq<Action>) {
    trace != [] && trace[|trace| - 1].SendFinalize?
  }

  /** What one more action must respect: never more workers than asked for, one
      spawn per chunk the remote lacks, joins only of workers in flight, and
      Finalize once, last, with nobody in flight and every chunk accounted for. */
  ghost predicate LegalStep(before: seq<Action>, a: Action, size: nat, completed: set<nat>, parallel: nat) {
    && !Finalizes(before)
    && |Moved(InFlight(before), a)| <= Bound(parallel)
    && (a.Spawn? ==> IsIndex(size, a.index) && a.index !in completed && a.index !in SpawnedIn(before))
    && (a.Acked? || a.Failed? ==> a.index in InFlight(before))
    && (a.SendFinalize? ==> InFlight(before) == {} && forall i | IsIndex(size, i) :: i in completed || i in AckedIn(before))
  }

  ghost predicate Disciplined(trace: seq<Action>, size: nat, completed: set<nat>, parallel: nat) {
    trace == [] ||
    (&& Disciplined(trace[..|trace| - 1], size, completed, parallel)
     && LegalStep(trace[..|trace| - 1], trace[|trace| - 1], size, completed, parallel))
  }

  lemma LastStep(trace: seq<Action>, size: nat, completed: set<nat>, parallel: nat)
    requires trace != [] && Disciplined(trace, size, completed, parallel)
    ensures !Finalizes(trace[..|trace| - 1]) && |InFlight(trace)| <= Bound(parallel)
  {
  }

  /** So at every point of a disciplined trace the pool is within its bound, and
      wherever Finalize stands it is the end and every chunk is accounted for. */
  lemma {:induction false} DisciplineHoldsThroughout(trace: seq<Action>, size: nat, completed: set<nat>, parallel: nat, k: nat)
    requires Disciplined(trace, size, completed, parallel) && k <= |trace|
    ensures |InFlight(trace[..k])| <= Bound(parallel)
    ensures parallel >= 1 ==> |InFlight(trace[..k])| <= parallel
    ensures parallel == 0 ==> |InFlight(trace[..k])| <= 1
    ensures k < |trace| ==> LegalStep(trace[..k], trace[k], size, completed, parallel)
    ensures k < |trace| && trace[k].SendFinalize? ==> k == |trace| - 1
  {
    hide LegalStep;
    assert trace[..|trace|] == trace;
    if k < |trace| {
      var before := trace[..|trace| - 1];
      DisciplineHoldsThroughout(before, size, completed, parallel, k);
      assert before[..k] == trace[..k];
      if k < |trace| - 1 {
        assert before[k] == trace[k];
        assert trace[k].SendFinalize? ==> k == |before| - 1 && Finalizes(before);
        assert !Finalizes(before) by {
          LastStep(trace, size, completed, parallel);
        }
      }
    } else if k > 0 {
      LastStep(trace, size, completed, parallel);
    }
  }

  /** What the remote answers to Prepare. */
  datatype Resume = Resume(completedIndices: seq<nat>, rejected: bool)

  datatype CopyError = PrepareRejected | InvalidIndex | ChunkNotSent | AuthorizationMissing | FinalizeRejected

  function Elements(s: seq<nat>): set<nat> {
    set i | i in s
  }

  lemma LastBound(trace: seq<Action>, size: nat, completed: set<nat>, parallel: nat)
    requires Disciplined(trace, size, completed, parallel)
    ensures |InFlight(trace)| <= Bound(parallel)
  {
    if trace != [] {
      LastStep(trace, size, completed, parallel);
    }
  }

  /** One copy: its size, what the remote had, how many workers, for which chunks
      an authorization can be loaded, and which the remote will acknowledge. */
  datatype Copy = Copy(size: nat, completed: set<nat>, parallel: nat, loads: nat -> bool, acks: nat -> bool) {
    predicate Delivers(i: nat) {
      loads(i) && acks(i)
    }
  }

  ghost predicate Pooled(c: Copy, trace: seq<Action>, workers: set<nat>) {
    workers == InFlight(trace) && !Finalizes(trace) && Disciplined(trace, c.size, c.completed, c.parallel)
  }

  /** The chunks below `next` the remote lacks are in flight or acknowledged. */
  ghost predicate Running(c: Copy, trace: seq<Action>, workers: set<nat>, next: nat) {
    && Pooled(c, trace, workers)
    && SpawnedIn(trace) == Lacking(c.size, c.completed, next) == workers + AckedIn(trace)
    && (forall i | i in AckedIn(trace) :: c.acks(i)) && (forall i | i in SpawnedIn(trace) :: c.loads(i))
  }

  lemma Extend(c: Copy, trace: seq<Action>, a: Action)
    requires Disciplined(trace, c.size, c.completed, c.parallel)
    requires LegalStep(trace, a, c.size, c.completed, c.parallel)
    ensures InFlight(trace + [a]) == Moved(InFlight(trace), a)
    ensures AckedIn(trace + [a]) == AckedIn(trace) + if a.Acked? then {a.index} else {}
    ensures SpawnedIn(trace + [a]) == SpawnedIn(trace) + if a.Spawn? then {a.index} else {}
    ensures Disciplined(trace + [a], c.size, c.completed, c.parallel)
  {
    hide LegalStep;
    assert (trace + [a])[..|trace|] == trace;
  }

  lemma SpawnKeeps(c: Copy, trace: seq<Action>, workers: set<nat>, index: nat)
    requires Running(c, trace, workers, index) && |workers| < Bound(c.parallel)
    requires IsIndex(c.size, index) && index !in c.completed && c.loads(index)
    ensures Running(c, trace + [Spawn(index)], workers + {index}, index + 1)
  {
    hide InFlight, AckedIn, SpawnedIn, Disciplined;
    assert index !in Lacking(c.size, c.completed, index);
    Extend(c, trace, Spawn(index));
    assert Lacking(c.size, c.completed, index + 1) == Lacking(c.size, c.completed, index) + {index};
    hide Lacking;
    assert workers + {index} + AckedIn(trace) == (workers + AckedIn(trace)) + {index};
  }

  lemma JoinIsLegal(c: Copy, trace: seq<Action>, workers: set<nat>, a: Action)
    requires Pooled(c, trace, workers) && (a.Acked? || a.Failed?) && a.index in workers
    ensures |workers - {a.index}| < |workers|
    ensures LegalStep(trace, a, c.size, c.completed, c.parallel)
  {
    LastBound(trace, c.size, c.completed, c.parallel);
    hide InFlight, AckedIn, SpawnedIn, Disciplined, IsIndex;
  }

  lemma FailKeeps(c: Copy, trace: seq<Action>, workers: set<nat>, i: nat)
    requires Pooled(c, trace, workers) && i in workers
    ensures Pooled(c, trace + [Failed(i)], workers - {i})
  {
    hide InFlight, AckedIn, SpawnedIn, Disciplined, LegalStep;
    JoinIsLegal(c, trace, workers, Failed(i));
    Extend(c, trace, Failed(i));
  }

  lemma AckKeeps(c: Copy, trace: seq<Action>, workers: set<nat>, next: nat, i: nat)
    requires Running(c, trace, workers, next) && i in workers && c.acks(i)
    ensures Running(c, trace + [Acked(i)], workers - {i}, next)
  {
    hide InFlight, AckedIn, SpawnedIn, Disciplined, Lacking, LegalStep;
    JoinIsLegal(c, trace, workers, Acked(i));
    Extend(c, trace, Acked(i));
    assert workers - {i} + (AckedIn(trace) + {i}) == workers + AckedIn(trace);
  }

  lemma SkipKeeps(c: Copy, trace: seq<Action>, workers: set<nat>, index: nat)
    requires Running(c, trace, workers, index) && index in c.completed
    ensures Running(c, trace, workers, index + 1)
  {
    assert Lacking(c.size, c.completed, index + 1) == Lacking(c.size, c.completed, index);
  }

  lemma FinalizeKeeps(c: Copy, trace: seq<Action>)
    requires Running(c, trace, {}, ChunkCount(c.size))
    ensures Disciplined(trace + [SendFinalize], c.size, c.completed, c.parallel)
    ensures forall i | i in Lacking(c.size, c.completed, ChunkCount(c.size)) :: c.Delivers(i)
  {
    hide InFlight, AckedIn, SpawnedIn, Disciplined;
    forall i | IsIndex(c.size, i) && i !in c.completed
      ensures i in AckedIn(trace)
    {
      assert i in Lacking(c.size, c.completed, ChunkCount(c.size));
    }
    Extend(c, trace, SendFinalize);
  }

  lemma UnfinishedPool(c: Copy, trace: seq<Action>, workers: set<nat>)
    requires Pooled(c, trace, workers)
    ensures !Finalizes(trace) && Disciplined(trace, c.size, c.completed, c.parallel)
  {
  }

  lemma UnfinishedRun(c: Copy, trace: seq<Action>, workers: set<nat>, next: nat)
    requires Running(c, trace, workers, next)
    ensures !Finalizes(trace) && Disciplined(trace, c.size, c.completed, c.parallel)
  {
  }

  lemma LackingHas(c: Copy, index: nat)
    requires index < ChunkCount(c.size) && index !in c.completed
    ensures index in Lacking(c.size, c.completed, ChunkCount(c.size))
  {
  }

  lemma RunningPool(c: Copy, trace: seq<Action>, workers: set<nat>, next: nat, i: nat)
    requires Running(c, trace, workers, next) && i in workers
    ensures Pooled(c, trace, workers) && i in Lacking(c.size, c.completed, next)
    ensures |workers - {i}| < |workers|
  {
    hide Pooled, Lacking;
  }

  class WorkerPool {
    const copy: Copy
    var workers: set<nat>
    var trace: seq<Action>

    constructor (copy: Copy)
      ensures this.copy == copy && workers == {} && Running(copy, trace, workers, 0)
    {
      this.copy, workers, trace := copy, {}, [];
    }

    method Start(index: nat)
      requires Running(copy, trace, workers, index) && |workers| < Bound(copy.parallel)
      requires IsIndex(copy.size, index) && index !in copy.completed && copy.loads(index)
      modifies this
      ensures Running(copy, trace, workers, index + 1) && workers == old(workers) + {index}
    {
      hide Running;
      SpawnKeeps(copy, trace, workers, index);
      trace, workers := trace + [Spawn(index)], workers + {index};
    }

    /** Waits for whichever worker ends first; false when it failed. */
    method JoinNext(ghost next: nat) returns (ok: bool)
      requires Running(copy, trace, workers, next) && workers != {}
      modifies this
      ensures |workers| < |old(workers)|
      ensures ok ==> Running(copy, trace, workers, next)
      ensures !ok ==> Pooled(copy, trace, workers)
      ensures !ok ==> exists i | i in Lacking(copy.size, copy.completed, next) :: !copy.Delivers(i)
    {
      var i :| i in workers;
      ok := copy.acks(i);
      RunningPool(copy, trace, workers, next, i);
      assert !ok ==> !copy.Delivers(i);
      hide Running, Pooled, Lacking;
      if ok {
        AckKeeps(copy, trace, workers, next, i);
      } else {
        FailKeeps(copy, trace, workers, i);
      }
      trace, workers := trace + [if ok then Acked(i) else Failed(i)], workers - {i};
    }
  }

  /** Keeps the pool full until every chunk the remote lacks is acknowledged, or
      stops at the first failure. */
  method SendChunks(copy: Copy) returns (ok: bool, trace: seq<Action>)
    ensures ok ==> Running(copy, trace, {}, ChunkCount(copy.size))
    ensures !ok ==> !Finalizes(trace) && Disciplined(trace, copy.size, copy.completed, copy.parallel)
    ensures !ok ==> exists i | i in Lacking(copy.size, copy.completed, ChunkCount(copy.size)) :: !copy.Delivers(i)
  {
    hide Running, Pooled, Disciplined, Lacking, ChunkCount, Finalizes;
    var pool := new WorkerPool(copy);
    var index := 0;
    while index < ChunkCount(copy.size)
      invariant fresh(pool) && pool.copy == copy && index <= ChunkCount(copy.size)
      invariant Running(copy, pool.trace, pool.workers, index) && |pool.workers| < Bound(copy.parallel)
    {
      if index in copy.completed {
        SkipKeeps(copy, pool.trace, pool.workers, index);
      } else {
        if !copy.loads(index) {
          LackingHas(copy, index);
          UnfinishedRun(copy, pool.trace, pool.workers, index);
          return false, pool.trace;
        }
        pool.Start(index);
        if |pool.workers| >= copy.parallel {
          ok := pool.JoinNext(index + 1);
          if !ok {
            LackingGrows(copy.size, copy.completed, index + 1);
            UnfinishedPool(copy, pool.trace, pool.workers);
            return false, pool.trace;
          }
        }
      }
      index := index + 1;
    }
    while pool.workers != {}
      invariant fresh(pool) && pool.copy == copy && Running(copy, pool.trace, pool.workers, index)
      decreases |pool.workers|
    {
      ok := pool.JoinNext(index);
      if !ok {
        UnfinishedPool(copy, pool.trace, pool.workers);
        return false, pool.trace;
      }
    }
    return true, pool.trace;
  }

  /** Sends every chunk the remote lacks and then Finalize. `loads` and
      `finalLoads` say for which requests an authorization can be loaded, `acks`
      which chunks the remote acknowledges; the order in which workers end is free. */
  method RunCopy(size: nat, parallel: nat, resume: Resume, loads: nat -> bool, acks: nat -> bool,
                 finalLoads: bool, finalizeAccepted: bool)
    returns (r: Result<(), CopyError>, trace: seq<Action>)
    ensures Disciplined(trace, size, Elements(resume.completedIndices), parallel)
    ensures Finalizes(trace) <==>
            !resume.rejected && (forall i | i in resume.completedIndices :: i < ChunkCount(size)) && finalLoads &&
            forall i | i in Lacking(size, Elements(resume.completedIndices), ChunkCount(size)) :: loads(i) && acks(i)
    ensures r.Ok? <==> Finalizes(trace) && finalizeAccepted
    ensures resume.rejected || (exists i | i in resume.completedIndices :: i >= ChunkCount(size)) ==> trace == []
  {
    if resume.rejected {
      return Err(PrepareRejected), [];
    }
    if exists i | i in resume.completedIndices :: i >= ChunkCount(size) {
      return Err(InvalidIndex), [];
    }
    hide Running, Pooled, Disciplined, Lacking, ChunkCount;
    var copy := Copy(size, Elements(resume.completedIndices), parallel, loads, acks);
    var ok;
    ok, trace := SendChunks(copy);
    if !ok {
      return Err(ChunkNotSent), trace;
    }
    if !finalLoads {
      UnfinishedRun(copy, trace, {}, ChunkCount(size));
      return Err(AuthorizationMissing), trace;
    }
    FinalizeKeeps(copy, trace);
    trace := trace + [SendFinalize];
    r := if finalizeAccepted then Ok(()) else Err(FinalizeRejected);
  }
}
