/** The receiving side of a parallel copy: a part file written chunk by chunk in
    any order, a bitmap of completed chunks beside it, and finalization by digest.
    Each request runs as its own task, so tasks interleave between the bitmap
    check, the write and the mark. */
module TransferReceiver {
  import opened Wrappers
  import opened ParallelCopy

  // ----- The completed-chunk bitmap -----

  type Bitmap = seq<bv8>

  function BitmapLength(chunkCount: nat): nat {
    (chunkCount + 7) / 8
  }

  function Bit(k: nat): bv8
    requires k < 8
  {
    1 << k
  }

  predicate IsCompleted(bits: Bitmap, index: nat) {
    index / 8 < |bits| && bits[index / 8] & Bit(index % 8) != 0
  }

  function Marked(bits: Bitmap, index: nat): (r: Bitmap)
    requires index / 8 < |bits|
    ensures |r| == |bits|
  {
    bits[index / 8 := bits[index / 8] | Bit(index % 8)]
  }

  function Blank(chunkCount: nat): (r: Bitmap)
    ensures |r| == BitmapLength(chunkCount) && forall k | 0 <= k < |r| :: r[k] == 0
  {
    seq(BitmapLength(chunkCount), _ => 0)
  }

  lemma BitsAreDistinct(byte: bv8, a: nat, b: nat)
    requires a < 8 && b < 8
    ensures (byte | Bit(a)) & Bit(b) != 0 <==> a == b || byte & Bit(b) != 0
  {
    assert a == 0 || a == 1 || a == 2 || a == 3 || a == 4 || a == 5 || a == 6 || a == 7;
    assert b == 0 || b == 1 || b == 2 || b == 3 || b == 4 || b == 5 || b == 6 || b == 7;
  }

  /** Marking completes that chunk and no other. */
  lemma MarkCompletesOne(bits: Bitmap, index: nat, other: nat)
    requires index / 8 < |bits|
    ensures IsCompleted(Marked(bits, index), other) <==> other == index || IsCompleted(bits, other)
  {
    hide Bit;
    if other / 8 == index / 8 {
      BitsAreDistinct(bits[index / 8], index % 8, other % 8);
    }
  }

  predicate AllCompleted(bits: Bitmap, chunkCount: nat) {
    forall i: nat | i < chunkCount :: IsCompleted(bits, i)
  }

  /** The completed indices, in order and once each. */
  method CompletedIndices(bits: Bitmap, chunkCount: nat) returns (r: seq<nat>)
    ensures forall i :: i in r <==> 0 <= i < chunkCount && IsCompleted(bits, i)
    ensures forall a, b | 0 <= a < b < |r| :: r[a] < r[b]
    ensures |r| == chunkCount <==> AllCompleted(bits, chunkCount)
  {
    hide IsCompleted;
    r := [];
    for i := 0 to chunkCount
      invariant forall k :: k in r <==> 0 <= k < i && IsCompleted(bits, k)
      invariant forall a, b | 0 <= a < b < |r| :: r[a] < r[b]
      invariant |r| <= i && (|r| == i <==> AllCompleted(bits, i))
    {
      assert forall a | 0 <= a < |r| :: r[a] in r;
      if IsCompleted(bits, i) {
        r := r + [i];
      }
    }
  }

  // ----- The part file -----

  function Written(part: seq<Byte>, offset: nat, payload: seq<Byte>): (r: seq<Byte>)
    requires offset + |payload| <= |part|
    ensures |r| == |part|
  {
    part[..offset] + payload + part[offset + |payload|..]
  }

  /** The part after the first bytes of a chunk are written at its offset. */
  function WithPrefix(file: seq<Byte>, part: seq<Byte>, index: nat, landed: nat): (r: seq<Byte>)
    requires |part| == |file| && index < ChunkCount(|file|)
    ensures |r| == |file|
    ensures forall b: nat | b < |file| ::
              r[b] == if b / CHUNK == index && b < Offset(index) + landed then file[b] else part[b]
  {
    RangesTile(|file|);
    assert forall b: nat | b < |file| :: InChunk(|file|, b, index) <==> b / CHUNK == index;
    var slice := Slice(file, index);
    Written(part, Offset(index), if landed < |slice| then slice[..landed] else slice)
  }

  function WithChunk(file: seq<Byte>, part: seq<Byte>, index: nat): (r: seq<Byte>)
    requires |part| == |file| && index < ChunkCount(|file|)
    ensures |r| == |file|
    ensures forall b: nat | b < |file| :: r[b] == if b / CHUNK == index then file[b] else part[b]
  {
    WithPrefix(file, part, index, CHUNK)
  }

  function WithChunks(file: seq<Byte>, part: seq<Byte>, order: seq<nat>): (r: seq<Byte>)
    requires |part| == |file| && forall k | 0 <= k < |order| :: order[k] < ChunkCount(|file|)
    ensures |r| == |file|
  {
    if order == [] then part
    else WithChunk(file, WithChunks(file, part, order[..|order| - 1]), order[|order| - 1])
  }

  /** Chunks written in any order, any number of times, replace exactly their own
      bytes; once every chunk has been written the part is the file. */
  lemma {:induction false} AnyOrderReassembles(file: seq<Byte>, part: seq<Byte>, order: seq<nat>)
    requires |part| == |file| && forall k | 0 <= k < |order| :: order[k] < ChunkCount(|file|)
    ensures forall b: nat | b < |file| ::
              WithChunks(file, part, order)[b] == if b / CHUNK in order then file[b] else part[b]
    ensures (forall i: nat | i < ChunkCount(|file|) :: i in order) ==> WithChunks(file, part, order) == file
  {
    if order != [] {
      AnyOrderReassembles(file, part, order[..|order| - 1]);
    }
    RangesTile(|file|);
    assert forall b: nat | b < |file| :: InChunk(|file|, b, b / CHUNK);
  }

  // ----- Tasks interleaving on one destination -----

  /** Where a chunk request stands. Checking, marking and acking hold the
      destination's lock; opening and writing do not, and a task that has the part
      open keeps the file it handle: `handle` says which. */
  datatype Task =
    | Checking(index: nat)
    | Opening(index: nat)
    | Writing(index: nat, handle: nat)
    | Marking(index: nat)
    | Acking(index: nat)
    | Answered(index: nat)
    | Broken

  /** The part at its path, how many part files have been made there, the bitmap
      in the state file, the chunk tasks, and the content in the store. The part at
      the path is always the last one made; earlier ones are open at most. */
  datatype Receiver = Receiver(part: Option<seq<Byte>>, made: nat, bits: Option<Bitmap>, tasks: seq<Task>,
                               stored: Option<seq<Byte>>)

  /** One transfer: the file being sent and the hash that names it. */
  datatype Transfer = Transfer(file: seq<Byte>, hash: seq<Byte> -> nat) {
    function Count(): nat {
      ChunkCount(|file|)
    }
  }

  /** A part file just created at its full length. */
  function Zeros(size: nat): (r: seq<Byte>)
    ensures |r| == size && forall b | 0 <= b < size :: r[b] == 0
  {
    seq(size, _ => 0)
  }

  /** The state file is for this transfer and the part file is there, or both start over. */
  function Ensured(t: Transfer, r: Receiver): (e: Receiver)
    ensures e.part.Some? && e.bits.Some? && |e.bits.value| == BitmapLength(t.Count())
    ensures e.tasks == r.tasks && e.stored == r.stored
  {
    if r.bits.Some? && |r.bits.value| == BitmapLength(t.Count()) && r.part.Some? then r
    else r.(part := Some(Zeros(|t.file|)), made := r.made + 1, bits := Some(Blank(t.Count())))
  }

  datatype Event =
    | Begin(seen: bool)                               // Prepare; `seen`: the store was found to hold the digest
    | Arrive(index: nat)                              // a chunk request passes validation and its digest check
    | Step(task: nat)
    | Fail(task: nat, landed: nat)                    // the task ends early, after writing this many bytes
    | Finish(seen: bool, commits: bool, cleans: bool) // Finalize; the commit and the removal of the state may fail
    | Crash(losesPart: bool, losesBits: bool)         // tasks are lost, and files being replaced

  /** A write by a task that has file number `handle` open changes the part only
      if that is the part at the path. */
  function WriteThrough(t: Transfer, r: Receiver, i: nat, handle: nat, landed: nat): Receiver {
    if r.part.Some? && handle == r.made && |r.part.value| == |t.file| && i < t.Count()
    then r.(part := Some(WithPrefix(t.file, r.part.value, i, landed)))
    else r
  }

  function StepTask(t: Transfer, r: Receiver, w: nat): Receiver
    requires w < |r.tasks|
  {
    match r.tasks[w]
    case Checking(i) =>
      var e := Ensured(t, r);
      e.(tasks := e.tasks[w := if IsCompleted(e.bits.value, i) then Acking(i) else Opening(i)])
    case Opening(i) => r.(tasks := r.tasks[w := if r.part.Some? then Writing(i, r.made) else Broken])
    case Writing(i, handle) => WriteThrough(t, r, i, handle, CHUNK).(tasks := r.tasks[w := Marking(i)])
    case Marking(i) =>
      var e := Ensured(t, r);
      e.(tasks := e.tasks[w := Acking(i)],
         bits := Some(if i / 8 < |e.bits.value| then Marked(e.bits.value, i) else e.bits.value))
    case Acking(i) =>
      var e := Ensured(t, r);
      e.(tasks := e.tasks[w := Answered(i)])
    case Answered(_) => r
    case Broken => r
  }

  function FailTask(t: Transfer, r: Receiver, w: nat, landed: nat): Receiver
    requires w < |r.tasks|
  {
    var wrote := if r.tasks[w].Writing? then WriteThrough(t, r, r.tasks[w].index, r.tasks[w].handle, landed) else r;
    wrote.(tasks := r.tasks[w := Broken])
  }

  predicate StoredGood(t: Transfer, r: Receiver) {
    r.stored.Some? && t.hash(r.stored.value) == t.hash(t.file)
  }

  /** Finalize: when the store was found to hold the digest only the state file
      goes. Otherwise, under the lock, the part is stored when every chunk is marked
      and the digest agrees, and part and state are thrown away when it does not. */
  function FinalizeNext(t: Transfer, r: Receiver, seen: bool, commits: bool, cleans: bool): (n: Receiver)
    ensures n.tasks == r.tasks
  {
    if seen && StoredGood(t, r) then r.(bits := if cleans then None else r.bits)
    else
      var e := Ensured(t, r);
      if !AllCompleted(e.bits.value, t.Count()) then e
      else if t.hash(e.part.value) != t.hash(t.file) then e.(part := None, bits := None)
      else if !commits then e
      else e.(part := None, bits := if cleans then None else e.bits, stored := if StoredGood(t, r) then r.stored else e.part)
  }

  function Next(t: Transfer, r: Receiver, e: Event): Receiver {
    match e
    case Begin(seen) => if seen && StoredGood(t, r) then r else Ensured(t, r)
    case Arrive(i) => if i < t.Count() then r.(tasks := r.tasks + [Checking(i)]) else r
    case Step(w) => if w < |r.tasks| then StepTask(t, r, w) else r
    case Fail(w, landed) => if w < |r.tasks| then FailTask(t, r, w, landed) else r
    case Finish(seen, commits, cleans) => FinalizeNext(t, r, seen, commits, cleans)
    case Crash(losesPart, losesBits) =>
      r.(tasks := [], part := if losesPart then None else r.part, bits := if losesBits then None else r.bits)
  }

  const Fresh := Receiver(None, 0, None, [], None)

  function RunFrom(t: Transfer, r: Receiver, es: seq<Event>): Receiver {
    if es == [] then r else Next(t, RunFrom(t, r, es[..|es| - 1]), es[|es| - 1])
  }

  function Run(t: Transfer, es: seq<Event>): Receiver {
    RunFrom(t, Fresh, es)
  }

  predicate ZeroChunk(t: Transfer, i: nat) {
    forall b: nat | b < |t.file| && b / CHUNK == i :: t.file[b] == 0
  }

  predicate Lost(r: Receiver) {
    r.part.None? || r.bits.None?
  }

  /** A Finalize after which part or state is gone left no task that has the part
      open or has written it and is yet to mark; and one that took only the state
      left no task about to open the part. Chunks of zeros, which is what a fresh
      part holds, do not matter. */
  predicate Harmless(t: Transfer, r: Receiver, e: Event)
    requires e.Finish?
  {
    var n := FinalizeNext(t, r, e.seen, e.commits, e.cleans);
    forall w | 0 <= w < |r.tasks| ::
      && ((r.tasks[w].Writing? || r.tasks[w].Marking?) && Lost(n) ==> ZeroChunk(t, r.tasks[w].index))
      && (r.tasks[w].Opening? && n.part.Some? && n.bits.None? ==> ZeroChunk(t, r.tasks[w].index))
  }

  predicate FinalizesHarmlessly(t: Transfer, es: seq<Event>) {
    es != [] ==>
      && FinalizesHarmlessly(t, es[..|es| - 1])
      && (es[|es| - 1].Finish? ==> Harmless(t, Run(t, es[..|es| - 1]), es[|es| - 1]))
  }

  /** Every Finalize comes when no chunk task stands between its check and its
      mark, as a sender that finalizes with nobody in flight provides. */
  predicate FinalizesSettled(t: Transfer, es: seq<Event>) {
    es != [] ==>
      && FinalizesSettled(t, es[..|es| - 1])
      && (es[|es| - 1].Finish? ==> Settled(Run(t, es[..|es| - 1])))
  }

  predicate Settled(r: Receiver) {
    forall w | 0 <= w < |r.tasks| :: !r.tasks[w].Opening? && !r.tasks[w].Writing? && !r.tasks[w].Marking?
  }

  predicate ChunkRight(t: Transfer, part: seq<Byte>, i: nat) {
    |part| == |t.file| && forall b: nat | b < |part| && b / CHUNK == i :: part[b] == t.file[b]
  }

  /** A chunk marked completed has the file's bytes in the part. */
  ghost predicate BitsRight(t: Transfer, part: seq<Byte>, bits: Bitmap) {
    forall i: nat | i < t.Count() && IsCompleted(bits, i) :: ChunkRight(t, part, i)
  }

  ghost predicate ZerosRight(t: Transfer, part: seq<Byte>) {
    forall i: nat | ZeroChunk(t, i) :: ChunkRight(t, part, i)
  }

  /** A task yet to mark has written its chunk to the part at the path, or still
      will, with the state file there too; or its chunk is all zeros. */
  ghost predicate TaskFine(t: Transfer, r: Receiver, task: Task) {
    match task
    case Checking(i) => i < t.Count()
    case Opening(i) => i < t.Count() && (r.part.Some? && r.bits.None? ==> ZeroChunk(t, i))
    case Writing(i, handle) =>
      i < t.Count() && handle <= r.made && (handle < r.made || Lost(r) ==> ZeroChunk(t, i))
    case Marking(i) =>
      i < t.Count() && (Lost(r) ==> ZeroChunk(t, i)) && (r.part.Some? ==> ChunkRight(t, r.part.value, i))
    case _ => true
  }

  ghost predicate FilesFine(t: Transfer, r: Receiver) {
    && (r.part.Some? ==> |r.part.value| == |t.file| && ZerosRight(t, r.part.value))
    && (r.bits.Some? ==> |r.bits.value| == BitmapLength(t.Count()))
    && (r.part.Some? && r.bits.Some? ==> BitsRight(t, r.part.value, r.bits.value))
    && (r.stored.Some? ==> r.stored.value == t.file)
  }

  /** Marked chunks are right, so is every chunk about to be marked, and what is
      stored is the file itself. */
  ghost predicate Faithful(t: Transfer, r: Receiver) {
    FilesFine(t, r) && forall w | 0 <= w < |r.tasks| :: TaskFine(t, r, r.tasks[w])
  }

  lemma BlankIsRight(t: Transfer, part: seq<Byte>)
    ensures BitsRight(t, part, Blank(t.Count()))
  {
    var bits := Blank(t.Count());
    forall i: nat | i < t.Count()
      ensures !IsCompleted(bits, i)
    {
      if i / 8 < |bits| {
        assert bits[i / 8] == 0;
      }
    }
  }

  lemma ZerosAreRight(t: Transfer, i: nat)
    ensures ChunkRight(t, Zeros(|t.file|), i) <==> ZeroChunk(t, i)
  {
  }

  lemma EnsuredFaithful(t: Transfer, r: Receiver)
    requires Faithful(t, r)
    ensures Faithful(t, Ensured(t, r))
  {
    hide BitsRight, ChunkRight, Blank, ZeroChunk;
    BlankIsRight(t, Zeros(|t.file|));
    forall i: nat
      ensures ChunkRight(t, Zeros(|t.file|), i) <==> ZeroChunk(t, i)
    {
      ZerosAreRight(t, i);
    }
  }

  /** A write leaves every right chunk right, and one that lands whole makes its own right. */
  lemma WriteKeeps(t: Transfer, part: seq<Byte>, i: nat, landed: nat, k: nat)
    requires |part| == |t.file| && i < t.Count()
    ensures landed >= CHUNK ==> ChunkRight(t, WithPrefix(t.file, part, i, landed), i)
    ensures ChunkRight(t, part, k) ==> ChunkRight(t, WithPrefix(t.file, part, i, landed), k)
  {
  }

  lemma WriteThroughFaithful(t: Transfer, r: Receiver, i: nat, handle: nat, landed: nat)
    requires Faithful(t, r)
    ensures var v := WriteThrough(t, r, i, handle, landed);
            && Faithful(t, v) && v == r.(part := v.part) && (v.part.Some? <==> r.part.Some?)
            && (r.part.Some? && handle == r.made && i < t.Count() && landed >= CHUNK ==> ChunkRight(t, v.part.value, i))
  {
    hide ChunkRight, WithPrefix, IsCompleted, ZeroChunk;
    if r.part.Some? && i < t.Count() {
      forall k: nat
        ensures landed >= CHUNK ==> ChunkRight(t, WithPrefix(t.file, r.part.value, i, landed), i)
        ensures ChunkRight(t, r.part.value, k) ==> ChunkRight(t, WithPrefix(t.file, r.part.value, i, landed), k)
      {
        WriteKeeps(t, r.part.value, i, landed, k);
      }
    }
  }

  lemma WriteFaithful(t: Transfer, r: Receiver, w: nat)
    requires Faithful(t, r) && w < |r.tasks| && r.tasks[w].Writing?
    ensures Faithful(t, StepTask(t, r, w))
  {
    hide ChunkRight, ZeroChunk, WriteThrough, BitsRight;
    assert TaskFine(t, r, r.tasks[w]);
    WriteThroughFaithful(t, r, r.tasks[w].index, r.tasks[w].handle, CHUNK);
  }

  lemma MarkFaithful(t: Transfer, r: Receiver, w: nat)
    requires Faithful(t, r) && w < |r.tasks| && r.tasks[w].Marking?
    ensures Faithful(t, StepTask(t, r, w))
  {
    hide ChunkRight, IsCompleted, Marked, ZeroChunk;
    EnsuredFaithful(t, r);
    var i, e := r.tasks[w].index, Ensured(t, r);
    assert TaskFine(t, r, r.tasks[w]) && TaskFine(t, e, e.tasks[w]);
    forall k: nat
      ensures IsCompleted(Marked(e.bits.value, i), k) <==> k == i || IsCompleted(e.bits.value, k)
    {
      MarkCompletesOne(e.bits.value, i, k);
    }
  }

  /** When every chunk is marked and marked chunks are right, the part is the file. */
  lemma CompleteIsTheFile(t: Transfer, part: seq<Byte>, bits: Bitmap)
    requires |part| == |t.file| && BitsRight(t, part, bits) && AllCompleted(bits, t.Count())
    ensures part == t.file
  {
    forall b: nat | b < |part|
      ensures part[b] == t.file[b]
    {
      RangesTile(|t.file|);
      assert InChunk(|t.file|, b, b / CHUNK);
      assert IsCompleted(bits, b / CHUNK);
      assert ChunkRight(t, part, b / CHUNK);
    }
  }

  lemma FinalizeFaithful(t: Transfer, r: Receiver, e: Event)
    requires e.Finish? && Faithful(t, r) && Harmless(t, r, e)
    ensures Faithful(t, FinalizeNext(t, r, e.seen, e.commits, e.cleans))
  {
    hide BitsRight, ChunkRight, AllCompleted, ZeroChunk;
    EnsuredFaithful(t, r);
    var d := Ensured(t, r);
    if AllCompleted(d.bits.value, t.Count()) {
      CompleteIsTheFile(t, d.part.value, d.bits.value);
    }
  }

  lemma StepFaithful(t: Transfer, r: Receiver, w: nat)
    requires Faithful(t, r) && w < |r.tasks|
    ensures Faithful(t, StepTask(t, r, w))
  {
    hide BitsRight, ChunkRight, ZeroChunk;
    EnsuredFaithful(t, r);
    assert TaskFine(t, r, r.tasks[w]);
    if r.tasks[w].Writing? {
      WriteFaithful(t, r, w);
    } else if r.tasks[w].Marking? {
      MarkFaithful(t, r, w);
    }
  }

  lemma NextFaithful(t: Transfer, r: Receiver, e: Event)
    requires Faithful(t, r) && (e.Finish? ==> Harmless(t, r, e))
    ensures Faithful(t, Next(t, r, e))
  {
    hide BitsRight, ChunkRight, ZeroChunk, Harmless, StepTask;
    match e
    case Finish(_, _, _) => FinalizeFaithful(t, r, e);
    case Begin(_) => EnsuredFaithful(t, r);
    case Step(w) =>
      if w < |r.tasks| {
        StepFaithful(t, r, w);
      }
    case Fail(w, landed) =>
      if w < |r.tasks| && r.tasks[w].Writing? {
        WriteThroughFaithful(t, r, r.tasks[w].index, r.tasks[w].handle, landed);
      }
    case Arrive(_) =>
    case Crash(_, _) =>
  }

  /** The bitmap, where there is one, tells the truth about the part beside it. */
  ghost predicate Truthful(t: Transfer, r: Receiver) {
    r.part.Some? && r.bits.Some? ==> BitsRight(t, r.part.value, r.bits.value)
  }

  /** However chunk tasks of any number of attempts interleave, repeat, fail and
      crash: if no Finalize pulls the files from under a task yet to mark, every
      chunk reported completed is right, a complete part is the file, so a Finalize
      never meets a digest mismatch, and what gets stored is the file. */
  lemma {:induction false} ReceiverIsFaithful(t: Transfer, es: seq<Event>)
    requires FinalizesHarmlessly(t, es)
    ensures Faithful(t, Run(t, es)) && Truthful(t, Run(t, es))
    ensures var r := Run(t, es);
            r.part.Some? && r.bits.Some? && AllCompleted(r.bits.value, t.Count()) ==> r.part.value == t.file
  {
    hide Next, BitsRight, ChunkRight, AllCompleted, Harmless;
    if es != [] {
      ReceiverIsFaithful(t, es[..|es| - 1]);
      NextFaithful(t, Run(t, es[..|es| - 1]), es[|es| - 1]);
    }
    var r := Run(t, es);
    if r.part.Some? && r.bits.Some? && AllCompleted(r.bits.value, t.Count()) {
      CompleteIsTheFile(t, r.part.value, r.bits.value);
    }
  }

  /** Which holds whenever the sender only finalizes with nobody in flight. */
  lemma {:induction false} SettledFinalizesAreHarmless(t: Transfer, es: seq<Event>)
    requires FinalizesSettled(t, es)
    ensures FinalizesHarmlessly(t, es)
  {
    if es != [] {
      SettledFinalizesAreHarmless(t, es[..|es| - 1]);
    }
  }

  predicate NoFinish(es: seq<Event>) {
    forall k | 0 <= k < |es| :: !es[k].Finish?
  }

  lemma {:induction false} FaithfulOnwards(t: Transfer, r: Receiver, es: seq<Event>)
    requires Faithful(t, r) && NoFinish(es)
    ensures Faithful(t, RunFrom(t, r, es))
  {
    hide Next, Faithful;
    if es != [] {
      FaithfulOnwards(t, r, es[..|es| - 1]);
      NextFaithful(t, RunFrom(t, r, es[..|es| - 1]), es[|es| - 1]);
    }
  }

  /** Running one task alone. */
  lemma RunTask(t: Transfer, r: Receiver, w: nat, es: seq<Event>) returns (more: seq<Event>)
    requires NoFinish(es)
    ensures NoFinish(more) && RunFrom(t, r, more) == Next(t, RunFrom(t, r, es), Step(w))
  {
    more := es + [Step(w)];
    assert more[..|es|] == es;
  }

  /** A task marking after its part or state file went away marks zeros. */
  lemma LateMarkLies(t: Transfer, r: Receiver, w: nat)
    requires w < |r.tasks| && r.tasks[w].Marking? && r.tasks[w].index < t.Count()
    requires Lost(r) && !ZeroChunk(t, r.tasks[w].index)
    ensures !Truthful(t, Next(t, r, Step(w)))
  {
    var i, n := r.tasks[w].index, Next(t, r, Step(w));
    MarkCompletesOne(Ensured(t, r).bits.value, i, i);
    ZerosAreRight(t, i);
    hide IsCompleted, ChunkRight, Marked;
    assert IsCompleted(n.bits.value, i) && !ChunkRight(t, n.part.value, i);
  }

  /** So does one that has the part open, whether or not its write still reaches it. */
  lemma LateWriteLies(t: Transfer, r: Receiver, w: nat)
    requires w < |r.tasks| && r.tasks[w].Writing? && r.tasks[w].index < t.Count()
    requires Lost(r) && !ZeroChunk(t, r.tasks[w].index)
    ensures !Truthful(t, Next(t, Next(t, r, Step(w)), Step(w)))
  {
    hide ZeroChunk, Truthful, WithPrefix;
    LateMarkLies(t, Next(t, r, Step(w)), w);
  }

  lemma LateOpenLies(t: Transfer, r: Receiver, w: nat)
    requires w < |r.tasks| && r.tasks[w].Opening? && r.tasks[w].index < t.Count()
    requires r.part.Some? && r.bits.None? && !ZeroChunk(t, r.tasks[w].index)
    ensures !Truthful(t, Next(t, Next(t, Next(t, r, Step(w)), Step(w)), Step(w)))
  {
    hide ZeroChunk, Truthful;
    LateWriteLies(t, Next(t, r, Step(w)), w);
  }

  lemma SomeTaskLies(t: Transfer, r: Receiver, e: Event) returns (es: seq<Event>)
    requires e.Finish? && Faithful(t, r) && !Harmless(t, r, e)
    ensures NoFinish(es) && !Truthful(t, RunFrom(t, FinalizeNext(t, r, e.seen, e.commits, e.cleans), es))
  {
    hide ZeroChunk, Truthful, ChunkRight, BitsRight, FinalizeNext, Next;
    var n := FinalizeNext(t, r, e.seen, e.commits, e.cleans);
    var w :| 0 <= w < |r.tasks| &&
             (((r.tasks[w].Writing? || r.tasks[w].Marking?) && Lost(n)) ||
              (r.tasks[w].Opening? && n.part.Some? && n.bits.None?)) &&
             !ZeroChunk(t, r.tasks[w].index);
    assert TaskFine(t, r, r.tasks[w]);
    es := RunTask(t, n, w, []);
    if r.tasks[w].Marking? {
      LateMarkLies(t, n, w);
    } else {
      es := RunTask(t, n, w, es);
      if r.tasks[w].Writing? {
        LateWriteLies(t, n, w);
      } else {
        es := RunTask(t, n, w, es);
        LateOpenLies(t, n, w);
      }
    }
  }

  /** Exactly when a Finalize leaves the bitmap truthful for good: no task can
      later make it lie if and only if it pulled the files from under none. */
  lemma TruthfulExactlyWhenHarmless(t: Transfer, r: Receiver, e: Event)
    requires e.Finish? && Faithful(t, r)
    ensures (forall es | NoFinish(es) :: Truthful(t, RunFrom(t, Next(t, r, e), es))) <==> Harmless(t, r, e)
  {
    var n := Next(t, r, e);
    assert n == FinalizeNext(t, r, e.seen, e.commits, e.cleans);
    if Harmless(t, r, e) {
      FinalizeFaithful(t, r, e);
      hide Harmless, RunFrom, Next, FinalizeNext;
      forall es | NoFinish(es)
        ensures Truthful(t, RunFrom(t, n, es))
      {
        FaithfulOnwards(t, n, es);
      }
    } else {
      var es := SomeTaskLies(t, r, e);
      assert NoFinish(es) && !Truthful(t, RunFrom(t, n, es));
    }
  }

  /** In every run whatever, only content with the file's digest is stored. */
  lemma {:induction false} StoredAlwaysHasTheDigest(t: Transfer, es: seq<Event>)
    ensures Run(t, es).stored.Some? ==> t.hash(Run(t, es).stored.value) == t.hash(t.file)
  {
    hide WithPrefix, AllCompleted;
    if es != [] {
      StoredAlwaysHasTheDigest(t, es[..|es| - 1]);
    }
  }

  // ----- One task and one Finalize, start to end -----

  /** A bitmap has a bit for every chunk and less than a byte to spare. */
  lemma BitmapFits(chunkCount: nat)
    ensures chunkCount <= 8 * BitmapLength(chunkCount) < chunkCount + 8
  {
  }

  lemma WritesAfterCheck(t: Transfer, r: Receiver, w: nat, i: nat)
    requires Faithful(t, r) && r.part.Some? && r.bits.Some? && w < |r.tasks| && r.tasks[w] == Checking(i)
    requires !IsCompleted(r.bits.value, i) && i < t.Count()
    ensures Next(t, Next(t, Next(t, r, Step(w)), Step(w)), Step(w))
         == r.(part := Some(WithPrefix(t.file, r.part.value, i, CHUNK)), tasks := r.tasks[w := Marking(i)])
  {
    hide IsCompleted, WithPrefix, BitsRight, ChunkRight, ZeroChunk;
    var a := Next(t, r, Step(w));
    assert a == r.(tasks := r.tasks[w := Opening(i)]);
    var b := Next(t, a, Step(w));
    assert b == r.(tasks := r.tasks[w := Writing(i, r.made)]);
  }

  lemma AnswersAfterMark(t: Transfer, r: Receiver, w: nat, i: nat)
    requires r.part.Some? && r.bits.Some? && |r.bits.value| == BitmapLength(t.Count()) && i < t.Count()
    requires w < |r.tasks| && r.tasks[w] == Marking(i)
    ensures i / 8 < |r.bits.value|
    ensures Next(t, Next(t, r, Step(w)), Step(w))
         == r.(bits := Some(Marked(r.bits.value, i)), tasks := r.tasks[w := Answered(i)])
  {
    hide Marked;
    var a := Next(t, r, Step(w));
    assert a == r.(bits := Some(Marked(r.bits.value, i)), tasks := r.tasks[w := Acking(i)]);
  }

  /** A chunk task left alone checks, opens, writes, marks and answers: its chunk
      is then in the part and marked, and nothing else has changed. */
  lemma ChunkTaskCompletes(t: Transfer, r: Receiver, w: nat, i: nat)
    requires Faithful(t, r) && r.part.Some? && r.bits.Some? && w < |r.tasks| && r.tasks[w] == Checking(i)
    requires !IsCompleted(r.bits.value, i)
    ensures var n := Next(t, Next(t, Next(t, Next(t, Next(t, r, Step(w)), Step(w)), Step(w)), Step(w)), Step(w));
            && n.part.Some? && n.bits.Some?
            && n == r.(part := n.part, bits := n.bits, tasks := r.tasks[w := Answered(i)])
            && |n.part.value| == |t.file|
            && (forall b: nat | b < |t.file| ::
                  n.part.value[b] == if b / 65536 == i then t.file[b] else r.part.value[b])
            && (forall k: nat :: IsCompleted(n.bits.value, k) <==> k == i || IsCompleted(r.bits.value, k))
  {
    assert TaskFine(t, r, r.tasks[w]);
    WritesAfterCheck(t, r, w, i);
    var c := Next(t, Next(t, Next(t, r, Step(w)), Step(w)), Step(w));
    hide Next, IsCompleted, Marked, BitsRight, ChunkRight, ZeroChunk;
    AnswersAfterMark(t, c, w, i);
    forall k: nat
      ensures IsCompleted(Marked(r.bits.value, i), k) <==> k == i || IsCompleted(r.bits.value, k)
    {
      MarkCompletesOne(r.bits.value, i, k);
    }
    PrefixIsChunk(t.file, r.part.value, i);
  }

  lemma PrefixIsChunk(file: seq<Byte>, part: seq<Byte>, i: nat)
    requires |part| == |file| && i < ChunkCount(|file|)
    ensures forall b: nat | b < |file| :: WithPrefix(file, part, i, CHUNK)[b] == if b / 65536 == i then file[b] else part[b]
  {
  }

  /** One whose chunk is marked already answers and touches nothing. */
  lemma CompletedChunkIsAnswered(t: Transfer, r: Receiver, w: nat, i: nat)
    requires Faithful(t, r) && r.part.Some? && r.bits.Some? && w < |r.tasks| && r.tasks[w] == Checking(i)
    requires IsCompleted(r.bits.value, i)
    ensures Next(t, Next(t, r, Step(w)), Step(w)) == r.(tasks := r.tasks[w := Answered(i)])
  {
    hide IsCompleted, BitsRight, ChunkRight, ZeroChunk;
    assert Next(t, r, Step(w)) == r.(tasks := r.tasks[w := Acking(i)]);
  }

  /** A write through a handle to a part that is gone or replaced changes no file;
      a task that fails stops there, having changed at most some bytes of the part
      it has open to the file's. */
  lemma WritesThroughHandles(t: Transfer, r: Receiver, w: nat, i: nat, handle: nat, landed: nat)
    requires w < |r.tasks| && r.tasks[w] == Writing(i, handle)
    ensures r.part.None? || handle != r.made ==> Next(t, r, Step(w)) == r.(tasks := r.tasks[w := Marking(i)])
    ensures r.part.None? || handle != r.made ==> Next(t, r, Fail(w, landed)) == r.(tasks := r.tasks[w := Broken])
    ensures var n := Next(t, r, Fail(w, landed));
            && n == r.(part := n.part, tasks := r.tasks[w := Broken]) && (n.part.Some? <==> r.part.Some?)
            && (r.part.Some? && |r.part.value| == |t.file| ==>
                && |n.part.value| == |t.file|
                && forall b: nat | b < |t.file| :: n.part.value[b] == r.part.value[b] || n.part.value[b] == t.file[b])
  {
  }

  /** A crash ends every task and keeps the store; a file it was replacing may be gone. */
  lemma CrashOutcomes(t: Transfer, r: Receiver, losesPart: bool, losesBits: bool)
    ensures var n := Next(t, r, Crash(losesPart, losesBits));
            && n.tasks == [] && n.stored == r.stored && n.made == r.made
            && (losesPart ==> n.part == None) && (!losesPart ==> n.part == r.part)
            && (losesBits ==> n.bits == None) && (!losesBits ==> n.bits == r.bits)
  {
  }

  /** What a Finalize leaves, by cases: found stored, only the state may go;
      incomplete, nothing but what `ensure` makes; complete with another digest,
      both files go; complete and right, the part goes into the store. */
  lemma FinalizeOutcomes(t: Transfer, r: Receiver, commits: bool, cleans: bool)
    requires r.part.Some? && r.bits.Some? && |r.bits.value| == BitmapLength(t.Count())
    ensures r.stored.Some? && t.hash(r.stored.value) == t.hash(t.file) ==>
              Next(t, r, Finish(true, commits, cleans)) == r.(bits := if cleans then None else r.bits)
    ensures (exists i: nat | i < t.Count() :: !IsCompleted(r.bits.value, i)) ==> Next(t, r, Finish(false, commits, cleans)) == r
    ensures (forall i: nat | i < t.Count() :: IsCompleted(r.bits.value, i)) && t.hash(r.part.value) != t.hash(t.file) ==>
              Next(t, r, Finish(false, commits, cleans)) == r.(part := None, bits := None)
    ensures (forall i: nat | i < t.Count() :: IsCompleted(r.bits.value, i)) && t.hash(r.part.value) == t.hash(t.file) ==>
              && Next(t, r, Finish(false, false, cleans)) == r
              && (r.stored.None? ==>
                  Next(t, r, Finish(false, true, cleans)) ==
                  r.(part := None, bits := if cleans then None else r.bits, stored := r.part))
  {
    hide IsCompleted;
  }

  lemma RunOne(t: Transfer, es: seq<Event>, e: Event)
    ensures Run(t, es + [e]) == Next(t, Run(t, es), e)
  {
    assert (es + [e])[..|es|] == es;
  }

  /** The one-chunk transfer of a single byte. */
  function Tiny(hash: seq<Byte> -> nat): Transfer {
    Transfer([1], hash)
  }

  lemma TinyFacts(hash: seq<Byte> -> nat)
    ensures Tiny(hash).Count() == 1 && Blank(1) == [0] && Zeros(1) == [0] && |Tiny(hash).file| == 1 && BitmapLength(1) == 1
    ensures Marked([0], 0) == [1] && !IsCompleted([0], 0) && IsCompleted([1], 0) && AllCompleted([1], 1)
    ensures WithPrefix([1], [0], 0, CHUNK) == [1]
  {
  }

  lemma TinyBegins(hash: seq<Byte> -> nat)
    ensures Next(Tiny(hash), Fresh, Begin(false)) == Receiver(Some([0]), 1, Some([0]), [], None)
  {
    TinyFacts(hash);
    hide Blank, Zeros, BitmapLength;
  }

  lemma TwoTasksBegin(hash: seq<Byte> -> nat)
    ensures Run(Tiny(hash), [Begin(false), Arrive(0), Arrive(0)]) ==
            Receiver(Some([0]), 1, Some([0]), [Checking(0), Checking(0)], None)
  {
    var t := Tiny(hash);
    TinyFacts(hash);
    TinyBegins(hash);
    assert Run(t, []) == Fresh;
    hide Run, RunFrom, StepTask, FailTask, FinalizeNext, Ensured, StoredGood;
    RunOne(t, [], Begin(false));
    RunOne(t, [Begin(false)], Arrive(0));
    RunOne(t, [Begin(false), Arrive(0)], Arrive(0));
    assert [] + [Begin(false)] == [Begin(false)] && [Begin(false)] + [Arrive(0)] == [Begin(false), Arrive(0)];
    assert [Begin(false), Arrive(0)] + [Arrive(0)] == [Begin(false), Arrive(0), Arrive(0)];
  }

  /** Both tasks pass the check and open the part. */
  lemma TwoTasksOpen(hash: seq<Byte> -> nat, r: Receiver)
    requires r == Receiver(Some([0]), 1, Some([0]), [Checking(0), Checking(0)], None)
    ensures var t := Tiny(hash);
            Next(t, Next(t, Next(t, Next(t, r, Step(0)), Step(1)), Step(0)), Step(1)) ==
            Receiver(Some([0]), 1, Some([0]), [Writing(0, 1), Writing(0, 1)], None)
  {
    var t := Tiny(hash);
    TinyFacts(hash);
    hide IsCompleted, Blank, Zeros, BitmapLength, WithPrefix, Marked, AllCompleted;
    var a := Next(t, r, Step(0));
    assert a == Receiver(Some([0]), 1, Some([0]), [Opening(0), Checking(0)], None);
    var b := Next(t, a, Step(1));
    assert b == Receiver(Some([0]), 1, Some([0]), [Opening(0), Opening(0)], None);
    var c := Next(t, b, Step(0));
    assert c == Receiver(Some([0]), 1, Some([0]), [Writing(0, 1), Opening(0)], None);
  }

  /** One writes and marks, and Finalize stores the part and clears it away. */
  lemma OneFinishes(hash: seq<Byte> -> nat, r: Receiver)
    requires r == Receiver(Some([0]), 1, Some([0]), [Writing(0, 1), Writing(0, 1)], None)
    ensures var t := Tiny(hash);
            Next(t, Next(t, Next(t, r, Step(0)), Step(0)), Finish(false, true, true)) ==
            Receiver(None, 1, None, [Acking(0), Writing(0, 1)], Some([1]))
  {
    var t := Tiny(hash);
    TinyFacts(hash);
    hide IsCompleted, Blank, Zeros, BitmapLength, WithPrefix, Marked, AllCompleted;
    var a := Next(t, r, Step(0));
    assert a == Receiver(Some([1]), 1, Some([0]), [Marking(0), Writing(0, 1)], None);
    var b := Next(t, a, Step(0));
    assert b == Receiver(Some([1]), 1, Some([1]), [Acking(0), Writing(0, 1)], None);
  }

  /** The other writes to the file it has open, which is at no path any more, and marks. */
  lemma OtherMarksLate(hash: seq<Byte> -> nat, r: Receiver)
    requires r == Receiver(None, 1, None, [Acking(0), Writing(0, 1)], Some([1]))
    ensures var t := Tiny(hash);
            Next(t, Next(t, r, Step(1)), Step(1)) ==
            Receiver(Some([0]), 2, Some([1]), [Acking(0), Acking(0)], Some([1]))
  {
    var t := Tiny(hash);
    TinyFacts(hash);
    hide IsCompleted, Blank, Zeros, BitmapLength, WithPrefix, Marked, AllCompleted;
    var a := Next(t, r, Step(1));
    assert a == Receiver(None, 1, None, [Acking(0), Marking(0)], Some([1]));
  }

  /** Without that condition the bitmap can lie: a second task for the chunk, with
      the part open when Finalize takes it away, writes where nobody will read and
      marks the chunk in a fresh part of zeros. Only the digest check then keeps
      that part from being stored. */
  lemma LateMarkIsWrong(hash: seq<Byte> -> nat)
    ensures var r := Run(Tiny(hash), [Begin(false), Arrive(0), Arrive(0)] + [Step(0)] + [Step(1)] + [Step(0)] + [Step(1)]
                                     + [Step(0)] + [Step(0)] + [Finish(false, true, true)] + [Step(1)] + [Step(1)]);
            r.bits == Some([1]) && IsCompleted([1], 0) && r.part == Some([0]) != Some(Tiny(hash).file)
  {
    hide Next, Run;
    var t := Tiny(hash);
    TinyFacts(hash);
    TwoTasksBegin(hash);
    var es := [Begin(false), Arrive(0), Arrive(0)];
    TwoTasksOpen(hash, Run(t, es));
    RunOne(t, es, Step(0));
    RunOne(t, es + [Step(0)], Step(1));
    RunOne(t, es + [Step(0)] + [Step(1)], Step(0));
    RunOne(t, es + [Step(0)] + [Step(1)] + [Step(0)], Step(1));
    var open := es + [Step(0)] + [Step(1)] + [Step(0)] + [Step(1)];
    OneFinishes(hash, Run(t, open));
    RunOne(t, open, Step(0));
    RunOne(t, open + [Step(0)], Step(0));
    RunOne(t, open + [Step(0)] + [Step(0)], Finish(false, true, true));
    var gone := open + [Step(0)] + [Step(0)] + [Finish(false, true, true)];
    OtherMarksLate(hash, Run(t, gone));
    RunOne(t, gone, Step(1));
    RunOne(t, gone + [Step(1)], Step(1));
  }
}
