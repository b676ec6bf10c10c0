/** Content-addressed storage of verified transfer payloads: one object per
    digest, filled by any number of concurrent committers and copied out by any
    number of concurrent readers. The filesystem is a map from paths to contents
    and every file operation is one step. */
module ContentStore {
  import opened Wrappers

  type Content = seq<bv8>
  type Hash = Content -> nat

  datatype Path =
    | Object                   // the canonical path of the digest
    | Partial(id: nat)         // a committer's received file
    | Temp(id: nat)            // a committer's temporary beside the object
    | Destination(id: nat)
    | CopyTemp(id: nat)        // a reader's temporary beside its destination

  type Files = map<Path, Content>

  predicate Good(h: Hash, digest: nat, fs: Files, p: Path) {
    p in fs && h(fs[p]) == digest
  }

  /** The object path holds nothing, or content with its digest. */
  predicate Uncorrupt(h: Hash, digest: nat, fs: Files) {
    Object in fs ==> h(fs[Object]) == digest
  }

  /** How the operating system answers one file operation. */
  datatype Io = Works | Exists | Fails

  const BUFFER := 0x1_0000

  /** Bytes one read returns: at least one, no more than the buffer or what is left. */
  function ReadSize(want: nat, left: nat): (n: nat)
    requires left > 0
    ensures 1 <= n <= left && n <= 65536
    ensures 1 <= want <= left && want <= 65536 ==> n == want
  {
    var most := if left < BUFFER then left else BUFFER;
    if want < 1 then 1 else if want > most then most else want
  }

  // ----- A committer -----

  datatype Commit =
    | HashPartial
    | LookForObject
    | HashObject
    | RemoveObject
    | StartCopy
    | Copying(source: Content, copied: nat)
    | Rename
    | HashExisting
    | DropTemp(next: AfterDrop)
    | RemoveExisting
    | RemovePartial
    | Committed
    | Refused
    | Crashed

  datatype AfterDrop = Dedupe | Corrupt | GiveUp

  datatype Turn<P> = Turn(fs: Files, pc: P)

  /** One file operation of committer `i`. */
  function CommitNext(h: Hash, digest: nat, fs: Files, pc: Commit, i: nat, io: Io, want: nat): Turn<Commit> {
    match pc
    case HashPartial =>
      Turn(fs, if io.Works? && Good(h, digest, fs, Partial(i)) then LookForObject else Refused)
    case LookForObject =>
      Turn(fs, if !io.Works? then Refused else if Object in fs then HashObject else StartCopy)
    case HashObject =>
      Turn(fs, if !io.Works? || Object !in fs then Refused
               else if h(fs[Object]) == digest then RemovePartial else RemoveObject)
    case RemoveObject =>
      if !io.Works? || Object !in fs then Turn(fs, Refused) else Turn(fs - {Object}, StartCopy)
    case StartCopy =>
      if !io.Works? || Partial(i) !in fs then Turn(fs, Refused)
      else Turn(fs[Temp(i) := []], Copying(fs[Partial(i)], 0))
    case Copying(source, copied) => CopyNext(fs, source, copied, i, io, want)
    case Rename => RenameNext(fs, i, io)
    case HashExisting =>
      Turn(fs, if !io.Works? || Object !in fs then Refused
               else DropTemp(if h(fs[Object]) == digest then Dedupe else Corrupt))
    case DropTemp(next) =>
      Turn(if io.Works? then fs - {Temp(i)} else fs,
           match next case Dedupe => RemovePartial case Corrupt => RemoveExisting case GiveUp => Refused)
    case RemoveExisting => Turn(if io.Works? then fs - {Object} else fs, Refused)
    case RemovePartial =>
      if !io.Works? || Partial(i) !in fs then Turn(fs, Refused) else Turn(fs - {Partial(i)}, Committed)
    case Committed => Turn(fs, pc)
    case Refused => Turn(fs, pc)
    case Crashed => Turn(fs, pc)
  }

  /** One read and write of the copy loop; a failing write may leave part of it. */
  function CopyNext(fs: Files, source: Content, copied: nat, i: nat, io: Io, want: nat): Turn<Commit> {
    if copied >= |source| then Turn(fs, if io.Works? then Rename else Refused)
    else
      var upTo := copied + ReadSize(want, |source| - copied);
      Turn(fs[Temp(i) := source[..upTo]], if io.Works? then Copying(source, upTo) else Refused)
  }

  function RenameNext(fs: Files, i: nat, io: Io): Turn<Commit> {
    if io.Works? && Temp(i) in fs then Turn(fs[Object := fs[Temp(i)]] - {Temp(i)}, RemovePartial)
    else Turn(fs, if io.Exists? then HashExisting else DropTemp(GiveUp))
  }

  // ----- A reader -----

  datatype Read =
    | Hashing
    | Opening
    | Writing(source: Content, copied: nat)
    | Placing(size: nat)
    | Clearing(size: nat)
    | PlacingAgain(size: nat)
    | Dropping
    | Materialized(size: nat)
    | NotRead
    | Stopped

  /** One file operation of reader `j`, copying the object to destination `d`. */
  function ReadNext(h: Hash, digest: nat, fs: Files, pc: Read, j: nat, d: nat, io: Io, want: nat): Turn<Read> {
    match pc
    case Hashing => Turn(fs, if io.Works? && Good(h, digest, fs, Object) then Opening else NotRead)
    case Opening =>
      if !io.Works? || Object !in fs then Turn(fs, NotRead)
      else Turn(fs[CopyTemp(j) := []], Writing(fs[Object], 0))
    case Writing(source, copied) =>
      if copied >= |source| then Turn(fs, if io.Works? then Placing(copied) else NotRead)
      else
        var upTo := copied + ReadSize(want, |source| - copied);
        Turn(fs[CopyTemp(j) := source[..upTo]], if io.Works? then Writing(source, upTo) else NotRead)
    case Placing(size) =>
      if io.Works? && CopyTemp(j) in fs
      then Turn(fs[Destination(d) := fs[CopyTemp(j)]] - {CopyTemp(j)}, Materialized(size))
      else Turn(fs, if io.Exists? then Clearing(size) else Dropping)
    case Clearing(size) =>
      if !io.Works? || Destination(d) !in fs then Turn(fs, NotRead)
      else Turn(fs - {Destination(d)}, PlacingAgain(size))
    case PlacingAgain(size) =>
      if io.Works? && CopyTemp(j) in fs
      then Turn(fs[Destination(d) := fs[CopyTemp(j)]] - {CopyTemp(j)}, Materialized(size))
      else Turn(fs, NotRead)
    case Dropping => Turn(if io.Works? then fs - {CopyTemp(j)} else fs, NotRead)
    case Materialized(_) => Turn(fs, pc)
    case NotRead => Turn(fs, pc)
    case Stopped => Turn(fs, pc)
  }

  // ----- The whole store -----

  datatype World = World(fs: Files, committers: seq<Commit>, readers: seq<Read>)

  datatype Event =
    | CommitStep(who: nat, io: Io, want: nat)
    | CommitCrash(who: nat)
    | ReadStep(who: nat, io: Io, want: nat)
    | ReadCrash(who: nat)

  /** `targets[j]` is the destination reader `j` was asked for. */
  function Next(h: Hash, digest: nat, targets: seq<nat>, w: World, e: Event): World
    requires |targets| == |w.readers|
  {
    match e
    case CommitStep(i, io, want) =>
      if i >= |w.committers| then w
      else
        var turn := CommitNext(h, digest, w.fs, w.committers[i], i, io, want);
        w.(fs := turn.fs, committers := w.committers[i := turn.pc])
    case CommitCrash(i) =>
      if i >= |w.committers| || w.committers[i].Committed? then w else w.(committers := w.committers[i := Crashed])
    case ReadStep(j, io, want) =>
      if j >= |w.readers| then w
      else
        var turn := ReadNext(h, digest, w.fs, w.readers[j], j, targets[j], io, want);
        w.(fs := turn.fs, readers := w.readers[j := turn.pc])
    case ReadCrash(j) =>
      if j >= |w.readers| || w.readers[j].Materialized? then w else w.(readers := w.readers[j := Stopped])
  }

  function Run(h: Hash, digest: nat, targets: seq<nat>, w: World, es: seq<Event>): (r: World)
    requires |targets| == |w.readers|
    ensures |r.committers| == |w.committers| && |r.readers| == |w.readers|
  {
    if es == [] then w
    else Next(h, digest, targets, Run(h, digest, targets, w, es[..|es| - 1]), es[|es| - 1])
  }

  /** Nobody has taken a step; any files may be lying around. */
  predicate Initial(w: World) {
    && (forall c | c in w.committers :: c == HashPartial)
    && (forall r | r in w.readers :: r == Hashing)
  }

  // ----- What each participant relies on -----

  /** Past its own hash a committer holds good content until it removes it, and
      its temporary is a prefix of good content, whole once copied. */
  predicate CommitFine(h: Hash, digest: nat, fs: Files, pc: Commit, i: nat) {
    match pc
    case HashPartial => true
    case Committed => true
    case Refused => true
    case Crashed => true
    case Copying(source, copied) =>
      && Good(h, digest, fs, Partial(i))
      && h(source) == digest && copied <= |source| && Temp(i) in fs && fs[Temp(i)] == source[..copied]
    case Rename => Good(h, digest, fs, Partial(i)) && Good(h, digest, fs, Temp(i))
    case _ => Good(h, digest, fs, Partial(i))
  }

  /** The committer found the object good and has only its own files left to remove. */
  predicate Leaving(pc: Commit) {
    pc.RemovePartial? || pc.Committed? || pc == DropTemp(Dedupe)
  }

  /** A committer that has not succeeded nor is about to, whose partial has the digest. */
  predicate Holds(h: Hash, digest: nat, fs: Files, pc: Commit, i: nat) {
    !Leaving(pc) && Good(h, digest, fs, Partial(i))
  }

  predicate ReadFine(h: Hash, digest: nat, fs: Files, pc: Read, j: nat) {
    match pc
    case Opening => Uncorrupt(h, digest, fs)
    case Writing(source, copied) =>
      h(source) == digest && copied <= |source| && CopyTemp(j) in fs && fs[CopyTemp(j)] == source[..copied]
    case Placing(size) => Good(h, digest, fs, CopyTemp(j)) && |fs[CopyTemp(j)]| == size
    case Clearing(size) => Good(h, digest, fs, CopyTemp(j)) && |fs[CopyTemp(j)]| == size
    case PlacingAgain(size) => Good(h, digest, fs, CopyTemp(j)) && |fs[CopyTemp(j)]| == size
    case _ => true
  }

  /** Two filesystems agree outside some paths. */
  ghost predicate SameOutside(before: Files, after: Files, paths: set<Path>) {
    forall p | p !in paths :: (p in before <==> p in after) && (p in before ==> before[p] == after[p])
  }

  /** One operation of a committer, seen from the rest of the store: it touches
      its own files and the object, keeps what it relies on, never puts content
      without the digest at the object path, and whenever the object is lost or
      it stops holding content itself, the other of the two is good. */
  lemma CommitStepLocally(h: Hash, digest: nat, fs: Files, pc: Commit, i: nat, io: Io, want: nat)
    requires CommitFine(h, digest, fs, pc, i)
    ensures var t := CommitNext(h, digest, fs, pc, i, io, want);
            && SameOutside(fs, t.fs, {Object, Partial(i), Temp(i)})
            && CommitFine(h, digest, t.fs, t.pc, i)
            && (Uncorrupt(h, digest, fs) ==> Uncorrupt(h, digest, t.fs))
            && (Good(h, digest, fs, Object) || Holds(h, digest, fs, pc, i) ==>
                Good(h, digest, t.fs, Object) || Holds(h, digest, t.fs, t.pc, i))
  {
    if pc.Copying? {
      assert pc.source[..|pc.source|] == pc.source;
    }
  }

  lemma ReadStepLocally(h: Hash, digest: nat, fs: Files, pc: Read, j: nat, d: nat, io: Io, want: nat)
    requires ReadFine(h, digest, fs, pc, j)
    ensures var t := ReadNext(h, digest, fs, pc, j, d, io, want);
            && SameOutside(fs, t.fs, {Destination(d), CopyTemp(j)})
            && ReadFine(h, digest, t.fs, t.pc, j)
            && (Destination(d) in t.fs ==>
                (Destination(d) in fs && t.fs[Destination(d)] == fs[Destination(d)]) || Good(h, digest, t.fs, Destination(d)))
            && (t.pc.Materialized? && pc != t.pc ==>
                Good(h, digest, t.fs, Destination(d)) && |t.fs[Destination(d)]| == t.pc.size)
            && (Destination(d) in fs && Destination(d) !in t.fs ==> pc.Clearing?)
  {
    if pc.Writing? {
      assert pc.source[..|pc.source|] == pc.source;
    }
  }

  // ----- Every reachable state -----

  ghost predicate Invariant(h: Hash, digest: nat, w: World) {
    && (forall i | 0 <= i < |w.committers| :: CommitFine(h, digest, w.fs, w.committers[i], i))
    && (forall j | 0 <= j < |w.readers| :: ReadFine(h, digest, w.fs, w.readers[j], j))
  }

  /** The object has the digest, or some committer that has not succeeded still
      holds a partial that has it. */
  ghost predicate Safe(h: Hash, digest: nat, w: World) {
    || Good(h, digest, w.fs, Object)
    || exists i | 0 <= i < |w.committers| :: Holds(h, digest, w.fs, w.committers[i], i)
  }

  /** Each destination is as it was before, or has the digest. */
  ghost predicate Whole(h: Hash, digest: nat, first: Files, fs: Files) {
    forall d: nat | Destination(d) in fs ::
      (Destination(d) in first && fs[Destination(d)] == first[Destination(d)]) || Good(h, digest, fs, Destination(d))
  }

  lemma OthersUndisturbed(h: Hash, digest: nat, before: Files, after: Files, paths: set<Path>, pc: Commit, k: nat)
    requires SameOutside(before, after, paths) && Partial(k) !in paths && Temp(k) !in paths
    ensures CommitFine(h, digest, before, pc, k) <==> CommitFine(h, digest, after, pc, k)
    ensures Holds(h, digest, before, pc, k) <==> Holds(h, digest, after, pc, k)
  {
    assert Partial(k) in before <==> Partial(k) in after;
    assert Temp(k) in before <==> Temp(k) in after;
  }

  lemma ReadersUndisturbed(h: Hash, digest: nat, before: Files, after: Files, paths: set<Path>, pc: Read, k: nat)
    requires SameOutside(before, after, paths) && CopyTemp(k) !in paths
    requires Uncorrupt(h, digest, before) ==> Uncorrupt(h, digest, after)
    requires ReadFine(h, digest, before, pc, k)
    ensures ReadFine(h, digest, after, pc, k)
  {
    assert CopyTemp(k) in before <==> CopyTemp(k) in after;
  }

  lemma CommitStepKeeps(h: Hash, digest: nat, targets: seq<nat>, w: World, i: nat, io: Io, want: nat, first: Files)
    requires |targets| == |w.readers| && i < |w.committers| && Invariant(h, digest, w)
    ensures var v := Next(h, digest, targets, w, CommitStep(i, io, want));
            && Invariant(h, digest, v)
            && (Uncorrupt(h, digest, w.fs) ==> Uncorrupt(h, digest, v.fs))
            && (Safe(h, digest, w) ==> Safe(h, digest, v))
            && (Whole(h, digest, first, w.fs) ==> Whole(h, digest, first, v.fs))
  {
    hide CommitNext, CommitFine, Holds, ReadFine;
    var v := Next(h, digest, targets, w, CommitStep(i, io, want));
    var paths := {Object, Partial(i), Temp(i)};
    CommitStepLocally(h, digest, w.fs, w.committers[i], i, io, want);
    forall k | 0 <= k < |w.committers| && k != i
      ensures CommitFine(h, digest, v.fs, v.committers[k], k)
      ensures Holds(h, digest, w.fs, w.committers[k], k) <==> Holds(h, digest, v.fs, v.committers[k], k)
    {
      OthersUndisturbed(h, digest, w.fs, v.fs, paths, w.committers[k], k);
    }
    assert v.committers[i] == CommitNext(h, digest, w.fs, w.committers[i], i, io, want).pc;
    forall k | 0 <= k < |w.readers|
      ensures ReadFine(h, digest, v.fs, v.readers[k], k)
    {
      ReadersUndisturbed(h, digest, w.fs, v.fs, paths, w.readers[k], k);
    }
  }

  lemma ReadStepKeeps(h: Hash, digest: nat, targets: seq<nat>, w: World, j: nat, io: Io, want: nat, first: Files)
    requires |targets| == |w.readers| && j < |w.readers| && Invariant(h, digest, w)
    ensures var v := Next(h, digest, targets, w, ReadStep(j, io, want));
            && Invariant(h, digest, v)
            && (Uncorrupt(h, digest, w.fs) ==> Uncorrupt(h, digest, v.fs))
            && (Safe(h, digest, w) ==> Safe(h, digest, v))
            && (Whole(h, digest, first, w.fs) ==> Whole(h, digest, first, v.fs))
  {
    hide ReadNext, CommitFine, Holds, ReadFine;
    var v := Next(h, digest, targets, w, ReadStep(j, io, want));
    var paths := {Destination(targets[j]), CopyTemp(j)};
    ReadStepLocally(h, digest, w.fs, w.readers[j], j, targets[j], io, want);
    assert Object in w.fs <==> Object in v.fs;
    forall k | 0 <= k < |w.committers|
      ensures CommitFine(h, digest, v.fs, v.committers[k], k)
      ensures Holds(h, digest, w.fs, w.committers[k], k) <==> Holds(h, digest, v.fs, v.committers[k], k)
    {
      OthersUndisturbed(h, digest, w.fs, v.fs, paths, w.committers[k], k);
    }
    forall k | 0 <= k < |w.readers| && k != j
      ensures ReadFine(h, digest, v.fs, v.readers[k], k)
    {
      ReadersUndisturbed(h, digest, w.fs, v.fs, paths, w.readers[k], k);
    }
  }

  lemma NextKeeps(h: Hash, digest: nat, targets: seq<nat>, w: World, e: Event, first: Files)
    requires |targets| == |w.readers| && Invariant(h, digest, w)
    ensures var v := Next(h, digest, targets, w, e);
            && Invariant(h, digest, v)
            && (Uncorrupt(h, digest, w.fs) ==> Uncorrupt(h, digest, v.fs))
            && (Safe(h, digest, w) ==> Safe(h, digest, v))
            && (Whole(h, digest, first, w.fs) ==> Whole(h, digest, first, v.fs))
  {
    hide CommitNext, ReadNext;
    match e
    case CommitStep(i, io, want) =>
      if i < |w.committers| {
        CommitStepKeeps(h, digest, targets, w, i, io, want, first);
      }
    case ReadStep(j, io, want) =>
      if j < |w.readers| {
        ReadStepKeeps(h, digest, targets, w, j, io, want, first);
      }
    case CommitCrash(i) =>
      var v := Next(h, digest, targets, w, e);
      assert forall k | 0 <= k < |w.committers| && Holds(h, digest, w.fs, w.committers[k], k) ::
          Holds(h, digest, v.fs, v.committers[k], k);
    case ReadCrash(_) =>
  }

  /** For any number of committers and readers, interleaved operation by
      operation and crashing anywhere: if the object or one partial has the digest
      at the start, then after every step the object or the partial of a committer
      that has not succeeded has it. Once no corrupt object is present none ever
      is, and each destination is untouched or complete. */
  lemma {:induction false} RunIsSafe(h: Hash, digest: nat, targets: seq<nat>, w: World, es: seq<Event>)
    requires |targets| == |w.readers| && Initial(w)
    ensures var v := Run(h, digest, targets, w, es);
            && Invariant(h, digest, v)
            && (Safe(h, digest, w) ==> Safe(h, digest, v))
            && (Uncorrupt(h, digest, w.fs) ==> Uncorrupt(h, digest, v.fs))
            && Whole(h, digest, w.fs, v.fs)
  {
    hide CommitNext, ReadNext, Next;
    if es == [] {
      assert forall i | 0 <= i < |w.committers| :: w.committers[i] in w.committers;
      assert forall j | 0 <= j < |w.readers| :: w.readers[j] in w.readers;
    } else {
      RunIsSafe(h, digest, targets, w, es[..|es| - 1]);
      NextKeeps(h, digest, targets, Run(h, digest, targets, w, es[..|es| - 1]), es[|es| - 1], w.fs);
    }
  }

  /** When every committer has returned success, the object has the digest. */
  lemma AllCommittedMeansStored(h: Hash, digest: nat, targets: seq<nat>, w: World, es: seq<Event>)
    requires |targets| == |w.readers| && Initial(w) && Safe(h, digest, w)
    requires forall c | c in Run(h, digest, targets, w, es).committers :: c.Committed?
    ensures Good(h, digest, Run(h, digest, targets, w, es).fs, Object)
  {
    RunIsSafe(h, digest, targets, w, es);
    var v := Run(h, digest, targets, w, es);
    assert forall i | 0 <= i < |v.committers| :: v.committers[i] in v.committers;
  }

  /** A crash changes no file, and whoever crashed does nothing more. */
  lemma CrashStops(h: Hash, digest: nat, targets: seq<nat>, w: World, i: nat, io: Io, want: nat)
    requires |targets| == |w.readers|
    ensures i < |w.committers| && w.committers[i] != Committed ==>
              var v := Next(h, digest, targets, w, CommitCrash(i));
              && v == w.(committers := w.committers[i := Crashed])
              && Next(h, digest, targets, v, CommitStep(i, io, want)) == v
    ensures i < |w.readers| && !w.readers[i].Materialized? ==>
              var v := Next(h, digest, targets, w, ReadCrash(i));
              && v == w.(readers := w.readers[i := Stopped])
              && Next(h, digest, targets, v, ReadStep(i, io, want)) == v
  {
  }

  /** What follows a rename that does not go through. Refused because something is
      there: good content is kept and the partial given up, corrupt content removed
      and the commit refused. Any other error: refused. The temporary goes each time. */
  lemma RefusedRenames(h: Hash, digest: nat, fs: Files, i: nat)
    requires Object in fs && Partial(i) in fs && Temp(i) in fs
    ensures var looked := CommitNext(h, digest, fs, Rename, i, Exists, 0);
            var hashed := CommitNext(h, digest, looked.fs, looked.pc, i, Works, 0);
            var dropped := CommitNext(h, digest, hashed.fs, hashed.pc, i, Works, 0);
            CommitNext(h, digest, dropped.fs, dropped.pc, i, Works, 0) ==
            if h(fs[Object]) == digest then Turn(fs - {Temp(i)} - {Partial(i)}, Committed)
            else Turn(fs - {Temp(i)} - {Object}, Refused)
    ensures var failed := CommitNext(h, digest, fs, Rename, i, Fails, 0);
            CommitNext(h, digest, failed.fs, failed.pc, i, Works, 0) == Turn(fs - {Temp(i)}, Refused)
  {
  }

  /** The same for a reader: an old destination is cleared and the rename tried
      again; any other error drops the temporary. */
  lemma RefusedPlacings(h: Hash, digest: nat, fs: Files, j: nat, d: nat, size: nat)
    requires Destination(d) in fs && CopyTemp(j) in fs
    ensures var refused := ReadNext(h, digest, fs, Placing(size), j, d, Exists, 0);
            var cleared := ReadNext(h, digest, refused.fs, refused.pc, j, d, Works, 0);
            ReadNext(h, digest, cleared.fs, cleared.pc, j, d, Works, 0) ==
            Turn(fs[Destination(d) := fs[CopyTemp(j)]] - {CopyTemp(j)}, Materialized(size))
    ensures var failed := ReadNext(h, digest, fs, Placing(size), j, d, Fails, 0);
            ReadNext(h, digest, failed.fs, failed.pc, j, d, Works, 0) == Turn(fs - {CopyTemp(j)}, NotRead)
  {
  }

  // ----- How long a stored object stays -----

  /** The committer found the object corrupt and is about to remove that path. */
  predicate Removing(pc: Commit) {
    pc.RemoveObject? || pc.RemoveExisting? || pc == DropTemp(Corrupt)
  }

  ghost predicate Settled(h: Hash, digest: nat, w: World) {
    Good(h, digest, w.fs, Object) && forall i | 0 <= i < |w.committers| :: !Removing(w.committers[i])
  }

  lemma SettledStep(h: Hash, digest: nat, targets: seq<nat>, w: World, e: Event)
    requires |targets| == |w.readers| && Invariant(h, digest, w) && Settled(h, digest, w)
    ensures Settled(h, digest, Next(h, digest, targets, w, e))
  {
    match e
    case CommitStep(i, io, want) =>
      if i < |w.committers| {
        hide ReadNext;
        var pc := w.committers[i];
        var t := CommitNext(h, digest, w.fs, pc, i, io, want);
        assert CommitFine(h, digest, w.fs, pc, i);
        assert Good(h, digest, t.fs, Object) && !Removing(t.pc);
      }
    case ReadStep(j, io, want) =>
      if j < |w.readers| {
        hide ReadNext, CommitNext;
        ReadStepLocally(h, digest, w.fs, w.readers[j], j, targets[j], io, want);
      }
    case CommitCrash(_) =>
    case ReadCrash(_) =>
  }

  lemma {:induction false} SettledStays(h: Hash, digest: nat, targets: seq<nat>, w: World, es: seq<Event>)
    requires |targets| == |w.readers| && Invariant(h, digest, w) && Settled(h, digest, w)
    ensures Invariant(h, digest, Run(h, digest, targets, w, es)) && Settled(h, digest, Run(h, digest, targets, w, es))
  {
    hide Next, Settled, Invariant;
    if es != [] {
      SettledStays(h, digest, targets, w, es[..|es| - 1]);
      var v := Run(h, digest, targets, w, es[..|es| - 1]);
      SettledStep(h, digest, targets, v, es[|es| - 1]);
      NextKeeps(h, digest, targets, v, es[|es| - 1], v.fs);
    }
  }

  /** A run in which a committer acts on what it found earlier and removes an object. */
  lemma RemovalIsPossible(h: Hash, digest: nat, targets: seq<nat>, w: World, i: nat) returns (es: seq<Event>)
    requires |targets| == |w.readers| && Good(h, digest, w.fs, Object)
    requires i < |w.committers| && Removing(w.committers[i])
    ensures Object !in Run(h, digest, targets, w, es).fs
  {
    var step := CommitStep(i, Works, 0);
    if w.committers[i] == DropTemp(Corrupt) {
      es := [step, step];
      assert es[..1] == [step] && [step][..0] == [];
      assert Run(h, digest, targets, w, [step]) == Next(h, digest, targets, w, step);
    } else {
      es := [step];
      assert es[..0] == [];
    }
  }

  /** A stored object survives every continuation exactly when no committer that
      found an earlier, corrupt object has yet to remove it: the check and the
      removal are separate operations, and the removal takes whatever is there. */
  lemma ObjectStaysExactlyWhen(h: Hash, digest: nat, targets: seq<nat>, w: World)
    requires |targets| == |w.readers| && Invariant(h, digest, w) && Good(h, digest, w.fs, Object)
    ensures (forall es :: Good(h, digest, Run(h, digest, targets, w, es).fs, Object)) <==>
            (forall i | 0 <= i < |w.committers| :: !Removing(w.committers[i]))
  {
    hide Next, Invariant;
    if i :| 0 <= i < |w.committers| && Removing(w.committers[i]) {
      var es := RemovalIsPossible(h, digest, targets, w, i);
      assert !Good(h, digest, Run(h, digest, targets, w, es).fs, Object);
    } else {
      forall es
        ensures Good(h, digest, Run(h, digest, targets, w, es).fs, Object)
      {
        SettledStays(h, digest, targets, w, es);
      }
    }
  }

  function Stepped(h: Hash, digest: nat, w: World, i: nat): World
    requires w.readers == []
  {
    Next(h, digest, [], w, CommitStep(i, Works, 0))
  }

  lemma RunOne(h: Hash, digest: nat, w: World, es: seq<Event>, i: nat)
    requires w.readers == []
    ensures Run(h, digest, [], w, es + [CommitStep(i, Works, 0)]) == Stepped(h, digest, Run(h, digest, [], w, es), i)
  {
    assert (es + [CommitStep(i, Works, 0)])[..|es|] == es;
  }

  /** Two committers of the empty content, over a corrupt object. */
  function Clash(): World {
    World(map[Object := [1], Partial(0) := [], Partial(1) := []], [HashPartial, HashPartial], [])
  }

  lemma BothFindItCorrupt(h: Hash, digest: nat, i: nat, w: World)
    requires h([]) == digest && h([1]) != digest && i < 2
    requires w.fs == Clash().fs && |w.committers| == 2 && w.committers[i] == HashPartial && w.readers == []
    ensures Stepped(h, digest, Stepped(h, digest, Stepped(h, digest, w, i), i), i)
         == w.(committers := w.committers[i := RemoveObject])
  {
    var a := Stepped(h, digest, w, i);
    assert a == w.(committers := w.committers[i := LookForObject]);
    var b := Stepped(h, digest, a, i);
    assert b == w.(committers := w.committers[i := HashObject]);
  }

  lemma OneStartsOver(h: Hash, digest: nat, w: World)
    requires w == Clash().(committers := [RemoveObject, RemoveObject])
    ensures Stepped(h, digest, Stepped(h, digest, w, 1), 1)
         == World(map[Partial(0) := [], Partial(1) := [], Temp(1) := []], [RemoveObject, Copying([], 0)], [])
  {
    var a := Stepped(h, digest, w, 1);
    assert a == World(map[Partial(0) := [], Partial(1) := []], [RemoveObject, StartCopy], []);
  }

  lemma OneReplacesIt(h: Hash, digest: nat, w: World)
    requires w == World(map[Partial(0) := [], Partial(1) := [], Temp(1) := []], [RemoveObject, Copying([], 0)], [])
    ensures Stepped(h, digest, Stepped(h, digest, Stepped(h, digest, w, 1), 1), 1)
         == World(map[Object := [], Partial(0) := []], [RemoveObject, Committed], [])
  {
    var a := Stepped(h, digest, w, 1);
    assert a == World(w.fs, [RemoveObject, Rename], []);
    var b := Stepped(h, digest, a, 1);
    assert b == World(map[Object := [], Partial(0) := [], Partial(1) := []], [RemoveObject, RemovePartial], []);
  }

  /** It does happen: after both found the object corrupt, one replaces it and
      succeeds, and the other removes the good object it never looked at. The
      other's partial then holds the content. */
  lemma StoredObjectCanVanish(h: Hash, digest: nat) returns (es: seq<Event>)
    requires h([]) == digest && h([1]) != digest
    ensures Run(h, digest, [], Clash(), es) == World(map[Partial(0) := []], [StartCopy, Committed], [])
  {
    hide Next;
    var w := Clash();
    var zero, one := CommitStep(0, Works, 0), CommitStep(1, Works, 0);
    BothFindItCorrupt(h, digest, 0, w);
    RunOne(h, digest, w, [], 0);
    RunOne(h, digest, w, [] + [zero], 0);
    RunOne(h, digest, w, [] + [zero] + [zero], 0);
    es := [] + [zero] + [zero] + [zero];
    var found := Run(h, digest, [], w, es);
    BothFindItCorrupt(h, digest, 1, found);
    RunOne(h, digest, w, es, 1);
    RunOne(h, digest, w, es + [one], 1);
    RunOne(h, digest, w, es + [one] + [one], 1);
    es := es + [one] + [one] + [one];
    assert Run(h, digest, [], w, es) == w.(committers := [RemoveObject, RemoveObject]);
    es := OneCommits(h, digest, es);
    RunOne(h, digest, w, es, 0);
    OtherRemoves(h, digest);
    es := es + [zero];
  }

  lemma OneCommits(h: Hash, digest: nat, before: seq<Event>) returns (es: seq<Event>)
    requires Run(h, digest, [], Clash(), before) == Clash().(committers := [RemoveObject, RemoveObject])
    ensures Run(h, digest, [], Clash(), es) == World(map[Object := [], Partial(0) := []], [RemoveObject, Committed], [])
  {
    hide Next, Run;
    var w, one := Clash(), CommitStep(1, Works, 0);
    OneStartsOver(h, digest, Run(h, digest, [], w, before));
    RunOne(h, digest, w, before, 1);
    RunOne(h, digest, w, before + [one], 1);
    OneReplacesIt(h, digest, Run(h, digest, [], w, before + [one] + [one]));
    RunOne(h, digest, w, before + [one] + [one], 1);
    RunOne(h, digest, w, before + [one] + [one] + [one], 1);
    RunOne(h, digest, w, before + [one] + [one] + [one] + [one], 1);
    es := before + [one] + [one] + [one] + [one] + [one];
  }

  lemma OtherRemoves(h: Hash, digest: nat)
    ensures Stepped(h, digest, World(map[Object := [], Partial(0) := []], [RemoveObject, Committed], []), 0)
         == World(map[Partial(0) := []], [StartCopy, Committed], [])
  {
  }

  // ----- The operations run alone -----

  /** Operations of `commit_verified_file` and `materialize` that can fail. */
  datatype Op = ReadSource | MakeRoot | ReadObject | DropObject | CopyBytes | DropPartial
              | RenameExists | RenameError | DropDestination | RenameAgain

  /** What the operating system says to one operation, and how much a read asks for. */
  datatype Answer = Answer(io: Io, want: nat)

  function Says(failing: set<Op>, op: Op): Answer {
    Answer(if op in failing then Fails else Works, 0)
  }

  /** Where committer `i` gets to by itself. */
  function CommitAlone(h: Hash, digest: nat, i: nat, turn: Turn<Commit>, script: seq<Answer>): Turn<Commit> {
    if script == [] then turn
    else
      var t, a := CommitAlone(h, digest, i, turn, script[..|script| - 1]), script[|script| - 1];
      CommitNext(h, digest, t.fs, t.pc, i, a.io, a.want)
  }

  function ReadAlone(h: Hash, digest: nat, j: nat, d: nat, turn: Turn<Read>, script: seq<Answer>): Turn<Read> {
    if script == [] then turn
    else
      var t, a := ReadAlone(h, digest, j, d, turn, script[..|script| - 1]), script[|script| - 1];
      ReadNext(h, digest, t.fs, t.pc, j, d, a.io, a.want)
  }

  lemma CommitOne(h: Hash, digest: nat, i: nat, turn: Turn<Commit>, script: seq<Answer>, a: Answer)
    ensures var t := CommitAlone(h, digest, i, turn, script);
            CommitAlone(h, digest, i, turn, script + [a]) == CommitNext(h, digest, t.fs, t.pc, i, a.io, a.want)
  {
    assert (script + [a])[..|script|] == script;
  }

  lemma ReadOne(h: Hash, digest: nat, j: nat, d: nat, turn: Turn<Read>, script: seq<Answer>, a: Answer)
    ensures var t := ReadAlone(h, digest, j, d, turn, script);
            ReadAlone(h, digest, j, d, turn, script + [a]) == ReadNext(h, digest, t.fs, t.pc, j, d, a.io, a.want)
  {
    assert (script + [a])[..|script|] == script;
  }

  lemma {:induction false} CommitThen(h: Hash, digest: nat, i: nat, turn: Turn<Commit>, a: seq<Answer>, b: seq<Answer>)
    ensures CommitAlone(h, digest, i, turn, a + b) == CommitAlone(h, digest, i, CommitAlone(h, digest, i, turn, a), b)
  {
    hide CommitNext;
    if b == [] {
      assert a + b == a;
    } else {
      CommitThen(h, digest, i, turn, a, b[..|b| - 1]);
      assert (a + b)[..|a| + |b| - 1] == a + b[..|b| - 1];
    }
  }

  lemma {:induction false} ReadThen(h: Hash, digest: nat, j: nat, d: nat, turn: Turn<Read>, a: seq<Answer>, b: seq<Answer>)
    ensures ReadAlone(h, digest, j, d, turn, a + b) == ReadAlone(h, digest, j, d, ReadAlone(h, digest, j, d, turn, a), b)
  {
    hide ReadNext;
    if b == [] {
      assert a + b == a;
    } else {
      ReadThen(h, digest, j, d, turn, a, b[..|b| - 1]);
      assert (a + b)[..|a| + |b| - 1] == a + b[..|b| - 1];
    }
  }

  /** How far a copy gets: not begun, so many bytes in, all there, or given up
      leaving so many bytes, if its target was created at all. */
  datatype Progress = Idle | At(bytes: nat) | Copied | GaveUp(left: Option<nat>) {
    predicate Within(size: nat) {
      (At? ==> bytes <= size) && (GaveUp? && left.Some? ==> left.value <= size)
    }

    predicate Going() {
      Idle? || At?
    }
  }

  /** One open, piece or flush of a copy of `size` bytes. */
  function Progressed(size: nat, p: Progress, a: Answer): (r: Progress)
    requires p.Going() && p.Within(size)
    ensures r.Within(size)
  {
    if p.Idle? then (if a.io.Works? then At(0) else GaveUp(None))
    else if p.bytes >= size then (if a.io.Works? then Copied else GaveUp(Some(p.bytes)))
    else
      var upTo := p.bytes + ReadSize(a.want, size - p.bytes);
      if a.io.Works? then At(upTo) else GaveUp(Some(upTo))
  }

  /** The script leads a copy from nothing to this point. */
  ghost predicate Leads(size: nat, script: seq<Answer>, p: Progress) {
    p.Within(size) &&
    (if script == [] then p.Idle?
     else exists q: Progress | q.Within(size) && q.Going() ::
            Leads(size, script[..|script| - 1], q) && p == Progressed(size, q, script[|script| - 1]))
  }

  lemma LeadsFromNothing(size: nat)
    ensures Leads(size, [], Idle)
  {
  }

  lemma LeadsOn(size: nat, script: seq<Answer>, p: Progress, a: Answer)
    requires Leads(size, script, p) && p.Going()
    ensures Leads(size, script + [a], Progressed(size, p, a))
  {
    assert (script + [a])[..|script|] == script;
  }

  /** The copy inside a commit, and inside a read-out: the files and the place in
      the protocol it has led to. */
  function CommitCopied(fs: Files, i: nat, source: Content, p: Progress): Turn<Commit>
    requires p.Within(|source|)
  {
    match p
    case Idle => Turn(fs, StartCopy)
    case At(k) => Turn(fs[Temp(i) := source[..k]], Copying(source, k))
    case Copied => Turn(fs[Temp(i) := source], Rename)
    case GaveUp(left) => Turn(if left.Some? then fs[Temp(i) := source[..left.value]] else fs, Refused)
  }

  function ReadCopied(fs: Files, j: nat, source: Content, p: Progress): Turn<Read>
    requires p.Within(|source|)
  {
    match p
    case Idle => Turn(fs, Opening)
    case At(k) => Turn(fs[CopyTemp(j) := source[..k]], Writing(source, k))
    case Copied => Turn(fs[CopyTemp(j) := source], Placing(|source|))
    case GaveUp(left) => Turn(if left.Some? then fs[CopyTemp(j) := source[..left.value]] else fs, NotRead)
  }

  lemma CommitCopyStep(h: Hash, digest: nat, i: nat, fs: Files, p: Progress, a: Answer)
    requires Partial(i) in fs && p.Going() && p.Within(|fs[Partial(i)]|)
    ensures var source := fs[Partial(i)];
            var t := CommitCopied(fs, i, source, p);
            CommitNext(h, digest, t.fs, t.pc, i, a.io, a.want) == CommitCopied(fs, i, source, Progressed(|source|, p, a))
  {
    var source := fs[Partial(i)];
    assert source[..0] == [] && source[..|source|] == source;
  }

  lemma ReadCopyStep(h: Hash, digest: nat, j: nat, d: nat, fs: Files, p: Progress, a: Answer)
    requires Object in fs && p.Going() && p.Within(|fs[Object]|)
    ensures var source := fs[Object];
            var t := ReadCopied(fs, j, source, p);
            ReadNext(h, digest, t.fs, t.pc, j, d, a.io, a.want) == ReadCopied(fs, j, source, Progressed(|source|, p, a))
  {
    var source := fs[Object];
    assert source[..0] == [] && source[..|source|] == source;
  }

  lemma {:induction false} CommitCopies(h: Hash, digest: nat, i: nat, fs: Files, script: seq<Answer>, p: Progress)
    requires Partial(i) in fs && Leads(|fs[Partial(i)]|, script, p)
    ensures CommitAlone(h, digest, i, Turn(fs, StartCopy), script) == CommitCopied(fs, i, fs[Partial(i)], p)
  {
    hide CommitNext;
    if script != [] {
      var size, before, a := |fs[Partial(i)]|, script[..|script| - 1], script[|script| - 1];
      var q: Progress :| q.Within(size) && q.Going() && Leads(size, before, q) && p == Progressed(size, q, a);
      CommitCopies(h, digest, i, fs, before, q);
      CommitCopyStep(h, digest, i, fs, q, a);
    }
  }

  lemma {:induction false} ReadCopies(h: Hash, digest: nat, j: nat, d: nat, fs: Files, script: seq<Answer>, p: Progress)
    requires Object in fs && Leads(|fs[Object]|, script, p)
    ensures ReadAlone(h, digest, j, d, Turn(fs, Opening), script) == ReadCopied(fs, j, fs[Object], p)
  {
    hide ReadNext;
    if script != [] {
      var size, before, a := |fs[Object]|, script[..|script| - 1], script[|script| - 1];
      var q: Progress :| q.Within(size) && q.Going() && Leads(size, before, q) && p == Progressed(size, q, a);
      ReadCopies(h, digest, j, d, fs, before, q);
      ReadCopyStep(h, digest, j, d, fs, q, a);
    }
  }

  class Store {
    const hash: Hash
    var files: Files

    constructor (hash: Hash, files: Files)
      ensures this.hash == hash && this.files == files
    {
      this.hash, this.files := hash, files;
    }

    /** The digest of a whole file, read through the buffer in pieces of any size. */
    method HashFile(p: Path) returns (r: Option<nat>)
      ensures r == if p in files then Some(hash(files[p])) else None
    {
      if p !in files {
        return None;
      }
      var source := files[p];
      var hashed: Content, at := [], 0;
      while at < |source|
        invariant at <= |source| && hashed == source[..at]
      {
        var want: nat := *;
        var n := ReadSize(want, |source| - at);
        hashed, at := hashed + source[at..at + n], at + n;
      }
      assert source[..|source|] == source;
      return Some(hash(hashed));
    }

    /** Copies through the buffer in pieces. A copy that fails may do so before
        its target exists, after any piece, or at the flush, and leaves what it had
        written there; nothing else changes. `script` is what it met on the way. */
    method CopyFile(from: Path, to: Path, failing: set<Op>)
      returns (r: Option<nat>, ghost script: seq<Answer>, ghost p: Progress)
      requires from != to
      modifies this`files
      ensures r.Some? <==> from in old(files) && CopyBytes !in failing
      ensures r.Some? ==> p.Copied? && r.value == |old(files)[from]| && files == old(files)[to := old(files)[from]]
      ensures r.None? && from !in old(files) ==> files == old(files)
      ensures r.None? && from in old(files) ==>
                var source := old(files)[from];
                && p.GaveUp? && p.Within(|source|)
                && files == if p.left.Some? then old(files)[to := source[..p.left.value]] else old(files)
      ensures from in old(files) ==> Leads(|old(files)[from]|, script, p)
    {
      hide Leads;
      script, p := [], Idle;
      if from !in files {
        return None, script, p;
      }
      var source := files[from];
      ghost var size := |source|;
      LeadsFromNothing(size);
      var stop: bool := *;
      if CopyBytes in failing && stop {
        LeadsOn(size, script, p, Answer(Fails, 0));
        return None, script + [Answer(Fails, 0)], GaveUp(None);
      }
      LeadsOn(size, script, p, Answer(Works, 0));
      script, p := script + [Answer(Works, 0)], At(0);
      files := files[to := []];
      var copied := 0;
      assert source[..0] == [];
      while copied < |source|
        invariant copied <= |source| && files == old(files)[to := source[..copied]]
        invariant Leads(size, script, p) && p == At(copied)
      {
        var want: nat := *;
        var n := ReadSize(want, |source| - copied);
        stop := *;
        var a := Answer(if CopyBytes in failing && stop then Fails else Works, want);
        LeadsOn(size, script, p, a);
        assert source[..copied] + source[copied..copied + n] == source[..copied + n];
        files := files[to := files[to] + source[copied..copied + n]];
        copied := copied + n;
        script, p := script + [a], Progressed(size, p, a);
        if a.io.Fails? {
          return None, script, p;
        }
      }
      assert source[..|source|] == source;
      LeadsOn(size, script, p, Says(failing, CopyBytes));
      script, p := script + [Says(failing, CopyBytes)], Progressed(size, p, Says(failing, CopyBytes));
      r := if CopyBytes in failing then None else Some(copied);
    }

    /** True exactly when the object is there with its digest. */
    method Contains(digest: nat) returns (r: bool)
      ensures r == Good(hash, digest, files, Object)
    {
      if Object !in files {
        return false;
      }
      var found := HashFile(Object);
      return found == Some(digest);
    }

    /** The checks before the copy: the partial, the root, and an object already
        there, which is removed when its digest is wrong. */
    method ClearTheWay(id: nat, digest: nat, failing: set<Op>) returns (pc: Commit, ghost script: seq<Answer>)
      modifies this`files
      ensures CommitAlone(hash, digest, id, Turn(old(files), HashPartial), script) == Turn(files, pc)
      ensures pc.Refused? || pc.RemovePartial? || pc.StartCopy?
      ensures !pc.Refused? ==> Good(hash, digest, old(files), Partial(id))
      ensures pc.RemovePartial? ==> Good(hash, digest, files, Object)
      ensures pc.StartCopy? ==> Object !in files
      ensures files == old(files) || (!Good(hash, digest, old(files), Object) && files == old(files) - {Object})
      ensures failing == {} && Good(hash, digest, old(files), Partial(id)) ==> !pc.Refused?
    {
      hide CommitAlone;
      ghost var first := Turn(files, HashPartial);
      NothingYet(hash, digest, id, first);
      var found := HashFile(Partial(id));
      CommitOne(hash, digest, id, first, [], Says(failing, ReadSource));
      script := [] + [Says(failing, ReadSource)];
      if ReadSource in failing || found != Some(digest) {
        return Refused, script;
      }
      CommitOne(hash, digest, id, first, script, Says(failing, MakeRoot));
      script := script + [Says(failing, MakeRoot)];
      if MakeRoot in failing {
        return Refused, script;
      }
      if Object !in files {
        return StartCopy, script;
      }
      found := HashFile(Object);
      CommitOne(hash, digest, id, first, script, Says(failing, ReadObject));
      script := script + [Says(failing, ReadObject)];
      if ReadObject in failing {
        return Refused, script;
      }
      if found == Some(digest) {
        return RemovePartial, script;
      }
      CommitOne(hash, digest, id, first, script, Says(failing, DropObject));
      script := script + [Says(failing, DropObject)];
      if DropObject in failing {
        return Refused, script;
      }
      files := files - {Object};
      return StartCopy, script;
    }

    /** Copy to the temporary and rename it over the object path, where, run
        alone, nothing is: hashing it after a refused rename fails. */
    method PlaceCopy(id: nat, digest: nat, failing: set<Op>) returns (pc: Commit, ghost script: seq<Answer>)
      requires Partial(id) in files && Object !in files && Temp(id) !in files
      modifies this`files
      ensures CommitAlone(hash, digest, id, Turn(old(files), StartCopy), script) == Turn(files, pc)
      ensures pc.Refused? || pc.RemovePartial?
      ensures pc.RemovePartial? ==> files == old(files)[Object := old(files)[Partial(id)]]
      ensures pc.Refused? ==> Object !in files && SameOutside(old(files), files, {Temp(id)})
      ensures failing == {} ==> pc.RemovePartial?
    {
      hide CommitAlone;
      ghost var first := Turn(files, StartCopy);
      ghost var p;
      var copied;
      copied, script, p := CopyFile(Partial(id), Temp(id), failing);
      CommitCopies(hash, digest, id, old(files), script, p);
      if copied.None? {
        return Refused, script;
      }
      ghost var a := Answer(if RenameExists in failing then Exists else if RenameError in failing then Fails else Works, 0);
      CommitOne(hash, digest, id, first, script, a);
      script := script + [a];
      if RenameExists in failing || RenameError in failing {
        CommitOne(hash, digest, id, first, script, Answer(Works, 0));
        script := script + [Answer(Works, 0)];
        if RenameExists !in failing {
          files := files - {Temp(id)};
        }
        return Refused, script;
      }
      files := files[Object := files[Temp(id)]] - {Temp(id)};
      return RemovePartial, script;
    }

    /** Success means the object is good and the partial gone; an error leaves the
        partial alone; either way a good object stays and nothing else changes but
        the temporary. Without failures it succeeds exactly on a good partial. The
        call is one run of the protocol by this committer alone. */
    method CommitVerifiedFile(id: nat, digest: nat, failing: set<Op>) returns (ok: bool, ghost script: seq<Answer>)
      requires Temp(id) !in files
      modifies this`files
      ensures CommitAlone(hash, digest, id, Turn(old(files), HashPartial), script)
           == Turn(files, if ok then Committed else Refused)
      ensures ok ==> Good(hash, digest, files, Object) && Partial(id) !in files
      ensures ok ==> Good(hash, digest, old(files), Partial(id))
      ensures !ok ==> (Partial(id) in files <==> Partial(id) in old(files))
      ensures Partial(id) in files ==> Partial(id) in old(files) && files[Partial(id)] == old(files)[Partial(id)]
      ensures Good(hash, digest, old(files), Object) ==> Good(hash, digest, files, Object)
      ensures SameOutside(old(files), files, {Object, Partial(id), Temp(id)})
      ensures failing == {} ==> (ok <==> Good(hash, digest, old(files), Partial(id))) && Temp(id) !in files
    {
      hide CommitAlone;
      ghost var first := Turn(files, HashPartial);
      var pc;
      pc, script := ClearTheWay(id, digest, failing);
      if pc.StartCopy? {
        ghost var more;
        pc, more := PlaceCopy(id, digest, failing);
        CommitThen(hash, digest, id, first, script, more);
        script := script + more;
      }
      if pc.Refused? {
        return false, script;
      }
      CommitOne(hash, digest, id, first, script, Says(failing, DropPartial));
      script := script + [Says(failing, DropPartial)];
      if DropPartial in failing {
        return false, script;
      }
      files := files - {Partial(id)};
      return true, script;
    }

    /** Puts the finished temporary at the destination, clearing an old one when
        the first rename is refused because of it. */
    method PlaceDestination(digest: nat, d: nat, temp: nat, size: nat, failing: set<Op>)
      returns (ok: bool, ghost script: seq<Answer>)
      requires CopyTemp(temp) in files
      modifies this`files
      ensures ReadAlone(hash, digest, temp, d, Turn(old(files), Placing(size)), script)
           == Turn(files, if ok then Materialized(size) else NotRead)
      ensures ok ==> files == old(files)[Destination(d) := old(files)[CopyTemp(temp)]] - {CopyTemp(temp)}
      ensures !ok ==> SameOutside(old(files), files, {Destination(d), CopyTemp(temp)})
      ensures !ok && Destination(d) in files ==>
                Destination(d) in old(files) && files[Destination(d)] == old(files)[Destination(d)]
      ensures !ok && Destination(d) in old(files) && Destination(d) !in files ==> RenameAgain in failing
      ensures failing == {} ==> ok
    {
      hide ReadAlone;
      ghost var first := Turn(files, Placing(size));
      NothingRead(hash, digest, temp, d, first);
      ghost var a := Answer(if RenameExists in failing then Exists else if RenameError in failing then Fails else Works, 0);
      ReadOne(hash, digest, temp, d, first, [], a);
      script := [] + [a];
      if RenameExists in failing {
        ReadOne(hash, digest, temp, d, first, script, Says(failing, DropDestination));
        script := script + [Says(failing, DropDestination)];
        if DropDestination in failing || Destination(d) !in files {
          return false, script;
        }
        files := files - {Destination(d)};
        ReadOne(hash, digest, temp, d, first, script, Says(failing, RenameAgain));
        script := script + [Says(failing, RenameAgain)];
        if RenameAgain in failing {
          return false, script;
        }
      } else if RenameError in failing {
        ReadOne(hash, digest, temp, d, first, script, Answer(Works, 0));
        script := script + [Answer(Works, 0)];
        files := files - {CopyTemp(temp)};
        return false, script;
      }
      files := files[Destination(d) := files[CopyTemp(temp)]] - {CopyTemp(temp)};
      return true, script;
    }

    /** Success means the destination is a whole copy of the object, of the size
        returned; an error leaves it as it was, or absent when the second rename
        failed after the old one was cleared. Nothing else changes but the temporary.
        The call is one run of the protocol by this reader alone. */
    method Materialize(digest: nat, d: nat, temp: nat, failing: set<Op>) returns (r: Option<nat>, ghost script: seq<Answer>)
      requires CopyTemp(temp) !in files
      modifies this`files
      ensures ReadAlone(hash, digest, temp, d, Turn(old(files), Hashing), script)
           == Turn(files, if r.Some? then Materialized(r.value) else NotRead)
      ensures r.Some? ==> Good(hash, digest, old(files), Object) && r.value == |old(files)[Object]|
      ensures r.Some? ==> Destination(d) in files && files[Destination(d)] == old(files)[Object]
      ensures r.None? && Destination(d) in files ==>
                Destination(d) in old(files) && files[Destination(d)] == old(files)[Destination(d)]
      ensures r.None? && Destination(d) in old(files) && Destination(d) !in files ==> RenameAgain in failing
      ensures SameOutside(old(files), files, {Destination(d), CopyTemp(temp)})
      ensures failing == {} ==> (r.Some? <==> Good(hash, digest, old(files), Object)) && CopyTemp(temp) !in files
    {
      hide ReadAlone;
      ghost var first := Turn(files, Hashing);
      NothingRead(hash, digest, temp, d, first);
      var found := HashFile(Object);
      ReadOne(hash, digest, temp, d, first, [], Says(failing, ReadObject));
      script := [] + [Says(failing, ReadObject)];
      if ReadObject in failing || found != Some(digest) {
        return None, script;
      }
      if MakeRoot in failing {
        ReadOne(hash, digest, temp, d, first, script, Says(failing, MakeRoot));
        return None, script + [Says(failing, MakeRoot)];
      }
      ghost var more, p;
      r, more, p := CopyFile(Object, CopyTemp(temp), failing);
      ReadCopies(hash, digest, temp, d, old(files), more, p);
      ReadThen(hash, digest, temp, d, first, script, more);
      script := script + more;
      if r.None? {
        return;
      }
      var ok;
      ok, more := PlaceDestination(digest, d, temp, r.value, failing);
      ReadThen(hash, digest, temp, d, first, script, more);
      script := script + more;
      if !ok {
        r := None;
      }
    }
  }

  lemma NothingYet(h: Hash, digest: nat, i: nat, turn: Turn<Commit>)
    ensures CommitAlone(h, digest, i, turn, []) == turn
  {
  }

  lemma NothingRead(h: Hash, digest: nat, j: nat, d: nat, turn: Turn<Read>)
    ensures ReadAlone(h, digest, j, d, turn, []) == turn
  {
  }
}
