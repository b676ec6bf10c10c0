/** The durable allocator of membership serials: one high-water mark in a file,
    written through before each serial is handed out. */
module SerialStore {
  import opened Wrappers

  type U64 = n: nat | n <= U64_MAX

  const U64_MAX: nat := 0xffff_ffff_ffff_ffff

  /** The serial file. Text that does not parse as a number is `Unreadable`. */
  datatype File = Missing | Mark(value: U64) | Unreadable

  /** How a write ends: done, or failed with the old text, the new text, or
      something unreadable left behind. */
  datatype Write = Done | FailedKeepingOld | FailedKeepingNew | FailedUnreadable

  function SaturatingSucc(n: U64): U64 {
    if n < U64_MAX then n + 1 else n
  }

  function AfterWrite(file: File, next: U64, write: Write): File {
    match write
    case Done => Mark(next)
    case FailedKeepingOld => file
    case FailedKeepingNew => Mark(next)
    case FailedUnreadable => Unreadable
  }

  /** What opening reads from the file: the mark, zero when there is no file, or an error. */
  function Resume(file: File): Option<U64> {
    match file
    case Missing => Some(0)
    case Mark(v) => Some(v)
    case Unreadable => None
  }

  /** The allocator, its directory and every serial handed out so far. */
  datatype Allocator = Allocator(file: File, handle: Option<U64>, issued: seq<U64>)

  datatype Event =
    | Open
    | Allocate(write: Write)
    | CrashInAllocate(write: Write)
    | Close

  /** One event. Only one handle is open at a time. */
  function Step(a: Allocator, e: Event): Allocator {
    match e
    case Open => if a.handle.None? then a.(handle := Resume(a.file)) else a
    case Close => a.(handle := None)
    case Allocate(w) =>
      if a.handle.None? then a
      else
        var next := SaturatingSucc(a.handle.value);
        var file := AfterWrite(a.file, next, w);
        if w.Done? then Allocator(file, Some(next), a.issued + [next]) else a.(file := file)
    case CrashInAllocate(w) =>
      if a.handle.None? then a
      else a.(file := AfterWrite(a.file, SaturatingSucc(a.handle.value), w), handle := None)
  }

  function Run(a: Allocator, events: seq<Event>): Allocator
    decreases |events|
  {
    if events == [] then a else Step(Run(a, events[..|events| - 1]), events[|events| - 1])
  }

  /** The file, the handle and the history agree: neither ever falls below a serial handed out. */
  ghost predicate Durable(a: Allocator) {
    && (forall i | 0 <= i < |a.issued| :: a.handle.Some? ==> a.issued[i] <= a.handle.value)
    && (forall i | 0 <= i < |a.issued| :: a.file.Mark? ==> a.issued[i] <= a.file.value)
    && (a.file.Missing? ==> a.issued == [])
    && (forall i, j | 0 <= i < j < |a.issued| ::
          a.issued[i] < a.issued[j] || a.issued[i] == a.issued[j] == U64_MAX)
  }

  lemma {:induction false} RunKeepsDurable(a: Allocator, events: seq<Event>)
    requires Durable(a)
    ensures Durable(Run(a, events))
    decreases |events|
  {
    if events != [] {
      RunKeepsDurable(a, events[..|events| - 1]);
    }
  }

  predicate Increasing(issued: seq<U64>) {
    forall i, j | 0 <= i < j < |issued| :: issued[i] < issued[j]
  }

  /** The counter can still move, or its last value has not been handed out. */
  predicate HasRoom(a: Allocator) {
    a.handle.Some? ==> a.handle.value < U64_MAX || U64_MAX !in a.issued
  }

  /** Before an allocation: the serial it would hand out exceeds every earlier
      one exactly when there is room. */
  lemma NextSerialExceedsExactlyWhen(a: Allocator)
    requires Durable(a) && a.handle.Some?
    ensures (forall i | 0 <= i < |a.issued| :: a.issued[i] < SaturatingSucc(a.handle.value)) <==> HasRoom(a)
  {
    if U64_MAX in a.issued {
      var i :| 0 <= i < |a.issued| && a.issued[i] == U64_MAX;
      assert a.issued[i] <= a.handle.value;
    }
  }

  /** There is room at every allocation of the run that hands out a serial. */
  predicate RoomThroughout(a: Allocator, events: seq<Event>)
    decreases |events|
  {
    events != [] ==>
      && RoomThroughout(a, events[..|events| - 1])
      && (events[|events| - 1] == Allocate(Done) ==> HasRoom(Run(a, events[..|events| - 1])))
  }

  /** Over any run of opens, allocations, failed writes, crashes and reopens,
      from any file on disk, serials come out strictly increasing exactly as
      long as there was room whenever one was handed out. */
  lemma {:induction false} SerialsIncreaseUntilSaturation(file: File, events: seq<Event>)
    ensures var a := Allocator(file, None, []); Increasing(Run(a, events).issued) <==> RoomThroughout(a, events)
    decreases |events|
  {
    if events != [] {
      var a, before := Allocator(file, None, []), events[..|events| - 1];
      SerialsIncreaseUntilSaturation(file, before);
      RunKeepsDurable(a, before);
      var b := Run(a, before);
      if events[|events| - 1] == Allocate(Done) && b.handle.Some? {
        NextSerialExceedsExactlyWhen(b);
        IncreasingExtends(b.issued, SaturatingSucc(b.handle.value));
      }
    }
  }

  lemma IncreasingExtends(issued: seq<U64>, next: U64)
    ensures Increasing(issued + [next]) <==> Increasing(issued) && forall i | 0 <= i < |issued| :: issued[i] < next
  {
    var more := issued + [next];
    assert forall i | 0 <= i < |issued| :: more[i] == issued[i];
    if Increasing(more) {
      forall i | 0 <= i < |issued|
        ensures issued[i] < next
      {
        assert more[i] < more[|issued|];
      }
    }
  }

  /** At the maximum of 64 bits the counter stands still and the same serial comes out again. */
  lemma SaturationRepeats()
    ensures Run(Allocator(Mark(18446744073709551614), None, []), [Open, Allocate(Done), Allocate(Done)]).issued
         == [18446744073709551615, 18446744073709551615]
  {
    var a := Allocator(Mark(18446744073709551614), None, []);
    var es := [Open, Allocate(Done), Allocate(Done)];
    assert es[..2] == [Open, Allocate(Done)] && es[..2][..1] == [Open] && [Open][..0] == [];
    assert Run(a, [Open]) == a.(handle := Some(18446744073709551614));
    assert Run(a, es[..2]).issued == [18446744073709551615];
  }

  /** A process that dies while its write is under way, or closes, forgets its
      handle; the next one resumes from what the write left on disk. */
  lemma ReopeningResumes(a: Allocator, h: U64, w: Write)
    requires a.handle == Some(h)
    ensures var died := Step(a, CrashInAllocate(w));
            var again := Step(died, Open);
            && died.handle == None && died.issued == again.issued == a.issued && died.file == again.file
            && (w.Done? || w.FailedKeepingNew? ==> died.file == Mark(if h < 18446744073709551615 then h + 1 else h))
            && (w.FailedKeepingOld? ==> died.file == a.file)
            && (w.FailedUnreadable? ==> died.file == Unreadable && again.handle == None)
            && (died.file.Mark? ==> again.handle == Some(died.file.value))
            && (died.file.Missing? ==> again.handle == Some(0))
    ensures Step(a, Close) == Allocator(a.file, None, a.issued)
    ensures !w.Done? ==> Step(a, Allocate(w)) == Allocator(Step(a, CrashInAllocate(w)).file, a.handle, a.issued)
  {
  }

  /** The allocator object: the directory's file and the open handle's counter. */
  class MembershipSerialStore {
    var file: File
    var current: Option<U64>

    constructor (file: File)
      ensures this.file == file && current == None
    {
      this.file := file;
      current := None;
    }

    ghost function View(issued: seq<U64>): Allocator
      reads this
    {
      Allocator(file, current, issued)
    }

    method OpenHandle() returns (ok: bool)
      requires current.None?
      modifies this
      ensures ok <==> !old(file).Unreadable?
      ensures forall issued: seq<U64> :: View(issued) == Step(old(View(issued)), Open)
    {
      if file.Unreadable? {
        return false;
      }
      current := Some(if file.Missing? then 0 else file.value);
      return true;
    }

    method AllocateSerial(write: Write) returns (r: Option<U64>)
      requires current.Some?
      modifies this
      ensures r.Some? <==> write.Done?
      ensures r.Some? ==> file == Mark(r.value) && current == r
      ensures forall issued: seq<U64> ::
                View(if r.Some? then issued + [r.value] else issued) == Step(old(View(issued)), Allocate(write))
    {
      var next := SaturatingSucc(current.value);
      file := AfterWrite(file, next, write);
      if !write.Done? {
        return None;
      }
      current := Some(next);
      return current;
    }
  }
}
