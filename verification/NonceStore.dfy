/** Durable replay protection for human-signed command authorizations. */
module NonceStore {
  import opened Wrappers
  import opened Identity

  datatype NonceEntry = NonceEntry(networkId: NetworkId, nonce: Nonce, expiresAt: Time)

  /** The nonce file. Text that is not a JSON list of entries is `Unreadable`. */
  datatype File = Missing | Entries(entries: seq<NonceEntry>) | Unreadable

  /** How the file operations of one call end. A failed write leaves the old
      text, the new text or something unreadable. */
  datatype Io = Fine | ReadFails | WriteKeepsOld | WriteKeepsNew | WriteUnreadable

  datatype Outcome = Recorded | Replay | NetworkMismatch | IoFailed

  function EntryOf(a: CommandAuthorization): NonceEntry {
    NonceEntry(a.networkId, a.nonce, a.expiresAt)
  }

  function Loaded(file: File): seq<NonceEntry> {
    if file.Entries? then file.entries else []
  }

  function Retained(entries: seq<NonceEntry>, now: Time): (r: seq<NonceEntry>)
    ensures forall e :: e in r <==> e in entries && e.expiresAt >= now
  {
    if entries == [] then []
    else (if entries[0].expiresAt >= now then [entries[0]] else []) + Retained(entries[1..], now)
  }

  predicate Matches(e: NonceEntry, a: CommandAuthorization) {
    e.networkId == a.networkId && e.nonce == a.nonce
  }

  predicate Spent(entries: seq<NonceEntry>, a: CommandAuthorization) {
    exists e | e in entries :: Matches(e, a)
  }

  /** Whether a call gets as far as writing, so that only the write can fail it. */
  predicate Clears(file: File, a: CommandAuthorization, now: Time, io: Io) {
    && a.networkId == a.grant.networkId
    && !file.Unreadable?
    && !(io.ReadFails? && file.Entries?)
    && !Spent(Retained(Loaded(file), now), a)
  }

  function RecordedFile(file: File, a: CommandAuthorization, now: Time, io: Io): File {
    if !Clears(file, a, now, io) then file
    else
      var entries := Entries(Retained(Loaded(file), now) + [EntryOf(a)]);
      match io
      case WriteKeepsOld => file
      case WriteUnreadable => Unreadable
      case _ => entries
  }

  function RecordOutcome(file: File, a: CommandAuthorization, now: Time, io: Io): Outcome {
    if a.networkId != a.grant.networkId then NetworkMismatch
    else if file.Unreadable? || (io.ReadFails? && file.Entries?) then IoFailed
    else if Spent(Retained(Loaded(file), now), a) then Replay
    else if io.Fine? || io.ReadFails? then Recorded
    else IoFailed
  }

  /** A record leaves the unexpired entries and its own; a refusal leaves the
      file; a failed write leaves the old text, the new, or none that can be read. */
  lemma RecordOutcomes(file: File, a: CommandAuthorization, now: Time, io: Io)
    ensures var r, outcome := RecordedFile(file, a, now, io), RecordOutcome(file, a, now, io);
            && (a.networkId != a.grant.networkId ==> outcome == NetworkMismatch && r == file)
            && (a.networkId == a.grant.networkId && (file.Unreadable? || (io.ReadFails? && file.Entries?)) ==>
                outcome == IoFailed && r == file)
            && (outcome == Replay ==>
                && r == file
                && exists e | e in Loaded(file) :: e.networkId == a.networkId && e.nonce == a.nonce && e.expiresAt >= now)
            && (outcome == Recorded ==>
                && r.Entries?
                && forall e :: e in r.entries <==>
                     e == NonceEntry(a.networkId, a.nonce, a.expiresAt) || (e in Loaded(file) && e.expiresAt >= now))
            && (outcome == IoFailed ==> r == file || r == Unreadable || r == RecordedFile(file, a, now, Fine))
  {
  }

  method Compact(loaded: seq<NonceEntry>, now: Time) returns (entries: seq<NonceEntry>)
    ensures entries == Retained(loaded, now)
  {
    entries := [];
    for i := 0 to |loaded|
      invariant entries + Retained(loaded[i..], now) == Retained(loaded, now)
    {
      assert loaded[i..][1..] == loaded[i + 1..];
      if loaded[i].expiresAt >= now {
        entries := entries + [loaded[i]];
      }
    }
  }

  method Holds(entries: seq<NonceEntry>, a: CommandAuthorization) returns (found: bool)
    ensures found == Spent(entries, a)
  {
    for i := 0 to |entries|
      invariant forall j | 0 <= j < i :: !Matches(entries[j], a)
    {
      if Matches(entries[i], a) {
        return true;
      }
    }
    return false;
  }

  /** The check-and-persist call: load, compact, look for the nonce, append, write. */
  class AuthorizationNonceStore {
    var file: File

    constructor ()
      ensures file == Missing
    {
      file := Missing;
    }

    method Record(a: CommandAuthorization, now: Time, io: Io) returns (outcome: Outcome)
      modifies this
      ensures outcome == RecordOutcome(old(file), a, now, io)
      ensures file == RecordedFile(old(file), a, now, io)
    {
      if a.networkId != a.grant.networkId {
        return NetworkMismatch;
      }
      if file.Unreadable? || (io.ReadFails? && file.Entries?) {
        return IoFailed;
      }
      var entries := Compact(Loaded(file), now);
      var replayed := Holds(entries, a);
      if replayed {
        return Replay;
      }
      entries := entries + [EntryOf(a)];
      match io
      case WriteKeepsOld =>
        return IoFailed;
      case WriteUnreadable =>
        file := Unreadable;
        return IoFailed;
      case WriteKeepsNew =>
        file := Entries(entries);
        return IoFailed;
      case _ =>
        file := Entries(entries);
        return Recorded;
    }
  }

  // ----- Whole histories of calls -----

  datatype Call = Call(authorization: CommandAuthorization, now: Time, io: Io)

  function FileAfter(first: File, calls: seq<Call>): File {
    if calls == [] then first
    else
      var last := calls[|calls| - 1];
      RecordedFile(FileAfter(first, calls[..|calls| - 1]), last.authorization, last.now, last.io)
  }

  function OutcomeAt(first: File, calls: seq<Call>, k: nat): Outcome
    requires k < |calls|
  {
    RecordOutcome(FileAfter(first, calls[..k]), calls[k].authorization, calls[k].now, calls[k].io)
  }

  /** Whether call `k`'s new text reached the disk. */
  predicate Landed(first: File, calls: seq<Call>, k: nat)
    requires k < |calls|
  {
    && Clears(FileAfter(first, calls[..k]), calls[k].authorization, calls[k].now, calls[k].io)
    && !calls[k].io.WriteKeepsOld? && !calls[k].io.WriteUnreadable?
  }

  /** Call `j`'s entry was written and outlived every later compaction before call `n`. */
  ghost predicate Survives(first: File, calls: seq<Call>, j: nat, n: nat)
    requires j < n <= |calls|
  {
    && Landed(first, calls, j)
    && forall i | j < i < n && Landed(first, calls, i) :: calls[j].authorization.expiresAt >= calls[i].now
  }

  lemma LandedPrefix(first: File, calls: seq<Call>, n: nat, k: nat)
    requires k < n <= |calls|
    ensures Landed(first, calls[..n], k) == Landed(first, calls, k)
  {
    assert calls[..n][..k] == calls[..k];
  }

  lemma SurvivesPrefix(first: File, calls: seq<Call>, n: nat, j: nat, m: nat)
    requires j < m <= n <= |calls|
    ensures Survives(first, calls[..n], j, m) == Survives(first, calls, j, m)
  {
    forall i | j <= i < m ensures Landed(first, calls[..n], i) == Landed(first, calls, i) {
      LandedPrefix(first, calls, n, i);
    }
  }

  /** An entry of the file found at the start outlived every compaction before call `n`. */
  ghost predicate Outlives(first: File, calls: seq<Call>, e: NonceEntry, n: nat)
    requires n <= |calls|
  {
    e in Loaded(first) && forall i | 0 <= i < n && Landed(first, calls, i) :: e.expiresAt >= calls[i].now
  }

  lemma OutlivesPrefix(first: File, calls: seq<Call>, e: NonceEntry, n: nat, m: nat)
    requires m <= n <= |calls|
    ensures Outlives(first, calls[..n], e, m) == Outlives(first, calls, e, m)
  {
    forall i | 0 <= i < m ensures Landed(first, calls[..n], i) == Landed(first, calls, i) {
      LandedPrefix(first, calls, n, i);
    }
  }

  /** An entry some call wrote and no later compaction dropped. */
  ghost predicate Kept(first: File, calls: seq<Call>, e: NonceEntry) {
    exists j | 0 <= j < |calls| :: e == EntryOf(calls[j].authorization) && Survives(first, calls, j, |calls|)
  }

  ghost predicate Present(first: File, calls: seq<Call>, e: NonceEntry) {
    Outlives(first, calls, e, |calls|) || Kept(first, calls, e)
  }

  /** While readable, the file holds exactly the entries that survived. */
  lemma {:induction false} FileHoldsSurvivors(first: File, calls: seq<Call>)
    requires !FileAfter(first, calls).Unreadable?
    ensures forall e :: e in Loaded(FileAfter(first, calls)) <==> Present(first, calls, e)
  {
    if calls != [] {
      var n := |calls| - 1;
      var prefix := calls[..n];
      FileHoldsSurvivors(first, prefix);
      forall e ensures e in Loaded(FileAfter(first, calls)) <==> Present(first, calls, e) {
        PresentStep(first, calls, e);
      }
    }
  }

  lemma {:induction false} FileStep(first: File, calls: seq<Call>)
    requires calls != [] && !FileAfter(first, calls).Unreadable?
    ensures var n := |calls| - 1;
            Loaded(FileAfter(first, calls)) ==
            if Landed(first, calls, n) then Retained(Loaded(FileAfter(first, calls[..n])), calls[n].now) + [EntryOf(calls[n].authorization)]
            else Loaded(FileAfter(first, calls[..n]))
  {
  }

  lemma OutlivesStep(first: File, calls: seq<Call>, e: NonceEntry)
    requires calls != []
    ensures var n := |calls| - 1;
            Outlives(first, calls, e, |calls|) <==>
            Outlives(first, calls[..n], e, n) && (Landed(first, calls, n) ==> e.expiresAt >= calls[n].now)
  {
    hide Landed;
    OutlivesPrefix(first, calls, e, |calls| - 1, |calls| - 1);
  }

  lemma KeptStep(first: File, calls: seq<Call>, e: NonceEntry)
    requires calls != []
    ensures var n := |calls| - 1;
            Kept(first, calls, e) <==>
            || (Landed(first, calls, n) && e == EntryOf(calls[n].authorization))
            || (Kept(first, calls[..n], e) && (Landed(first, calls, n) ==> e.expiresAt >= calls[n].now))
  {
    hide Landed;
    var n := |calls| - 1;
    var prefix := calls[..n];
    if j :| 0 <= j < |calls| && e == EntryOf(calls[j].authorization) && Survives(first, calls, j, |calls|) {
      if j < n {
        SurvivesPrefix(first, calls, n, j, n);
        EntryExpiry(calls[j].authorization);
        assert prefix[j] == calls[j];
        assert Survives(first, prefix, j, n);
      }
    }
    if Landed(first, calls, n) && e == EntryOf(calls[n].authorization) {
      assert Survives(first, calls, n, |calls|);
    }
    if j :| 0 <= j < n && e == EntryOf(prefix[j].authorization) && Survives(first, prefix, j, n) {
      if Landed(first, calls, n) ==> e.expiresAt >= calls[n].now {
        SurvivesPrefix(first, calls, n, j, n);
        EntryExpiry(calls[j].authorization);
        assert prefix[j] == calls[j];
        assert Survives(first, calls, j, |calls|);
      }
    }
  }

  lemma {:induction false} PresentStep(first: File, calls: seq<Call>, e: NonceEntry)
    requires calls != [] && !FileAfter(first, calls).Unreadable?
    requires e in Loaded(FileAfter(first, calls[..|calls| - 1])) <==> Present(first, calls[..|calls| - 1], e)
    ensures e in Loaded(FileAfter(first, calls)) <==> Present(first, calls, e)
  {
    FileStep(first, calls);
    OutlivesStep(first, calls, e);
    KeptStep(first, calls, e);
    hide Outlives, Kept, Landed, FileAfter;
  }

  lemma EntryExpiry(a: CommandAuthorization)
    ensures EntryOf(a).expiresAt == a.expiresAt
  {
  }

  /** An entry for this call's nonce, of an earlier call or of the file found at
      the start, survived up to the call and is unexpired at its own reading. */
  ghost predicate Blocked(first: File, calls: seq<Call>, k: nat)
    requires k < |calls|
  {
    || (exists j | 0 <= j < k ::
          && Matches(EntryOf(calls[j].authorization), calls[k].authorization)
          && calls[j].authorization.expiresAt >= calls[k].now
          && Survives(first, calls, j, k))
    || (exists e | e in Loaded(first) ::
          Matches(e, calls[k].authorization) && e.expiresAt >= calls[k].now && Outlives(first, calls, e, k))
  }

  lemma SpentMeansBlocked(first: File, calls: seq<Call>, k: nat)
    requires k < |calls| && !FileAfter(first, calls[..k]).Unreadable?
    requires Spent(Retained(Loaded(FileAfter(first, calls[..k])), calls[k].now), calls[k].authorization)
    ensures Blocked(first, calls, k)
  {
    var prefix := calls[..k];
    FileHoldsSurvivors(first, prefix);
    hide FileAfter, Landed;
    var e :| e in Retained(Loaded(FileAfter(first, prefix)), calls[k].now) && Matches(e, calls[k].authorization);
    OutlivesPrefix(first, calls, e, k, k);
    if !Outlives(first, prefix, e, k) {
      var j :| 0 <= j < k && e == EntryOf(prefix[j].authorization) && Survives(first, prefix, j, k);
      SurvivesPrefix(first, calls, k, j, k);
      EntryExpiry(calls[j].authorization);
    }
  }

  lemma PresentIsSpent(first: File, calls: seq<Call>, k: nat, e: NonceEntry)
    requires k < |calls| && !FileAfter(first, calls[..k]).Unreadable?
    requires Present(first, calls[..k], e) && Matches(e, calls[k].authorization) && e.expiresAt >= calls[k].now
    ensures Spent(Retained(Loaded(FileAfter(first, calls[..k])), calls[k].now), calls[k].authorization)
  {
    FileHoldsSurvivors(first, calls[..k]);
    hide FileAfter, Present;
    assert e in Retained(Loaded(FileAfter(first, calls[..k])), calls[k].now);
  }

  lemma BlockedMeansSpent(first: File, calls: seq<Call>, k: nat)
    requires k < |calls| && !FileAfter(first, calls[..k]).Unreadable? && Blocked(first, calls, k)
    ensures Spent(Retained(Loaded(FileAfter(first, calls[..k])), calls[k].now), calls[k].authorization)
  {
    hide FileAfter, Landed, Spent, Retained;
    var prefix := calls[..k];
    var a, now := calls[k].authorization, calls[k].now;
    if j :| 0 <= j < k && Matches(EntryOf(calls[j].authorization), a)
            && calls[j].authorization.expiresAt >= now && Survives(first, calls, j, k) {
      SurvivesPrefix(first, calls, k, j, k);
      EntryExpiry(calls[j].authorization);
      assert prefix[j] == calls[j];
      assert Kept(first, prefix, EntryOf(calls[j].authorization));
      PresentIsSpent(first, calls, k, EntryOf(calls[j].authorization));
    } else {
      var e :| e in Loaded(first) && Matches(e, a) && e.expiresAt >= now && Outlives(first, calls, e, k);
      OutlivesPrefix(first, calls, e, k, k);
      PresentIsSpent(first, calls, k, e);
    }
  }

  /** Exactly when a call is let through: its Network fields agree, the file
      operations work, and no entry for the same nonce, of an earlier call or of the
      file found at the start, survived up to it and is unexpired at its own reading.
      No assumption on clocks. */
  lemma RecordedExactlyWhen(first: File, calls: seq<Call>, k: nat)
    requires k < |calls| && !FileAfter(first, calls[..k]).Unreadable?
    ensures OutcomeAt(first, calls, k) == Recorded <==>
            && calls[k].authorization.networkId == calls[k].authorization.grant.networkId
            && (calls[k].io.Fine? || (calls[k].io.ReadFails? && FileAfter(first, calls[..k]).Missing?))
            && !Blocked(first, calls, k)
  {
    hide Blocked, FileAfter;
    if Blocked(first, calls, k) {
      BlockedMeansSpent(first, calls, k);
    } else if Spent(Retained(Loaded(FileAfter(first, calls[..k])), calls[k].now), calls[k].authorization) {
      SpentMeansBlocked(first, calls, k);
    }
  }

  /** With a clock that does not go back, a nonce is let through again only past
      the expiry of the authorization that spent it. */
  lemma RepeatsOnlyWhenLate(first: File, calls: seq<Call>, j: nat, k: nat)
    requires j < k < |calls|
    requires forall i, i' | 0 <= i < i' < |calls| :: calls[i].now <= calls[i'].now
    requires OutcomeAt(first, calls, j) == Recorded && OutcomeAt(first, calls, k) == Recorded
    requires Matches(EntryOf(calls[j].authorization), calls[k].authorization)
    ensures calls[k].now > calls[j].authorization.expiresAt
  {
    RecordedExactlyWhen(first, calls, k);
    assert Landed(first, calls, j);
  }

  /** The clock going back, or the reading passing the expiry between the
      signature check and the record, really lets a nonce through twice. */
  lemma LateOrRewoundRecordsRepeat(a: CommandAuthorization)
    requires a.networkId == a.grant.networkId
    ensures var late := [Call(a, a.expiresAt, Fine), Call(a, a.expiresAt + 1, Fine)];
            OutcomeAt(Missing, late, 0) == Recorded && OutcomeAt(Missing, late, 1) == Recorded
    ensures var other := a.(nonce := a.nonce + 1, expiresAt := a.expiresAt + 1);
            var rewound := [Call(a, a.expiresAt, Fine), Call(other, a.expiresAt + 1, Fine), Call(a, a.expiresAt, Fine)];
            OutcomeAt(Missing, rewound, 0) == Recorded && OutcomeAt(Missing, rewound, 2) == Recorded
  {
    var late := [Call(a, a.expiresAt, Fine), Call(a, a.expiresAt + 1, Fine)];
    assert late[..0] == [] && late[..1] == [late[0]] && [late[0]][..0] == [];
    var other := a.(nonce := a.nonce + 1, expiresAt := a.expiresAt + 1);
    var rewound := [Call(a, a.expiresAt, Fine), Call(other, a.expiresAt + 1, Fine), Call(a, a.expiresAt, Fine)];
    assert rewound[..0] == [] && rewound[..1] == [rewound[0]] && [rewound[0]][..0] == [];
    assert rewound[..2] == [rewound[0], rewound[1]] && rewound[..2][..1] == [rewound[0]];
    assert Loaded(FileAfter(Missing, [rewound[0]])) == [EntryOf(a)];
    assert Retained([EntryOf(a)], a.expiresAt + 1) == [] by {
      assert [EntryOf(a)][1..] == [];
    }
    assert Landed(Missing, rewound[..2], 1);
    FileStep(Missing, rewound[..2]);
    assert Loaded(FileAfter(Missing, rewound[..2])) == [EntryOf(other)];
  }
}
