/** The discovery Gateway: stateless request checks, the nonce-replay set and
    the directory of signed locators. */
module Gateway {
  import opened Wrappers
  import opened Identity

  datatype GatewayAuth = GatewayAuth(networkId: NetworkId, sisterId: SisterId, timestamp: Time, nonce: Nonce,
                                     bodyDigest: Digest, signature: Signature)
  {
    function Signed(): Text {
      GatewayText(networkId, sisterId, timestamp, nonce, bodyDigest)
    }
  }

  function SignAuth(network: NetworkId, sister: SisterId, timestamp: Time, nonce: Nonce, body: Text, key: Key): GatewayAuth {
    GatewayAuth(network, sister, timestamp, nonce, Sha256(body),
                Signature(key, GatewayText(network, sister, timestamp, nonce, Sha256(body))))
  }

  datatype AuthError =
    | WrongNetwork | BodyDigestMismatch | StaleTimestamp | InvalidMembership | ExpiredMembership
    | IdentityMismatch | BadSignature | Replayed

  function Distance(a: Time, b: Time): nat {
    if a <= b then b - a else a - b
  }

  /** The stateless checks, in order. */
  function VerifyRequest(auth: GatewayAuth, body: Text, membership: Membership, authority: NetworkAuthority,
                         now: Time, window: nat): Result<Key, AuthError> {
    if auth.networkId != authority.networkId || membership.networkId != authority.networkId then Err(WrongNetwork)
    else if auth.bodyDigest != Sha256(body) then Err(BodyDigestMismatch)
    else if Distance(now, auth.timestamp) > window then Err(StaleTimestamp)
    else if !membership.Verify(authority) then Err(InvalidMembership)
    else if !membership.ValidAt(now) then Err(ExpiredMembership)
    else if auth.sisterId != membership.sisterId then Err(IdentityMismatch)
    else if !Verifies(membership.sisterKey, auth.Signed(), auth.signature) then Err(BadSignature)
    else Ok(membership.sisterKey)
  }

  /** A request is accepted exactly when every check holds, each over the signed
      fields, and otherwise refused for the first that does not. */
  lemma VerifyRequestExactly(auth: GatewayAuth, body: Text, m: Membership, authority: NetworkAuthority,
                             now: Time, window: nat)
    ensures var r := VerifyRequest(auth, body, m, authority, now, window);
            var network := auth.networkId == authority.networkId == m.networkId;
            var body := auth.bodyDigest == Sha256(body);
            var timely := auth.timestamp <= now + window && now <= auth.timestamp + window;
            var member := m.signature == Signature(authority.publicKey,
                            MembershipText(m.networkId, m.sisterKey, m.sisterId, m.issuedAt, m.until, m.serial));
            var live := m.issuedAt <= now && (m.until.None? || now <= m.until.value);
            var own := auth.sisterId == m.sisterId;
            var signed := auth.signature == Signature(m.sisterKey,
                            GatewayText(auth.networkId, auth.sisterId, auth.timestamp, auth.nonce, auth.bodyDigest));
            && (r == Ok(m.sisterKey) <==> network && body && timely && member && live && own && signed)
            && (r.Ok? ==> r.value == m.sisterKey)
            && (r == Err(WrongNetwork) <==> !network)
            && (r == Err(BodyDigestMismatch) <==> network && !body)
            && (r == Err(StaleTimestamp) <==> network && body && !timely)
            && (r == Err(InvalidMembership) <==> network && body && timely && !member)
            && (r == Err(ExpiredMembership) <==> network && body && timely && member && !live)
            && (r == Err(IdentityMismatch) <==> network && body && timely && member && live && !own)
            && (r == Err(BadSignature) <==> network && body && timely && member && live && own && !signed)
  {
  }

  predicate RecordMatchesMembership(record: PeerRecord, membership: Membership) {
    membership.Names(record.networkId, record.sisterId, record.sisterKey)
  }

  datatype Limits = Limits(authority: NetworkAuthority, window: nat, nonceTtl: nat, recordTtl: nat)

  /** One authenticated request, with the clock reading taken before the lock. */
  datatype Call = Call(auth: GatewayAuth, body: Text, membership: Membership, now: Time)

  predicate Passes(g: Limits, c: Call) {
    VerifyRequest(c.auth, c.body, c.membership, g.authority, c.now, g.window).Ok?
  }

  type NonceSet = map<Nonce, Time>

  function Purged(nonces: NonceSet, now: Time): NonceSet {
    map n | n in nonces && nonces[n] > now :: nonces[n]
  }

  /** The nonce set after a call: a replay, too, overwrites the stored expiry. */
  function NoncesNext(g: Limits, nonces: NonceSet, c: Call): NonceSet {
    if Passes(g, c) then Purged(nonces, c.now)[c.auth.nonce := c.now + g.nonceTtl] else nonces
  }

  predicate Accepts(g: Limits, nonces: NonceSet, c: Call) {
    Passes(g, c) && c.auth.nonce !in Purged(nonces, c.now)
  }

  // ----- Replay safety over whole runs -----

  function NoncesAfter(g: Limits, calls: seq<Call>): NonceSet {
    if calls == [] then map[] else NoncesNext(g, NoncesAfter(g, calls[..|calls| - 1]), calls[|calls| - 1])
  }

  predicate AcceptedAt(g: Limits, calls: seq<Call>, k: nat)
    requires k < |calls|
  {
    Accepts(g, NoncesAfter(g, calls[..k]), calls[k])
  }

  /** Readings of the calls that reach the lock, in lock order, fall behind an
      earlier one by at most `slack`. */
  ghost predicate RunsBackAtMost(g: Limits, calls: seq<Call>, slack: nat) {
    forall i, j | 0 <= i < j < |calls| && Passes(g, calls[i]) && Passes(g, calls[j]) ::
      calls[i].now <= calls[j].now + slack
  }

  ghost predicate ReplayFree(g: Limits, calls: seq<Call>) {
    forall i, j | 0 <= i < j < |calls| && calls[i].auth == calls[j].auth :: !(AcceptedAt(g, calls, i) && AcceptedAt(g, calls, j))
  }

  /** Until readings reach its earliest possible expiry, the nonce of call `i` is held. */
  lemma {:induction false} NonceHeld(g: Limits, calls: seq<Call>, slack: nat, i: nat, k: nat)
    requires i < k <= |calls| && Passes(g, calls[i]) && RunsBackAtMost(g, calls, slack)
    requires forall m | i < m < k && Passes(g, calls[m]) :: calls[m].now + slack < calls[i].now + g.nonceTtl
    ensures var nonces := NoncesAfter(g, calls[..k]);
            calls[i].auth.nonce in nonces && nonces[calls[i].auth.nonce] + slack >= calls[i].now + g.nonceTtl
    decreases k
  {
    assert calls[..k][..k - 1] == calls[..k - 1];
    if i < k - 1 {
      NonceHeld(g, calls, slack, i, k - 1);
    }
  }

  lemma NoReplay(g: Limits, calls: seq<Call>, slack: nat)
    requires g.nonceTtl > 2 * g.window + 2 * slack && RunsBackAtMost(g, calls, slack)
    ensures ReplayFree(g, calls)
  {
    forall i, j | 0 <= i < j < |calls| && calls[i].auth == calls[j].auth && AcceptedAt(g, calls, i) && AcceptedAt(g, calls, j)
      ensures false
    {
      NonceHeld(g, calls, slack, i, j);
    }
  }

  /** One Sister's request over the peers body, at a time of its choosing. */
  function Probe(g: Limits, timestamp: Time, nonce: Nonce, now: Time): (c: Call)
    ensures Distance(now, timestamp) <= g.window ==> Passes(g, c)
    ensures c.now == now && c.auth.nonce == nonce
  {
    var m := IssueMembership(g.authority, g.authority.publicKey, 7, 1, 0, None, 0);
    Call(SignAuth(g.authority.networkId, 1, timestamp, nonce, PeersBody, 7), PeersBody, m, now)
  }

  /** When the nonce lifetime is no longer than that, a run within the slack
      accepts one auth twice: another request with the same nonce pulls the
      expiry forward, and a later reading purges it while the auth is fresh. */
  lemma ReplayExists(g: Limits, slack: nat) returns (calls: seq<Call>)
    requires g.nonceTtl <= 2 * g.window + 2 * slack
    ensures RunsBackAtMost(g, calls, slack) && !ReplayFree(g, calls)
  {
    var t := g.window + slack;
    var first := Probe(g, t, 0, slack);
    var second := Probe(g, 0, 0, 0);
    var third := Probe(g, 2 * t, 1, 2 * t);
    var again := Probe(g, t, 0, 2 * g.window + slack);
    calls := [first, second, third, again];
    assert calls[..0] == [];
    assert calls[..2] == [first, second] && calls[..2][..1] == [first] && [first][..0] == [];
    assert calls[..3] == [first, second, third] && calls[..3][..2] == [first, second];
    var two := NoncesAfter(g, calls[..2]);
    assert two[0] == g.nonceTtl;
    var three := NoncesAfter(g, calls[..3]);
    assert three == Purged(two, third.now)[1 := third.now + g.nonceTtl];
    assert 0 !in three;
    assert AcceptedAt(g, calls, 0) && AcceptedAt(g, calls, 3) && calls[0].auth == calls[3].auth;
  }

  /** No auth is ever accepted twice, in any run whose readings run back by at
      most `slack`, exactly when the nonce lifetime exceeds twice the window
      plus twice the slack. */
  lemma ReplaySafeExactlyWhen(g: Limits, slack: nat)
    ensures (forall calls: seq<Call> :: RunsBackAtMost(g, calls, slack) ==> ReplayFree(g, calls))
       <==> g.nonceTtl > 2 * g.window + 2 * slack
  {
    if g.nonceTtl > 2 * g.window + 2 * slack {
      forall calls: seq<Call> | RunsBackAtMost(g, calls, slack) ensures ReplayFree(g, calls) {
        NoReplay(g, calls, slack);
      }
    } else {
      var calls := ReplayExists(g, slack);
    }
  }

  /** The shipped limits are safe for readings that run back by up to 149 seconds. */
  lemma ShippedLimitsAreSafe(g: Limits, calls: seq<Call>, slack: nat)
    requires g.window == 300 && g.nonceTtl == 900
    requires slack <= 149 && RunsBackAtMost(g, calls, slack)
    ensures ReplayFree(g, calls)
  {
    NoReplay(g, calls, slack);
  }

  // ----- The directory -----

  datatype Entry = Entry(record: PeerRecord, serial: nat, expiresAt: Time)

  type Members = map<SisterId, Entry>

  /** A live entry with a higher sequence turns a write away; equal sequences renew. */
  predicate Stale(members: Members, record: PeerRecord, now: Time) {
    record.sisterId in members
    && members[record.sisterId].expiresAt > now && members[record.sisterId].record.sequence > record.sequence
  }

  function Upserted(members: Members, record: PeerRecord, serial: nat, now: Time, ttl: nat): Members {
    if Stale(members, record, now) then members else members[record.sisterId := Entry(record, serial, now + ttl)]
  }

  predicate Live(members: Members, id: SisterId, now: Time) {
    id in members && members[id].expiresAt > now
  }

  /** An announce that passed its checks and is on its way to the directory. */
  datatype Announcement = Announcement(record: PeerRecord, membership: Membership, checkedAt: Time)

  /** A finished write, with its own clock reading. */
  datatype Write = Write(announcement: Announcement, now: Time)

  /** The Gateway: both maps, the announces in flight, and the writes made. */
  datatype State = State(nonces: NonceSet, members: Members, inFlight: seq<Announcement>, writes: seq<Write>)

  datatype Event =
    | Announce(auth: GatewayAuth, membership: Membership, record: PeerRecord, now: Time)
    | Peers(auth: GatewayAuth, membership: Membership, now: Time)
    | Upsert(k: nat, now: Time)

  function Next(g: Limits, s: State, e: Event): State {
    match e
    case Announce(auth, membership, record, now) =>
      var c := Call(auth, AnnounceBody(membership, record), membership, now);
      var t := s.(nonces := NoncesNext(g, s.nonces, c));
      if Accepts(g, s.nonces, c) && RecordMatchesMembership(record, membership) && record.Verify() then
        t.(inFlight := s.inFlight + [Announcement(record, membership, now)])
      else t
    case Peers(auth, membership, now) => s.(nonces := NoncesNext(g, s.nonces, Call(auth, PeersBody, membership, now)))
    case Upsert(k, now) =>
      if k >= |s.inFlight| then s
      else
        var a := s.inFlight[k];
        s.(members := Upserted(s.members, a.record, a.membership.serial, now, g.recordTtl),
           inFlight := s.inFlight[..k] + s.inFlight[k + 1..], writes := s.writes + [Write(a, now)])
  }

  function Run(g: Limits, events: seq<Event>): State {
    if events == [] then State(map[], map[], [], [])
    else Next(g, Run(g, events[..|events| - 1]), events[|events| - 1])
  }

  /** A record signed by its own Sister, the one an Authority-signed certificate
      names, live at the check. */
  predicate Vouched(g: Limits, a: Announcement) {
    && SealedRecord(a.record) && SealedMembership(a.membership, g.authority)
    && a.membership.networkId == a.record.networkId && a.membership.sisterId == a.record.sisterId
    && a.membership.sisterKey == a.record.sisterKey
    && a.membership.issuedAt <= a.checkedAt
    && (a.membership.until.Some? ==> a.checkedAt <= a.membership.until.value)
  }

  ghost predicate Backed(g: Limits, s: State, id: SisterId)
    requires id in s.members
  {
    var entry := s.members[id];
    exists w | w in s.writes ::
      && w.announcement.record == entry.record && w.announcement.membership.serial == entry.serial
      && entry.expiresAt == w.now + g.recordTtl
  }

  ghost predicate DirectorySound(g: Limits, s: State) {
    && (forall a | a in s.inFlight :: Vouched(g, a))
    && (forall w | w in s.writes :: Vouched(g, w.announcement))
    && (forall id | id in s.members :: s.members[id].record.sisterId == id && Backed(g, s, id))
  }

  lemma UpsertKeepsDirectory(g: Limits, s: State, e: Event)
    requires e.Upsert? && DirectorySound(g, s)
    ensures DirectorySound(g, Next(g, s, e))
  {
    if e.k < |s.inFlight| {
      var t := Next(g, s, e);
      var w := Write(s.inFlight[e.k], e.now);
      assert s.inFlight[e.k] in s.inFlight;
      assert w in t.writes;
      forall id | id in t.members ensures t.members[id].record.sisterId == id && Backed(g, t, id) {
        if id in s.members && t.members[id] == s.members[id] {
          assert Backed(g, s, id);
        } else {
          assert t.members[id].record == w.announcement.record;
        }
      }
    }
  }

  lemma NextKeepsDirectory(g: Limits, s: State, e: Event)
    requires DirectorySound(g, s)
    ensures DirectorySound(g, Next(g, s, e))
  {
    if e.Upsert? {
      UpsertKeepsDirectory(g, s, e);
    } else {
      var t := Next(g, s, e);
      assert t.members == s.members && t.writes == s.writes;
      forall id | id in t.members ensures Backed(g, t, id) {
        assert Backed(g, s, id);
      }
    }
  }

  /** Whatever is sent to the Gateway, every stored entry is kept under its own
      record's Sister, verifies by itself, and was written by an announce whose
      membership the Authority signed and which was valid at its check. */
  lemma {:induction false} DirectoryStaysSound(g: Limits, events: seq<Event>)
    ensures DirectorySound(g, Run(g, events))
  {
    if events != [] {
      DirectoryStaysSound(g, events[..|events| - 1]);
      NextKeepsDirectory(g, Run(g, events[..|events| - 1]), events[|events| - 1]);
    }
  }

  /** A stored record is live exactly for one lifetime from a write of it. */
  lemma LiveMeansRecent(g: Limits, events: seq<Event>, id: SisterId, now: Time)
    ensures Live(Run(g, events).members, id, now) ==> id in Run(g, events).members
    ensures var s := Run(g, events);
            id in s.members ==>
              exists w | w in s.writes ::
                w.announcement.record == s.members[id].record && (Live(s.members, id, now) <==> now < w.now + g.recordTtl)
  {
    DirectoryStaysSound(g, events);
    if id in Run(g, events).members {
      assert Backed(g, Run(g, events), id);
    }
  }

  /** Event `i` is the announce of this record, signed over it and the membership
      by the key the membership names. */
  ghost predicate AnnouncedAt(g: Limits, events: seq<Event>, a: Announcement, i: nat) {
    && i < |events| && events[i].Announce? && a == Announcement(events[i].record, events[i].membership, events[i].now)
    && var auth := events[i].auth;
       && auth.timestamp <= a.checkedAt + g.window && a.checkedAt <= auth.timestamp + g.window
       && auth.signature == Signature(a.membership.sisterKey,
                                      GatewayText(g.authority.networkId, a.membership.sisterId, auth.timestamp, auth.nonce,
                                                  Sha256(AnnounceBody(a.membership, a.record))))
  }

  ghost predicate Announced(g: Limits, events: seq<Event>, a: Announcement) {
    exists i | 0 <= i < |events| :: AnnouncedAt(g, events, a, i)
  }

  lemma AnnouncedLater(g: Limits, events: seq<Event>, a: Announcement)
    requires events != [] && Announced(g, events[..|events| - 1], a)
    ensures Announced(g, events, a)
  {
    var i :| 0 <= i < |events| - 1 && AnnouncedAt(g, events[..|events| - 1], a, i);
    assert AnnouncedAt(g, events, a, i);
  }

  lemma AcceptedIsAnnounced(g: Limits, events: seq<Event>, s: State)
    requires events != [] && events[|events| - 1].Announce?
    ensures var e := events[|events| - 1];
            Accepts(g, s.nonces, Call(e.auth, AnnounceBody(e.membership, e.record), e.membership, e.now)) ==>
            Announced(g, events, Announcement(e.record, e.membership, e.now))
  {
    var e := events[|events| - 1];
    VerifyRequestExactly(e.auth, AnnounceBody(e.membership, e.record), e.membership, g.authority, e.now, g.window);
    hide VerifyRequest;
    if Accepts(g, s.nonces, Call(e.auth, AnnounceBody(e.membership, e.record), e.membership, e.now)) {
      assert AnnouncedAt(g, events, Announcement(e.record, e.membership, e.now), |events| - 1);
    }
  }

  /** Whatever is sent to the Gateway, every write goes back to an announce whose
      sender signed that very record and membership. */
  lemma {:induction false} EveryWriteWasAnnounced(g: Limits, events: seq<Event>)
    ensures forall a | a in Run(g, events).inFlight :: Announced(g, events, a)
    ensures forall w | w in Run(g, events).writes :: Announced(g, events, w.announcement)
  {
    if events != [] {
      var before, e := events[..|events| - 1], events[|events| - 1];
      var s := Run(g, before);
      EveryWriteWasAnnounced(g, before);
      forall a | Announced(g, before, a)
        ensures Announced(g, events, a)
      {
        AnnouncedLater(g, events, a);
      }
      hide Announced, Accepts, NoncesNext, Upserted;
      if e.Announce? {
        AcceptedIsAnnounced(g, events, s);
      } else if e.Upsert? && e.k < |s.inFlight| {
        assert s.inFlight[e.k] in s.inFlight;
      }
    }
  }

  function Writes(members: Members, ops: seq<Write>, ttl: nat): Members
    decreases |ops|
  {
    if ops == [] then members
    else
      var last := ops[|ops| - 1];
      Upserted(Writes(members, ops[..|ops| - 1], ttl), last.announcement.record, last.announcement.membership.serial, last.now, ttl)
  }

  /** While its entry is live at every write's reading, a Sister's sequence never falls. */
  lemma {:induction false} SequenceHoldsWhileLive(members: Members, ops: seq<Write>, ttl: nat, id: SisterId)
    requires id in members
    requires forall k | 0 <= k < |ops| :: Live(Writes(members, ops[..k], ttl), id, ops[k].now)
    ensures id in Writes(members, ops, ttl)
    ensures Writes(members, ops, ttl)[id].record.sequence >= members[id].record.sequence
    decreases |ops|
  {
    if ops != [] {
      var before := ops[..|ops| - 1];
      forall k | 0 <= k < |before| ensures Live(Writes(members, before[..k], ttl), id, before[k].now) {
        assert before[..k] == ops[..k];
      }
      SequenceHoldsWhileLive(members, before, ttl, id);
    }
  }

  lemma WritesOneMore(members: Members, ops: seq<Write>, w: Write, ttl: nat)
    ensures Writes(members, ops + [w], ttl) ==
            Upserted(Writes(members, ops, ttl), w.announcement.record, w.announcement.membership.serial, w.now, ttl)
  {
    hide Upserted;
    assert (ops + [w])[..|ops|] == ops;
  }

  lemma WritesStep(g: Limits, s: State, e: Event)
    requires s.members == Writes(map[], s.writes, g.recordTtl)
    ensures var t := Next(g, s, e);
            t.members == Writes(map[], t.writes, g.recordTtl)
  {
    hide Accepts, NoncesNext, Upserted, Writes;
    if e.Upsert? && e.k < |s.inFlight| {
      WritesOneMore(map[], s.writes, Write(s.inFlight[e.k], e.now), g.recordTtl);
    }
  }

  /** The directory is what its writes made it. */
  lemma {:induction false} DirectoryIsItsWrites(g: Limits, events: seq<Event>)
    ensures Run(g, events).members == Writes(map[], Run(g, events).writes, g.recordTtl)
  {
    if events != [] {
      DirectoryIsItsWrites(g, events[..|events| - 1]);
      WritesStep(g, Run(g, events[..|events| - 1]), events[|events| - 1]);
    }
  }

  /** The event writes an announce in flight to the directory. */
  predicate IsWrite(s: State, e: Event) {
    e.Upsert? && e.k < |s.inFlight|
  }

  lemma StepKeepsSequence(g: Limits, s: State, e: Event, id: SisterId)
    requires id in s.members && (IsWrite(s, e) ==> Live(s.members, id, e.now))
    ensures id in Next(g, s, e).members
    ensures Next(g, s, e).members[id].record.sequence >= s.members[id].record.sequence
  {
    hide Accepts, NoncesNext;
  }

  /** In any run, renewals included, a Sister's sequence never falls from one
      point to a later one if its entry is live at every write in between. */
  lemma {:induction false} SequenceNeverFallsInRun(g: Limits, events: seq<Event>, n: nat, id: SisterId)
    requires n <= |events| && id in Run(g, events[..n]).members
    requires forall m | n <= m < |events| :: var s := Run(g, events[..m]);
               IsWrite(s, events[m]) ==> Live(s.members, id, events[m].now)
    ensures id in Run(g, events).members
    ensures Run(g, events).members[id].record.sequence >= Run(g, events[..n]).members[id].record.sequence
    decreases |events|
  {
    hide Next, IsWrite, Live;
    if n == |events| {
      assert events[..n] == events;
    } else {
      var last := |events| - 1;
      var before := events[..last];
      assert before[..n] == events[..n];
      forall m | n <= m < |before|
        ensures var s := Run(g, before[..m]); IsWrite(s, before[m]) ==> Live(s.members, id, before[m].now)
      {
        assert before[..m] == events[..m];
      }
      SequenceNeverFallsInRun(g, before, n, id);
      StepKeepsSequence(g, Run(g, before), events[last], id);
    }
  }

  /** An announce and its write, from any state: a request that is accepted and
      carries a signed record of the member itself is written, unless a live entry
      with a greater sequence stands; any other changes no entry. */
  lemma AnnounceIsStoredExactlyWhen(g: Limits, s: State, auth: GatewayAuth, m: Membership, record: PeerRecord, now: Time, later: Time)
    ensures var t := Next(g, s, Announce(auth, m, record, now));
            var u := Next(g, t, Upsert(|s.inFlight|, later));
            var good := && Accepts(g, s.nonces, Call(auth, AnnounceBody(m, record), m, now)) && SealedRecord(record)
                        && m.networkId == record.networkId && m.sisterId == record.sisterId && m.sisterKey == record.sisterKey;
            var id := record.sisterId;
            var stands := id in s.members && s.members[id].expiresAt > later && s.members[id].record.sequence > record.sequence;
            && u.inFlight == s.inFlight
            && u.members == (if good && !stands then s.members[id := Entry(record, m.serial, later + g.recordTtl)] else s.members)
            && u.writes == (if good then s.writes + [Write(Announcement(record, m, now), later)] else s.writes)
  {
    RecordVerifiesExactly(record, record);
    hide Accepts, NoncesNext, SealedRecord;
    assert (s.inFlight + [Announcement(record, m, now)])[..|s.inFlight|] == s.inFlight;
  }

  // ----- The two halves of one run -----

  function CallOf(e: Event): Option<Call> {
    match e
    case Announce(auth, m, record, now) => Some(Call(auth, AnnounceBody(m, record), m, now))
    case Peers(auth, m, now) => Some(Call(auth, PeersBody, m, now))
    case Upsert(_, _) => None
  }

  function CallsOf(events: seq<Event>): seq<Call> {
    if events == [] then []
    else CallsOf(events[..|events| - 1]) + match CallOf(events[|events| - 1]) case Some(c) => [c] case None => []
  }

  /** In a run the nonce set is what the calls alone make of it. */
  lemma {:induction false} NoncesFollowTheCalls(g: Limits, events: seq<Event>)
    ensures Run(g, events).nonces == NoncesAfter(g, CallsOf(events))
  {
    if events != [] {
      var before, e := events[..|events| - 1], events[|events| - 1];
      NoncesFollowTheCalls(g, before);
      hide Accepts, NoncesNext, Upserted;
      var calls := CallsOf(events);
      if CallOf(e).Some? {
        assert calls == CallsOf(before) + [CallOf(e).value];
        assert calls[..|calls| - 1] == CallsOf(before);
      } else {
        assert calls == CallsOf(before);
      }
    }
  }

  lemma {:induction false} CallsInOrder(events: seq<Event>, i: nat)
    requires i < |events| && CallOf(events[i]).Some?
    ensures var calls, p := CallsOf(events), |CallsOf(events[..i])|;
            p < |calls| && calls[..p] == CallsOf(events[..i]) && calls[p] == CallOf(events[i]).value
    decreases |events|
  {
    var last := |events| - 1;
    if i == last {
      assert CallsOf(events)[..|CallsOf(events[..i])|] == CallsOf(events[..i]);
    } else {
      var before := events[..last];
      CallsInOrder(before, i);
      assert before[..i] == events[..i];
      var p := |CallsOf(events[..i])|;
      assert CallsOf(events)[..p] == CallsOf(before)[..p];
    }
  }

  lemma {:induction false} LaterCallsAreLater(events: seq<Event>, i: nat, j: nat)
    requires i < j < |events| && CallOf(events[i]).Some?
    ensures |CallsOf(events[..i])| < |CallsOf(events[..j])|
  {
    CallsInOrder(events[..j], i);
    assert events[..j][..i] == events[..i];
  }

  /** Event `i` of a run is a request the Gateway accepts. */
  predicate AcceptedEvent(g: Limits, events: seq<Event>, i: nat)
    requires i < |events|
  {
    CallOf(events[i]).Some? && Accepts(g, Run(g, events[..i]).nonces, CallOf(events[i]).value)
  }

  /** So in any run of announces, listings and writes with enough nonce lifetime
      no signed request is accepted twice. */
  lemma NoReplayInRun(g: Limits, events: seq<Event>, slack: nat, i: nat, j: nat)
    requires g.nonceTtl > 2 * g.window + 2 * slack && RunsBackAtMost(g, CallsOf(events), slack)
    requires i < j < |events| && AcceptedEvent(g, events, i) && AcceptedEvent(g, events, j)
    ensures CallOf(events[i]).value.auth != CallOf(events[j]).value.auth
  {
    hide Accepts, Run, RunsBackAtMost;
    NoncesFollowTheCalls(g, events[..i]);
    NoncesFollowTheCalls(g, events[..j]);
    CallsInOrder(events, i);
    CallsInOrder(events, j);
    LaterCallsAreLater(events, i, j);
    NoReplay(g, CallsOf(events), slack);
    var calls, p, q := CallsOf(events), |CallsOf(events[..i])|, |CallsOf(events[..j])|;
    assert AcceptedAt(g, calls, p) && AcceptedAt(g, calls, q);
  }

  // ----- The Gateway object -----

  class GatewayHost {
    const limits: Limits
    var nonces: NonceSet
    var members: Members

    constructor (limits: Limits)
      ensures this.limits == limits && nonces == map[] && members == map[]
    {
      this.limits := limits;
      nonces, members := map[], map[];
    }

    method Authenticate(c: Call) returns (r: Result<Key, AuthError>)
      modifies this`nonces
      ensures nonces == NoncesNext(limits, old(nonces), c)
      ensures r.Ok? <==> Accepts(limits, old(nonces), c)
      ensures r.Ok? ==> r.value == c.membership.sisterKey
      ensures r.Err? ==> r == if Passes(limits, c) then Err(Replayed)
                              else VerifyRequest(c.auth, c.body, c.membership, limits.authority, c.now, limits.window)
    {
      var key := VerifyRequest(c.auth, c.body, c.membership, limits.authority, c.now, limits.window);
      if key.Err? {
        return key;
      }
      nonces := map n | n in nonces && nonces[n] > c.now :: nonces[n];
      var seen := c.auth.nonce in nonces;
      nonces := nonces[c.auth.nonce := c.now + limits.nonceTtl];
      return if seen then Err(Replayed) else key;
    }

    method UpsertRecord(record: PeerRecord, membership: Membership, now: Time)
      modifies this`members
      ensures members == Upserted(old(members), record, membership.serial, now, limits.recordTtl)
    {
      if record.sisterId in members {
        var entry := members[record.sisterId];
        if entry.expiresAt > now && entry.record.sequence > record.sequence {
          return;
        }
      }
      members := members[record.sisterId := Entry(record, membership.serial, now + limits.recordTtl)];
    }

    /** The live part of the directory, each entry once: `ids` names whose. */
    method LiveRecords(now: Time) returns (records: seq<PeerRecord>, ghost ids: seq<SisterId>)
      ensures forall id :: id in ids <==> Live(members, id, now)
      ensures forall i, j | 0 <= i < j < |ids| :: ids[i] != ids[j]
      ensures |records| == |ids| && forall k | 0 <= k < |ids| :: ids[k] in members && records[k] == members[ids[k]].record
      ensures forall r :: r in records <==> exists id | id in members :: Live(members, id, now) && members[id].record == r
    {
      records, ids := [], [];
      var rest := members.Keys;
      while rest != {}
        invariant rest <= members.Keys
        invariant forall id :: id in ids <==> Live(members, id, now) && id !in rest
        invariant forall i, j | 0 <= i < j < |ids| :: ids[i] != ids[j]
        invariant |records| == |ids| && forall k | 0 <= k < |ids| :: ids[k] in members && records[k] == members[ids[k]].record
        decreases |rest|
      {
        var id :| id in rest;
        rest := rest - {id};
        if members[id].expiresAt > now {
          records, ids := records + [members[id].record], ids + [id];
        }
      }
      forall r
        ensures r in records <==> exists id | id in members :: Live(members, id, now) && members[id].record == r
      {
        if r in records {
          var k :| 0 <= k < |records| && records[k] == r;
          assert ids[k] in ids;
        }
        if id :| id in members && Live(members, id, now) && members[id].record == r {
          var k :| 0 <= k < |ids| && ids[k] == id;
          assert records[k] == r;
        }
      }
    }

    method EntryFor(id: SisterId, now: Time) returns (r: Option<(PeerRecord, nat)>)
      ensures r.Some? <==> Live(members, id, now)
      ensures r.Some? ==> r.value == (members[id].record, members[id].serial)
    {
      if id in members && members[id].expiresAt > now {
        return Some((members[id].record, members[id].serial));
      }
      return None;
    }
  }
}
