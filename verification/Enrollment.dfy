/** Redeeming an invite for a membership: request, challenge, proof, response,
    served on many streams at once to arbitrary joiners, with serials from the
    durable allocator. */
module Enrollment {
  import opened Wrappers
  import opened Identity
  import SerialStore
  import JoinTransaction
  import Bootstrap

  const VERSION := 1
  const PROTOCOL := 1

  datatype Rejection = InvalidInvite | Expired | WrongNetwork | InvalidProof | ProtocolVersion | IssuanceFailed

  /** Authority-signed, time-limited capability to enroll, with a locator of the Authority's Sister. */
  datatype Invite = Invite(version: nat, networkId: NetworkId, authority: NetworkAuthority, issuedAt: Time,
                           expiresAt: Time, inviteNonce: Nonce, locator: PeerRecord, signature: Signature)
  {
    function Signed(): Text {
      InviteText(version, networkId, authority, issuedAt, expiresAt, inviteNonce, locator)
    }

    predicate Verify(now: Time) {
      && version == VERSION
      && networkId == authority.networkId
      && issuedAt <= expiresAt && issuedAt <= now <= expiresAt
      && Verifies(authority.publicKey, Signed(), signature)
      && locator.networkId == networkId
      && locator.Verify()
    }

    predicate IsExpired(now: Time) {
      now > expiresAt
    }

    function InviteDigest(): Digest {
      Sha256(Signed())
    }
  }

  function IssueInvite(authority: NetworkAuthority, key: Key, issuedAt: Time, expiresAt: Time, nonce: Nonce,
                       locator: PeerRecord): (r: Invite)
    ensures key == authority.publicKey && locator.networkId == authority.networkId && locator.Verify() ==>
              forall now | issuedAt <= now <= expiresAt :: r.Verify(now)
  {
    Invite(VERSION, authority.networkId, authority, issuedAt, expiresAt, nonce, locator,
           Signature(key, InviteText(VERSION, authority.networkId, authority, issuedAt, expiresAt, nonce, locator)))
  }

  datatype Request = Request(protocolVersion: nat, invite: Invite, sisterId: SisterId, sisterKey: Key,
                             recipientNonce: Nonce)

  datatype Challenge = Challenge(protocolVersion: nat, networkId: NetworkId, inviteDigest: Digest,
                                 sisterId: SisterId, sisterKey: Key, authorityNonce: Nonce, recipientNonce: Nonce)
  {
    function Signed(): Text {
      ChallengeText(protocolVersion, networkId, inviteDigest, sisterId, sisterKey, authorityNonce, recipientNonce)
    }

    function Solve(key: Key): Signature {
      Signature(key, Signed())
    }

    /** Whether a proof verifies against the claimed key. */
    predicate Accepts(proof: Signature) {
      Verifies(sisterKey, Signed(), proof)
    }
  }

  datatype Outcome =
    | Accepted(authority: NetworkAuthority, membership: Membership, records: seq<PeerRecord>)
    | Rejected(reason: Rejection)

  datatype Response = Response(protocolVersion: nat, outcome: Outcome)

  /** The Sister serving enrollment with the Authority's private key. */
  datatype Server = Server(networkId: NetworkId, authority: NetworkAuthority, authorityKey: Key,
                           sisterId: SisterId, endpoint: EndpointId, locator: PeerRecord,
                           extraBootstrap: seq<PeerRecord>)

  /** An invite this Authority signed, field by field, live now, whose locator is
      signed by the Sister it names. */
  predicate LiveInvite(v: Invite, authority: NetworkAuthority, now: Time) {
    && v.version == 1 && v.authority == authority && v.networkId == authority.networkId
    && v.issuedAt <= now <= v.expiresAt
    && v.signature == Signature(authority.publicKey, InviteText(1, authority.networkId, authority, v.issuedAt,
                                                                v.expiresAt, v.inviteNonce, v.locator))
    && v.locator.networkId == authority.networkId && SealedRecord(v.locator)
  }

  /** An invite verifies exactly when its own Authority signed it and it is live,
      and no signature serves two invites. */
  lemma InviteVerifiesExactly(v: Invite, other: Invite, now: Time)
    ensures v.Verify(now) <==> LiveInvite(v, v.authority, now)
    ensures v.Verify(now) && other.Verify(now) && v.signature == other.signature ==> v == other
  {
    RecordVerifiesExactly(v.locator, other.locator);
  }

  /** Everything the Authority checks before it issues a challenge. */
  function Evaluate(server: Server, request: Request, now: Time, nonce: Nonce): Result<Challenge, Rejection> {
    var invite := request.invite;
    if !invite.Verify(now) then Err(if invite.IsExpired(now) then Expired else InvalidInvite)
    else if invite.networkId != server.networkId || invite.authority != server.authority then Err(WrongNetwork)
    else if invite.locator.sisterId != server.sisterId || invite.locator.binding.endpoint != server.endpoint
    then Err(InvalidInvite)
    else Ok(Challenge(PROTOCOL, server.networkId, invite.InviteDigest(), request.sisterId, request.sisterKey,
                      nonce, request.recipientNonce))
  }

  /** The answer to a request, by cases over the invite's fields. */
  lemma EvaluateExactly(server: Server, request: Request, now: Time, nonce: Nonce)
    ensures var v, answer := request.invite, Evaluate(server, request, now, nonce);
            var live := LiveInvite(v, v.authority, now);
            var ours := v.authority == server.authority && v.networkId == server.networkId;
            var here := v.locator.sisterId == server.sisterId && v.locator.binding.endpoint == server.endpoint;
            && (answer.Ok? <==> live && ours && here)
            && (answer == Err(Expired) <==> !live && now > v.expiresAt)
            && (answer == Err(WrongNetwork) <==> live && !ours)
            && (answer == Err(InvalidInvite) <==> (!live && now <= v.expiresAt) || (live && ours && !here))
            && (answer.Ok? ==>
                answer.value == Challenge(1, server.networkId,
                                          Sha256(InviteText(v.version, v.networkId, v.authority, v.issuedAt, v.expiresAt,
                                                            v.inviteNonce, v.locator)),
                                          request.sisterId, request.sisterKey, nonce, request.recipientNonce))
  {
    InviteVerifiesExactly(request.invite, request.invite, now);
    hide LiveInvite;
  }

  function Certificate(server: Server, request: Request, serial: nat, now: Time): Membership {
    IssueMembership(server.authority, server.authorityKey, request.sisterKey, request.sisterId, now, None, serial)
  }

  ghost function Issued(server: Server, request: Request, serial: nat, now: Time): Response {
    Response(PROTOCOL, Accepted(server.authority, Certificate(server, request, serial, now),
                                Bootstrap.Bootstrapped([server.locator] + server.extraBootstrap)))
  }

  // ----- Many streams against arbitrary joiners -----

  datatype Stream =
    | Waiting
    | Challenged(request: Request, challenge: Challenge)
    | Granted(request: Request, challenge: Challenge, response: Response, order: nat)
    | Denied(reason: Rejection)
    | Closed

  /** `used` holds every challenge nonce drawn so far; `order` in a granted
      stream is the place of its serial among all handed out. */
  datatype Office = Office(streams: seq<Stream>, serials: SerialStore.Allocator, used: set<Nonce>)

  datatype Event =
    | OpenStream
    | RequestArrives(stream: nat, request: Request, now: Time, nonce: Nonce)
    | ProofArrives(stream: nat, proof: Signature, now: Time, write: SerialStore.Write)
    | HangUp(stream: nat)
    | Serials(event: SerialStore.Event)   // the allocator's own life: opened, used elsewhere, closed, crashed

  function Requested(server: Server, o: Office, s: nat, request: Request, now: Time, nonce: Nonce): Office
    requires s < |o.streams|
  {
    if request.protocolVersion != PROTOCOL then o.(streams := o.streams[s := Closed])
    else match Evaluate(server, request, now, nonce)
      case Ok(challenge) => o.(streams := o.streams[s := Challenged(request, challenge)], used := o.used + {nonce})
      case Err(reason) => o.(streams := o.streams[s := Denied(reason)])
  }

  ghost function Proved(server: Server, o: Office, s: nat, proof: Signature, now: Time, write: SerialStore.Write): Office
    requires s < |o.streams| && o.streams[s].Challenged? && o.serials.handle.Some?
  {
    var request, challenge := o.streams[s].request, o.streams[s].challenge;
    if !challenge.Accepts(proof) then o.(streams := o.streams[s := Denied(InvalidProof)])
    else
      var after := SerialStore.Step(o.serials, SerialStore.Allocate(write));
      if write.Done?
      then o.(streams := o.streams[s := Granted(request, challenge,
                Issued(server, request, SerialStore.SaturatingSucc(o.serials.handle.value), now), |o.serials.issued|)],
              serials := after)
      else o.(streams := o.streams[s := Denied(IssuanceFailed)], serials := after)
  }

  /** Streams that end when the process does. */
  function Interrupted(streams: seq<Stream>): (r: seq<Stream>)
    ensures |r| == |streams|
    ensures forall s | 0 <= s < |r| ::
              r[s] == if streams[s].Granted? || streams[s].Denied? then streams[s] else Closed
  {
    seq(|streams|, s requires 0 <= s < |streams| =>
      if streams[s].Granted? || streams[s].Denied? then streams[s] else Closed)
  }

  ghost function Next(server: Server, o: Office, e: Event): Office {
    match e
    case OpenStream => o.(streams := o.streams + [Waiting])
    case RequestArrives(s, request, now, nonce) =>
      if s < |o.streams| && o.streams[s].Waiting? && o.serials.handle.Some?
      then Requested(server, o, s, request, now, nonce) else o
    case ProofArrives(s, proof, now, write) =>
      if s < |o.streams| && o.streams[s].Challenged? && o.serials.handle.Some?
      then Proved(server, o, s, proof, now, write) else o
    case HangUp(s) =>
      if s < |o.streams| && (o.streams[s].Waiting? || o.streams[s].Challenged?)
      then o.(streams := o.streams[s := Closed]) else o
    case Serials(event) =>
      o.(serials := SerialStore.Step(o.serials, event),
         streams := if event.Close? || event.CrashInAllocate? then Interrupted(o.streams) else o.streams)
  }

  ghost function Run(server: Server, file: SerialStore.File, es: seq<Event>): Office {
    if es == [] then Office([], SerialStore.Allocator(file, None, []), {})
    else Next(server, Run(server, file, es[..|es| - 1]), es[|es| - 1])
  }

  // ----- Authenticity -----

  /** Event `i` is this request on this stream, with an invite of this Authority
      naming this Sister's locator and live then, and `challenge` is built from it. */
  ghost predicate AskedAt(server: Server, es: seq<Event>, s: nat, request: Request, challenge: Challenge, i: nat) {
    && i < |es| && es[i].RequestArrives? && es[i].stream == s && es[i].request == request
    && request.protocolVersion == 1
    && LiveInvite(request.invite, server.authority, es[i].now) && request.invite.networkId == server.networkId
    && request.invite.locator.sisterId == server.sisterId
    && request.invite.locator.binding.endpoint == server.endpoint
    && challenge == Challenge(1, server.networkId,
                              Sha256(InviteText(request.invite.version, request.invite.networkId, request.invite.authority,
                                                request.invite.issuedAt, request.invite.expiresAt,
                                                request.invite.inviteNonce, request.invite.locator)),
                              request.sisterId, request.sisterKey, es[i].nonce, request.recipientNonce)
  }

  /** Event `j` is a proof on this stream signed by the requested key over the challenge. */
  ghost predicate ProvedAt(es: seq<Event>, s: nat, request: Request, challenge: Challenge, j: nat) {
    && j < |es| && es[j].ProofArrives? && es[j].stream == s
    && es[j].proof == Signature(request.sisterKey,
                                ChallengeText(challenge.protocolVersion, challenge.networkId, challenge.inviteDigest,
                                              challenge.sisterId, challenge.sisterKey, challenge.authorityNonce,
                                              challenge.recipientNonce))
  }

  ghost predicate Asked(server: Server, es: seq<Event>, s: nat, request: Request, challenge: Challenge, before: nat) {
    exists i | 0 <= i < before :: AskedAt(server, es, s, request, challenge, i)
  }

  /** A certificate for the request's own id and key, signed by the Authority's
      key, from the moment of issue on. */
  predicate IssuedFor(server: Server, request: Request, m: Membership, now: Time) {
    && m.networkId == server.authority.networkId && m.sisterId == request.sisterId && m.sisterKey == request.sisterKey
    && m.issuedAt == now && m.until == None
    && m.signature == Signature(server.authorityKey,
                                MembershipText(m.networkId, m.sisterKey, m.sisterId, m.issuedAt, m.until, m.serial))
  }

  /** The response is a certificate for the request's own id and key, issued by
      this Authority after a live invite and a verified proof on the same stream. */
  ghost predicate Warranted(server: Server, es: seq<Event>, s: nat, g: Stream)
    requires g.Granted?
  {
    && g.response.protocolVersion == 1 && g.response.outcome.Accepted?
    && g.response.outcome.authority == server.authority
    && g.response.outcome.records == Bootstrap.Bootstrapped([server.locator] + server.extraBootstrap)
    && exists j | 0 <= j < |es| ::
         && ProvedAt(es, s, g.request, g.challenge, j) && Asked(server, es, s, g.request, g.challenge, j)
         && IssuedFor(server, g.request, g.response.outcome.membership, es[j].now)
  }

  ghost predicate StreamFine(server: Server, es: seq<Event>, s: nat, stream: Stream) {
    match stream
    case Challenged(request, challenge) => Asked(server, es, s, request, challenge, |es|)
    case Granted(_, _, _, _) => Warranted(server, es, s, stream)
    case _ => true
  }

  lemma AskedGrows(server: Server, es: seq<Event>, e: Event, s: nat, request: Request, challenge: Challenge, before: nat)
    requires before <= |es| && Asked(server, es, s, request, challenge, before)
    ensures Asked(server, es + [e], s, request, challenge, before)
  {
    var i :| 0 <= i < before && AskedAt(server, es, s, request, challenge, i);
    assert (es + [e])[i] == es[i];
    assert AskedAt(server, es + [e], s, request, challenge, i);
  }

  lemma FineGrows(server: Server, es: seq<Event>, e: Event, s: nat, stream: Stream)
    requires StreamFine(server, es, s, stream)
    ensures StreamFine(server, es + [e], s, stream)
  {
    hide Asked;
    match stream
    case Challenged(request, challenge) =>
      AskedGrows(server, es, e, s, request, challenge, |es|);
      AskedLater(server, es + [e], s, request, challenge, |es|);
    case Granted(request, challenge, _, _) =>
      var j :| 0 <= j < |es| && ProvedAt(es, s, request, challenge, j) && Asked(server, es, s, request, challenge, j)
               && IssuedFor(server, request, stream.response.outcome.membership, es[j].now);
      AskedGrows(server, es, e, s, request, challenge, j);
      assert (es + [e])[j] == es[j];
      assert ProvedAt(es + [e], s, request, challenge, j);
    case _ =>
  }

  lemma AskedLater(server: Server, es: seq<Event>, s: nat, request: Request, challenge: Challenge, before: nat)
    requires before < |es| && Asked(server, es, s, request, challenge, before)
    ensures Asked(server, es, s, request, challenge, |es|)
  {
    hide AskedAt;
  }

  lemma RequestIsFine(server: Server, es: seq<Event>, o: Office, e: Event)
    requires e.RequestArrives? && e.stream < |o.streams| && o.streams[e.stream].Waiting?
    ensures StreamFine(server, es + [e], e.stream,
                       Requested(server, o, e.stream, e.request, e.now, e.nonce).streams[e.stream])
  {
    var stream := Requested(server, o, e.stream, e.request, e.now, e.nonce).streams[e.stream];
    EvaluateExactly(server, e.request, e.now, e.nonce);
    hide Evaluate, LiveInvite;
    if stream.Challenged? {
      assert AskedAt(server, es + [e], e.stream, stream.request, stream.challenge, |es|);
    }
  }

  lemma ProofIsFine(server: Server, es: seq<Event>, o: Office, e: Event)
    requires e.ProofArrives? && e.stream < |o.streams| && o.streams[e.stream].Challenged? && o.serials.handle.Some?
    requires StreamFine(server, es, e.stream, o.streams[e.stream])
    requires o.streams[e.stream].challenge.sisterKey == o.streams[e.stream].request.sisterKey
    ensures StreamFine(server, es + [e], e.stream,
                       Proved(server, o, e.stream, e.proof, e.now, e.write).streams[e.stream])
  {
    hide Asked;
    var was, stream := o.streams[e.stream], Proved(server, o, e.stream, e.proof, e.now, e.write).streams[e.stream];
    if stream.Granted? {
      AskedGrows(server, es, e, e.stream, was.request, was.challenge, |es|);
      assert ProvedAt(es + [e], e.stream, was.request, was.challenge, |es|);
      assert Warranted(server, es + [e], e.stream, stream);
    }
  }

  lemma ChallengeKey(server: Server, es: seq<Event>, s: nat, stream: Stream)
    requires StreamFine(server, es, s, stream) && stream.Challenged?
    ensures stream.challenge.sisterKey == stream.request.sisterKey
  {
  }

  ghost predicate StreamsFine(server: Server, es: seq<Event>, o: Office) {
    forall s | 0 <= s < |o.streams| :: StreamFine(server, es, s, o.streams[s])
  }

  lemma NextFine(server: Server, es: seq<Event>, o: Office, e: Event)
    requires StreamsFine(server, es, o)
    ensures StreamsFine(server, es + [e], Next(server, o, e))
  {
    var after := Next(server, o, e);
    forall s | 0 <= s < |after.streams|
      ensures StreamFine(server, es + [e], s, after.streams[s])
    {
      NextStreamFine(server, es, o, e, s);
    }
  }

  lemma NextStreamFine(server: Server, es: seq<Event>, o: Office, e: Event, s: nat)
    requires StreamsFine(server, es, o) && s < |Next(server, o, e).streams|
    ensures StreamFine(server, es + [e], s, Next(server, o, e).streams[s])
  {
    hide Asked, Warranted, Requested, Proved;
    if s < |o.streams| {
      FineGrows(server, es, e, s, o.streams[s]);
    }
    if s < |o.streams| && e.RequestArrives? && e.stream == s && o.streams[s].Waiting? {
      RequestIsFine(server, es, o, e);
      RequestTouchesOne(server, o, e);
    } else if s < |o.streams| && e.ProofArrives? && e.stream == s && o.streams[s].Challenged? && o.serials.handle.Some? {
      ChallengeKey(server, es, s, o.streams[s]);
      ProofIsFine(server, es, o, e);
    } else if e.RequestArrives? && e.stream < |o.streams| {
      RequestTouchesOne(server, o, e);
    } else if e.ProofArrives? && e.stream < |o.streams| && o.streams[e.stream].Challenged? && o.serials.handle.Some? {
      ProofTouchesOne(server, o, e);
    }
  }

  lemma RequestTouchesOne(server: Server, o: Office, e: Event)
    requires e.RequestArrives? && e.stream < |o.streams|
    ensures var after := Requested(server, o, e.stream, e.request, e.now, e.nonce);
            && |after.streams| == |o.streams| && after.serials == o.serials
            && forall s | 0 <= s < |o.streams| && s != e.stream :: after.streams[s] == o.streams[s]
  {
    hide Evaluate;
  }

  lemma ProofTouchesOne(server: Server, o: Office, e: Event)
    requires e.ProofArrives? && e.stream < |o.streams| && o.streams[e.stream].Challenged? && o.serials.handle.Some?
    ensures var after := Proved(server, o, e.stream, e.proof, e.now, e.write);
            && |after.streams| == |o.streams| && after.used == o.used
            && forall s | 0 <= s < |o.streams| && s != e.stream :: after.streams[s] == o.streams[s]
  {
    hide Issued;
  }

  /** Whatever joiners send, over any run with crashes and reopened allocators,
      each certificate is for the id and key of its own stream's request and
      follows, on that stream, a live invite of this Authority and a proof by that
      key over the challenge built from the request. */
  lemma {:induction false} EveryCertificateIsWarranted(server: Server, file: SerialStore.File, es: seq<Event>)
    ensures StreamsFine(server, es, Run(server, file, es))
  {
    hide Next, StreamFine;
    if es != [] {
      EveryCertificateIsWarranted(server, file, es[..|es| - 1]);
      NextFine(server, es[..|es| - 1], Run(server, file, es[..|es| - 1]), es[|es| - 1]);
      assert es == es[..|es| - 1] + [es[|es| - 1]];
    }
  }

  // ----- Serials -----

  predicate SerialAt(serials: SerialStore.Allocator, g: Stream)
    requires g.Granted?
  {
    && g.order < |serials.issued| && g.response.outcome.Accepted?
    && g.response.outcome.membership.serial == serials.issued[g.order]
  }

  /** Each granted stream has a place of its own among the serials handed out. */
  ghost predicate Ordered(o: Office) {
    && SerialStore.Durable(o.serials)
    && (forall s | 0 <= s < |o.streams| && o.streams[s].Granted? :: SerialAt(o.serials, o.streams[s]))
    && (forall s, t | 0 <= s < t < |o.streams| && o.streams[s].Granted? && o.streams[t].Granted? ::
          o.streams[s].order != o.streams[t].order)
  }

  lemma StepIsDurable(a: SerialStore.Allocator, e: SerialStore.Event)
    requires SerialStore.Durable(a)
    ensures SerialStore.Durable(SerialStore.Step(a, e))
    ensures a.issued <= SerialStore.Step(a, e).issued
  {
    SerialStore.RunKeepsDurable(a, [e]);
    assert [e][..0] == [];
    assert SerialStore.Run(a, []) == a;
    assert SerialStore.Run(a, [e]) == SerialStore.Step(a, e);
  }

  lemma ProofKeepsOrder(server: Server, o: Office, e: Event)
    requires e.ProofArrives? && e.stream < |o.streams| && o.streams[e.stream].Challenged? && o.serials.handle.Some?
    requires Ordered(o)
    ensures Ordered(Proved(server, o, e.stream, e.proof, e.now, e.write))
  {
    StepIsDurable(o.serials, SerialStore.Allocate(e.write));
    ProofTouchesOne(server, o, e);
    hide SerialStore.Durable, Bootstrap.Bootstrapped;
    var after := Proved(server, o, e.stream, e.proof, e.now, e.write);
    if after.streams[e.stream].Granted? {
      assert after.serials.issued[|o.serials.issued|] == SerialStore.SaturatingSucc(o.serials.handle.value);
      assert SerialAt(after.serials, after.streams[e.stream]);
    }
    forall s | 0 <= s < |o.streams| && s != e.stream && o.streams[s].Granted?
      ensures SerialAt(after.serials, after.streams[s])
    {
      assert SerialAt(o.serials, o.streams[s]);
    }
  }

  lemma NextKeepsOrder(server: Server, o: Office, e: Event)
    requires Ordered(o)
    ensures Ordered(Next(server, o, e))
  {
    match e
    case ProofArrives(s, _, _, _) =>
      hide Proved, SerialStore.Durable;
      if s < |o.streams| && o.streams[s].Challenged? && o.serials.handle.Some? {
        ProofKeepsOrder(server, o, e);
      }
    case RequestArrives(s, _, _, _) =>
      hide SerialStore.Durable, Evaluate;
    case Serials(event) =>
      StepIsDurable(o.serials, event);
      hide SerialStore.Durable, SerialStore.Step;
    case OpenStream => hide SerialStore.Durable;
    case HangUp(_) => hide SerialStore.Durable;
  }

  lemma {:induction false} RunIsOrdered(server: Server, file: SerialStore.File, es: seq<Event>)
    ensures Ordered(Run(server, file, es))
  {
    hide Next;
    if es != [] {
      RunIsOrdered(server, file, es[..|es| - 1]);
      NextKeepsOrder(server, Run(server, file, es[..|es| - 1]), es[|es| - 1]);
    }
  }

  /** No two certificates of a run share a serial below the counter's maximum. */
  lemma SerialsAreDistinct(server: Server, file: SerialStore.File, es: seq<Event>, s: nat, t: nat)
    requires var streams := Run(server, file, es).streams;
             s < |streams| && t < |streams| && s != t && streams[s].Granted? && streams[t].Granted?
    ensures var streams := Run(server, file, es).streams;
            && streams[s].response.outcome.Accepted? && streams[t].response.outcome.Accepted?
            && (streams[s].response.outcome.membership.serial == streams[t].response.outcome.membership.serial ==>
                streams[s].response.outcome.membership.serial == SerialStore.U64_MAX)
  {
    hide Run;
    RunIsOrdered(server, file, es);
    var o := Run(server, file, es);
    var a, b := o.streams[s], o.streams[t];
    assert SerialAt(o.serials, a) && SerialAt(o.serials, b) && a.order != b.order;
  }

  // ----- Challenges -----

  predicate HasChallenge(stream: Stream) {
    stream.Challenged? || stream.Granted?
  }

  /** Each challenge nonce of the run is drawn for the first time. */
  ghost predicate FreshNonces(server: Server, file: SerialStore.File, es: seq<Event>) {
    es != [] ==>
      && FreshNonces(server, file, es[..|es| - 1])
      && (es[|es| - 1].RequestArrives? ==> es[|es| - 1].nonce !in Run(server, file, es[..|es| - 1]).used)
  }

  ghost predicate Separate(o: Office) {
    && (forall s | 0 <= s < |o.streams| && HasChallenge(o.streams[s]) :: o.streams[s].challenge.authorityNonce in o.used)
    && (forall s, t | 0 <= s < t < |o.streams| && HasChallenge(o.streams[s]) && HasChallenge(o.streams[t]) ::
          o.streams[s].challenge.authorityNonce != o.streams[t].challenge.authorityNonce)
  }

  lemma NextKeepsSeparate(server: Server, o: Office, e: Event)
    requires Separate(o) && (e.RequestArrives? ==> e.nonce !in o.used)
    ensures Separate(Next(server, o, e))
  {
    hide Issued, SerialStore.Step;
    match e
    case RequestArrives(s, request, now, nonce) =>
      if s < |o.streams| {
        RequestTouchesOne(server, o, e);
        RequestDrawsItsNonce(server, o, e);
        hide Requested;
      }
    case ProofArrives(s, _, _, _) =>
      if s < |o.streams| && o.streams[s].Challenged? && o.serials.handle.Some? {
        ProofTouchesOne(server, o, e);
        ProofKeepsChallenge(server, o, e);
        hide Proved;
      }
    case OpenStream =>
    case HangUp(_) =>
    case Serials(_) =>
  }

  lemma RequestDrawsItsNonce(server: Server, o: Office, e: Event)
    requires e.RequestArrives? && e.stream < |o.streams|
    ensures var after := Requested(server, o, e.stream, e.request, e.now, e.nonce);
            && o.used <= after.used && !after.streams[e.stream].Granted?
            && (after.streams[e.stream].Challenged? ==>
                after.streams[e.stream].challenge.authorityNonce == e.nonce && e.nonce in after.used)
  {
  }

  lemma ProofKeepsChallenge(server: Server, o: Office, e: Event)
    requires e.ProofArrives? && e.stream < |o.streams| && o.streams[e.stream].Challenged? && o.serials.handle.Some?
    ensures var after := Proved(server, o, e.stream, e.proof, e.now, e.write);
            HasChallenge(after.streams[e.stream]) ==>
              after.streams[e.stream].challenge == o.streams[e.stream].challenge
  {
    hide Issued;
  }

  lemma {:induction false} RunIsSeparate(server: Server, file: SerialStore.File, es: seq<Event>)
    requires FreshNonces(server, file, es)
    ensures Separate(Run(server, file, es))
  {
    hide Next, Separate;
    if es == [] {
      assert Separate(Run(server, file, es)) by { EmptyIsSeparate(server, file); }
    } else {
      RunIsSeparate(server, file, es[..|es| - 1]);
      NextKeepsSeparate(server, Run(server, file, es[..|es| - 1]), es[|es| - 1]);
    }
  }

  lemma EmptyIsSeparate(server: Server, file: SerialStore.File)
    ensures Separate(Run(server, file, []))
  {
  }

  /** While nonces are fresh, a proof accepted on one stream is refused on every other. */
  lemma ProofsDoNotTransfer(server: Server, file: SerialStore.File, es: seq<Event>, s: nat, t: nat, proof: Signature)
    requires FreshNonces(server, file, es)
    requires var streams := Run(server, file, es).streams;
             s < |streams| && t < |streams| && s != t && HasChallenge(streams[s]) && HasChallenge(streams[t])
    requires Run(server, file, es).streams[s].challenge.Accepts(proof)
    ensures !Run(server, file, es).streams[t].challenge.Accepts(proof)
  {
    hide Run;
    RunIsSeparate(server, file, es);
  }

  // ----- The joiner's side -----

  /** Checks on a response before anything local is written. */
  function ValidateReceived(response: Response, invite: Invite, expected: NetworkId, sisterId: SisterId,
                            sisterKey: Key, now: Time): Result<Bundle, Rejection> {
    if response.protocolVersion != PROTOCOL then Err(ProtocolVersion)
    else match response.outcome
      case Rejected(reason) => Err(reason)
      case Accepted(authority, membership, records) =>
        if authority != invite.authority || authority.networkId != expected then Err(WrongNetwork)
        else if || membership.networkId != expected || membership.networkId != authority.networkId
                || membership.sisterId != sisterId || membership.sisterKey != sisterKey
                || !membership.Verify(authority) || !membership.ValidAt(now)
        then Err(IssuanceFailed)
        else if exists k | 0 <= k < |records| :: records[k].networkId != expected || !records[k].Verify()
        then Err(IssuanceFailed)
        else Ok(Bundle(authority, membership, records))
  }

  /** Exactly which responses a joiner takes, and why it refuses the others. */
  lemma ValidatesExactly(response: Response, invite: Invite, expected: NetworkId, sisterId: SisterId, sisterKey: Key, now: Time)
    ensures var r := ValidateReceived(response, invite, expected, sisterId, sisterKey, now);
            && (response.protocolVersion != 1 ==> r == Err(ProtocolVersion))
            && (response.protocolVersion == 1 && response.outcome.Rejected? ==> r == Err(response.outcome.reason))
            && (response.protocolVersion == 1 && response.outcome.Accepted? ==>
                var a, m, records := response.outcome.authority, response.outcome.membership, response.outcome.records;
                var ours := a == invite.authority && a.networkId == expected;
                var mine := && m.networkId == expected && m.sisterId == sisterId && m.sisterKey == sisterKey
                            && SealedMembership(m, a) && m.issuedAt <= now && (m.until.None? || now <= m.until.value);
                var sealed := forall k | 0 <= k < |records| :: records[k].networkId == expected && SealedRecord(records[k]);
                && (r == Ok(Bundle(a, m, records)) <==> ours && mine && sealed)
                && (r == Err(WrongNetwork) <==> !ours)
                && (r == Err(IssuanceFailed) <==> ours && !(mine && sealed)))
  {
  }

  /** What a joiner accepts it can install: staging re-verifies it, and a whole
      install into an untouched directory ends with a membership that is vouched for. */
  lemma ValidatedBundlesInstall(response: Response, invite: Invite, expected: NetworkId, sisterId: SisterId,
                                sisterKey: Key, now: Time, gateways: Option<seq<string>>)
    requires ValidateReceived(response, invite, expected, sisterId, sisterKey, now).Ok?
    ensures var bundle := ValidateReceived(response, invite, expected, sisterId, sisterKey, now).value;
            var a := JoinTransaction.Attempt(JoinTransaction.NetworkInstall(bundle, gateways), false, 5);
            && bundle.membership.Names(expected, sisterId, sisterKey)
            && JoinTransaction.Outcome(JoinTransaction.Empty, a) == Ok(())
            && JoinTransaction.Consistent(JoinTransaction.DirectoryAfter(JoinTransaction.Empty, a))
            && JoinTransaction.DirectoryAfter(JoinTransaction.Empty, a).membership.Holds?
  {
    var bundle := ValidateReceived(response, invite, expected, sisterId, sisterKey, now).value;
    var a := JoinTransaction.Attempt(JoinTransaction.NetworkInstall(bundle, gateways), false, 5);
    JoinTransaction.Cuts(JoinTransaction.Empty, a.install, JoinTransaction.Landed(a));
  }

  datatype Joiner = Joiner(invite: Invite, expected: NetworkId, sisterId: SisterId, key: Key, nonce: Nonce)

  predicate ChallengeIsOurs(j: Joiner, challenge: Challenge) {
    && challenge.protocolVersion == PROTOCOL && challenge.networkId == j.invite.networkId
    && challenge.inviteDigest == j.invite.InviteDigest()
    && challenge.sisterId == j.sisterId && challenge.sisterKey == j.key && challenge.recipientNonce == j.nonce
  }

  /** An honest joiner against the serving code, end to end: three clock readings
      and the allocator's answer are the environment's. */
  ghost function Exchange(server: Server, j: Joiner, evaluatedAt: Time, nonce: Nonce, serial: Option<nat>,
                          issuedAt: Time, receivedAt: Time): Result<Bundle, Rejection> {
    var request := Request(PROTOCOL, j.invite, j.sisterId, j.key, j.nonce);
    match Evaluate(server, request, evaluatedAt, nonce)
    case Err(reason) => Err(reason)
    case Ok(challenge) =>
      if !ChallengeIsOurs(j, challenge) then Err(InvalidInvite)
      else if !challenge.Accepts(challenge.Solve(j.key)) then Err(InvalidProof)
      else if serial.None? then Err(IssuanceFailed)
      else ValidateReceived(Issued(server, request, serial.value, issuedAt), j.invite, j.expected, j.sisterId,
                            j.key, receivedAt)
  }

  /** The Authority's own material is in order. */
  ghost predicate Honest(server: Server) {
    && server.authorityKey == server.authority.publicKey && server.networkId == server.authority.networkId
    && server.locator.networkId == server.networkId && server.locator.Verify()
    && forall k | 0 <= k < |server.extraBootstrap| ::
         server.extraBootstrap[k].networkId == server.networkId && server.extraBootstrap[k].Verify()
  }

  lemma HonestRecordsVerify(server: Server, k: nat)
    requires Honest(server)
    ensures var records := Bootstrap.Bootstrapped([server.locator] + server.extraBootstrap);
            k < |records| ==> records[k].networkId == server.networkId && records[k].Verify()
  {
    hide Bootstrap.Lists;
    var offered := [server.locator] + server.extraBootstrap;
    Bootstrap.BootstrappedAreOffered(offered, k);
  }

  lemma IssuedIsAccepted(server: Server, j: Joiner, serial: nat, issuedAt: Time, receivedAt: Time)
    requires Honest(server) && j.invite.authority == server.authority
    ensures var request := Request(PROTOCOL, j.invite, j.sisterId, j.key, j.nonce);
            var r := ValidateReceived(Issued(server, request, serial, issuedAt), j.invite, j.expected, j.sisterId,
                                      j.key, receivedAt);
            && (r.Ok? <==> j.expected == server.networkId && issuedAt <= receivedAt)
            && (r.Ok? ==> && r.value.authority == server.authority && r.value.membership.serial == serial
                          && IssuedFor(server, request, r.value.membership, issuedAt))
  {
    var records := Bootstrap.Bootstrapped([server.locator] + server.extraBootstrap);
    forall k | 0 <= k < |records|
      ensures records[k].networkId == server.networkId && records[k].Verify()
    {
      HonestRecordsVerify(server, k);
    }
    hide Bootstrap.Bootstrapped;
  }

  /** An honest exchange ends in an accepted bundle exactly when the invite is
      live at evaluation, is this Authority's and leads to this Sister, the
      allocator works, the joiner expects this Network, and the joiner's last clock
      reading is not before the issue time. */
  lemma ExchangeSucceedsExactlyWhen(server: Server, j: Joiner, evaluatedAt: Time, nonce: Nonce, serial: Option<nat>,
                                    issuedAt: Time, receivedAt: Time)
    requires Honest(server)
    ensures var r := Exchange(server, j, evaluatedAt, nonce, serial, issuedAt, receivedAt);
            && (r.Ok? <==>
                && LiveInvite(j.invite, server.authority, evaluatedAt)
                && j.invite.locator.sisterId == server.sisterId
                && j.invite.locator.binding.endpoint == server.endpoint
                && serial.Some? && j.expected == server.networkId && issuedAt <= receivedAt)
            && (r.Ok? ==> && r.value.authority == server.authority && r.value.membership.serial == serial.value
                          && IssuedFor(server, Request(1, j.invite, j.sisterId, j.key, j.nonce), r.value.membership, issuedAt))
  {
    EvaluateExactly(server, Request(PROTOCOL, j.invite, j.sisterId, j.key, j.nonce), evaluatedAt, nonce);
    if j.invite.authority == server.authority && serial.Some? {
      IssuedIsAccepted(server, j, serial.value, issuedAt, receivedAt);
    }
    hide ValidateReceived, Issued, Evaluate, LiveInvite, IssuedFor;
  }

  /** A challenge is the joiner's own exactly when it is the one built from its
      request, whatever nonce the Authority drew. */
  lemma ChallengeIsOursExactly(j: Joiner, c: Challenge)
    ensures ChallengeIsOurs(j, c) <==>
            var v := j.invite;
            c == Challenge(1, v.networkId,
                           Sha256(InviteText(v.version, v.networkId, v.authority, v.issuedAt, v.expiresAt, v.inviteNonce, v.locator)),
                           j.sisterId, j.key, c.authorityNonce, j.nonce)
  {
  }

  /** A stream served start to end, in any office with the allocator open: it ends
      granted exactly when the request's version and invite are good, the proof is
      the requested key's own over the challenge, and the serial's write is done. */
  lemma StreamIsServed(server: Server, o: Office, request: Request, asked: Time, nonce: Nonce, proof: Signature, proved: Time,
                       write: SerialStore.Write)
    requires o.serials.handle.Some?
    ensures var s := |o.streams|;
            var a := Next(server, o, OpenStream);
            var b := Next(server, a, RequestArrives(s, request, asked, nonce));
            var c := Next(server, b, ProofArrives(s, proof, proved, write));
            var v := request.invite;
            var good := && request.protocolVersion == 1 && LiveInvite(v, server.authority, asked)
                        && v.networkId == server.networkId && v.locator.sisterId == server.sisterId
                        && v.locator.binding.endpoint == server.endpoint;
            var signed := proof == Signature(request.sisterKey,
                            ChallengeText(1, server.networkId,
                                          Sha256(InviteText(v.version, v.networkId, v.authority, v.issuedAt, v.expiresAt,
                                                            v.inviteNonce, v.locator)),
                                          request.sisterId, request.sisterKey, nonce, request.recipientNonce));
            && a.streams == o.streams + [Waiting] && |c.streams| == s + 1 && c.streams[..s] == o.streams
            && (c.streams[s].Granted? <==> good && signed && write.Done?)
            && c.serials == (if good && signed then SerialStore.Step(o.serials, SerialStore.Allocate(write)) else o.serials)
            && (good && !signed ==> c.streams[s] == Denied(InvalidProof))
            && (good && signed && !write.Done? ==> c.streams[s] == Denied(IssuanceFailed))
  {
    var s := |o.streams|;
    var a := Next(server, o, OpenStream);
    var b := Next(server, a, RequestArrives(s, request, asked, nonce));
    EvaluateExactly(server, request, asked, nonce);
    hide Evaluate, LiveInvite, Issued, SerialStore.Step;
    assert a.streams[s] == Waiting && a.streams[..s] == o.streams;
  }

  /** How streams end otherwise: a hang-up closes an unfinished one, and when the
      process closes or crashes every unfinished one closes with it. */
  lemma StreamsEnd(server: Server, o: Office, s: nat, event: SerialStore.Event)
    ensures s < |o.streams| && (o.streams[s].Waiting? || o.streams[s].Challenged?) ==>
              Next(server, o, HangUp(s)) == o.(streams := o.streams[s := Closed])
    ensures var n := Next(server, o, Serials(event));
            && n == Office(n.streams, SerialStore.Step(o.serials, event), o.used) && |n.streams| == |o.streams|
            && forall k | 0 <= k < |o.streams| ::
                 n.streams[k] == if (event.Close? || event.CrashInAllocate?) && !o.streams[k].Granted? && !o.streams[k].Denied?
                                 then Closed else o.streams[k]
  {
    hide SerialStore.Step;
  }

  /** Without an open allocator nothing is answered. */
  lemma NothingIsServedClosed(server: Server, o: Office, e: Event)
    requires o.serials.handle.None? && (e.RequestArrives? || e.ProofArrives?)
    ensures Next(server, o, e) == o
  {
  }

  // ----- The two ends as they run -----

  datatype Reply = ChallengeReply(challenge: Challenge) | RejectedReply(reason: Rejection) | ResponseReply(response: Response)

  /** One stream of its own, before and after each frame that arrives. */
  ghost function Alone(serials: SerialStore.Allocator): Office {
    Office([Waiting], serials, {})
  }

  class EnrollmentServer {
    const server: Server
    const serials: SerialStore.MembershipSerialStore

    constructor (server: Server, serials: SerialStore.MembershipSerialStore)
      ensures this.server == server && this.serials == serials
    {
      this.server, this.serials := server, serials;
    }

    /** Answers the request frame; the stream then stands where the protocol says. */
    method AnswerRequest(request: Request, now: Time, nonce: Nonce) returns (stream: Stream, reply: Option<Reply>)
      requires serials.current.Some?
      ensures stream == Next(server, Alone(serials.View([])), RequestArrives(0, request, now, nonce)).streams[0]
      ensures reply == match stream
                       case Challenged(_, challenge) => Some(ChallengeReply(challenge))
                       case Denied(reason) => Some(RejectedReply(reason))
                       case _ => None
      ensures stream.Challenged? || stream.Denied? || stream.Closed?
    {
      if request.protocolVersion != PROTOCOL {
        return Closed, None;
      }
      match Evaluate(server, request, now, nonce)
      case Ok(challenge) => return Challenged(request, challenge), Some(ChallengeReply(challenge));
      case Err(reason) => return Denied(reason), Some(RejectedReply(reason));
    }

    /** Answers the proof frame: verify, take a durable serial, issue. */
    method AnswerProof(challenged: Stream, proof: Signature, now: Time, write: SerialStore.Write)
      returns (stream: Stream, response: Response)
      requires serials.current.Some? && challenged.Challenged?
      modifies serials
      ensures var after := Proved(server, Office([challenged], old(serials.View([])), {}), 0, proof, now, write);
              stream == after.streams[0] && serials.View(after.serials.issued) == after.serials
      ensures stream.Granted? ==> response == stream.response
      ensures !stream.Granted? ==> response.outcome.Rejected?
      ensures stream.Granted? <==> challenged.challenge.Accepts(proof) && write.Done?
    {
      if !challenged.challenge.Accepts(proof) {
        return Denied(InvalidProof), Response(PROTOCOL, Rejected(InvalidProof));
      }
      var serial := serials.AllocateSerial(write);
      if serial.None? {
        return Denied(IssuanceFailed), Response(PROTOCOL, Rejected(IssuanceFailed));
      }
      var records := Bootstrap.BootstrapRecords(server.locator, server.extraBootstrap);
      response := Response(PROTOCOL, Accepted(server.authority,
                                              Certificate(server, challenged.request, serial.value, now), records));
      stream := Granted(challenged.request, challenged.challenge, response, 0);
    }
  }

  /** The joiner's exchange: a proof goes out only over a challenge that echoes
      its own request, and verifies there; a response is handed on only if accepted. */
  method Redeem(j: Joiner, reply: Reply, answer: Option<Response>)
    returns (proof: Option<Signature>, r: Result<Response, Option<Rejection>>)
    ensures proof.Some? <==> reply.ChallengeReply? && ChallengeIsOurs(j, reply.challenge)
    ensures proof.Some? ==> reply.challenge.Accepts(proof.value)
    ensures r.Ok? <==> proof.Some? && answer.Some? && answer.value.outcome.Accepted?
    ensures r.Ok? ==> answer == Some(r.value)
  {
    match reply
    case RejectedReply(reason) => return None, Err(Some(reason));
    case ResponseReply(_) => return None, Err(None);
    case ChallengeReply(challenge) =>
      if !ChallengeIsOurs(j, challenge) {
        return None, Err(Some(InvalidInvite));
      }
      proof := Some(challenge.Solve(j.key));
      if answer.None? {
        return proof, Err(None);
      }
      match answer.value.outcome
      case Rejected(reason) => return proof, Err(Some(reason));
      case Accepted(_, _, _) => return proof, Ok(answer.value);
  }
}
