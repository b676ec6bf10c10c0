/** The mutual handshake on an authenticated stream: a ClientHello and a
    ServerHello, each carrying its Sister's membership and transport binding. */
module Session {
  import opened Wrappers
  import opened Identity

  const PROTOCOL := 1

  /** The local revocation list, read for every decision. */
  datatype Revocations = NoDirectory | Unreadable | Records(records: seq<Revocation>)

  /** Local material for authenticating sessions; the key pair is named by its public key. */
  datatype Config = Config(networkId: NetworkId, sisterId: SisterId, key: Key, authority: NetworkAuthority,
                           membership: Membership, binding: TransportBinding)

  datatype ClientHello = ClientHello(version: nat, networkId: NetworkId, sisterId: SisterId, sisterKey: Key,
                                     membership: Membership, binding: TransportBinding, nonce: Nonce,
                                     signature: Signature)
  {
    function Signed(): Text {
      ClientHelloText(version, networkId, sisterId, sisterKey, membership, binding, nonce)
    }
  }

  datatype ServerHello = ServerHello(version: nat, networkId: NetworkId, sisterId: SisterId, sisterKey: Key,
                                     membership: Membership, binding: TransportBinding, clientNonce: Nonce,
                                     nonce: Nonce, signature: Signature)
  {
    function Signed(): Text {
      ServerHelloText(version, networkId, sisterId, sisterKey, membership, binding, clientNonce, nonce)
    }
  }

  function SignClient(c: Config, nonce: Nonce): ClientHello {
    ClientHello(PROTOCOL, c.networkId, c.sisterId, c.key, c.membership, c.binding, nonce,
                Signature(c.key, ClientHelloText(PROTOCOL, c.networkId, c.sisterId, c.key, c.membership, c.binding, nonce)))
  }

  function SignServer(c: Config, clientNonce: Nonce, nonce: Nonce): ServerHello {
    ServerHello(PROTOCOL, c.networkId, c.sisterId, c.key, c.membership, c.binding, clientNonce, nonce,
                Signature(c.key, ServerHelloText(PROTOCOL, c.networkId, c.sisterId, c.key, c.membership, c.binding,
                                                 clientNonce, nonce)))
  }

  // ----- Revocation -----

  predicate Revokes(r: Revocation, network: NetworkId, serial: nat) {
    r.networkId == network && r.kind.SisterMembership? && r.serial == serial
  }

  /** The list is readable, every record for this Network is the Authority's, and
      none withdraws this serial. */
  predicate Unrevoked(revocations: Revocations, authority: NetworkAuthority, network: NetworkId, serial: nat) {
    match revocations
    case NoDirectory => true
    case Unreadable => false
    case Records(records) =>
      forall k | 0 <= k < |records| && records[k].networkId == network ::
        records[k].Verify(authority) && !Revokes(records[k], network, serial)
  }

  /** A record signed by the Authority withdraws this serial. */
  predicate Withdrawn(revocations: Revocations, authority: NetworkAuthority, network: NetworkId, serial: nat) {
    revocations.Records? &&
    exists k | 0 <= k < |revocations.records| ::
      revocations.records[k].Verify(authority) && Revokes(revocations.records[k], network, serial)
  }

  lemma WithdrawnIsNotUnrevoked(revocations: Revocations, authority: NetworkAuthority, network: NetworkId, serial: nat)
    ensures Withdrawn(revocations, authority, network, serial) ==>
            && !Unrevoked(revocations, authority, network, serial) && revocations.Records?
            && exists r | r in revocations.records ::
                 && r.networkId == network == authority.networkId && r.kind == SisterMembership && r.serial == serial
                 && r.signature == Signature(authority.publicKey, RevocationText(network, r.kind, serial, r.revokedAt, r.reason))
  {
  }

  /** None when the state cannot be relied on: unreadable, or a record of this
      Network not signed by the Authority comes first. */
  method MembershipIsRevoked(revocations: Revocations, authority: NetworkAuthority, network: NetworkId, serial: nat)
    returns (r: Option<bool>)
    ensures r == Some(false) <==> Unrevoked(revocations, authority, network, serial)
    ensures r == Some(true) ==> Withdrawn(revocations, authority, network, serial)
  {
    match revocations
    case NoDirectory => return Some(false);
    case Unreadable => return None;
    case Records(records) =>
      for i := 0 to |records|
        invariant forall k | 0 <= k < i && records[k].networkId == network ::
            records[k].Verify(authority) && !Revokes(records[k], network, serial)
      {
        if records[i].networkId == network {
          if !records[i].Verify(authority) {
            return None;
          }
          if records[i].kind.SisterMembership? && records[i].serial == serial {
            assert Revokes(records[i], network, serial);
            return Some(true);
          }
        }
      }
      return Some(false);
  }

  // ----- The three checks -----

  /** A membership and binding for this Sister and key that hold up under the
      Authority, the clock and the local revocation list. */
  predicate Vouched(authority: NetworkAuthority, network: NetworkId, sister: SisterId, key: Key,
                    membership: Membership, binding: TransportBinding, revocations: Revocations, now: Time) {
    && membership.Names(network, sister, key) && binding.Names(network, sister, key)
    && membership.Verify(authority) && membership.ValidAt(now) && binding.Verify()
    && Unrevoked(revocations, authority, network, membership.serial)
  }

  predicate ValidateLocal(c: Config, revocations: Revocations, now: Time) {
    && c.networkId == c.authority.networkId
    && Vouched(c.authority, c.networkId, c.sisterId, c.key, c.membership, c.binding, revocations, now)
  }

  /** `far` is the endpoint the transport reports for the other end, if it can be parsed. */
  predicate ValidateClient(local: Config, client: ClientHello, revocations: Revocations, now: Time,
                           far: Option<EndpointId>) {
    && client.version == PROTOCOL && client.networkId == local.networkId
    && Verifies(client.sisterKey, client.Signed(), client.signature)
    && Vouched(local.authority, local.networkId, client.sisterId, client.sisterKey, client.membership,
               client.binding, revocations, now)
    && far == Some(client.binding.endpoint)
  }

  datatype Pins = Pins(sisterId: Option<SisterId>, sisterKey: Option<Key>)

  predicate ValidateServer(local: Config, nonce: Nonce, server: ServerHello, pins: Pins, revocations: Revocations,
                           now: Time, far: Option<EndpointId>) {
    && server.version == PROTOCOL && server.networkId == local.networkId
    && server.clientNonce == nonce
    && (pins.sisterId.Some? ==> server.sisterId == pins.sisterId.value)
    && (pins.sisterKey.Some? ==> server.sisterKey == pins.sisterKey.value)
    && Verifies(server.sisterKey, server.Signed(), server.signature)
    && Vouched(local.authority, local.networkId, server.sisterId, server.sisterKey, server.membership,
               server.binding, revocations, now)
    && far == Some(server.binding.endpoint)
  }

  /** What a Sister shows for itself, field by field: a certificate the Authority
      signed for this very id and key, live now and not withdrawn on the list at
      hand, and a binding the key signed. */
  ghost predicate Proven(authority: NetworkAuthority, network: NetworkId, sister: SisterId, key: Key, m: Membership,
                         b: TransportBinding, list: Revocations, now: Time) {
    && network == authority.networkId
    && m.networkId == network && m.sisterId == sister && m.sisterKey == key
    && m.signature == Signature(authority.publicKey, MembershipText(network, key, sister, m.issuedAt, m.until, m.serial))
    && m.issuedAt <= now && (m.until.None? || now <= m.until.value)
    && b.networkId == network && b.sisterId == sister && b.sisterKey == key
    && b.signature == Signature(key, BindingText(network, sister, key, b.endpoint, b.sequence))
    && !list.Unreadable?
    && (list.Records? ==>
        forall k | 0 <= k < |list.records| && list.records[k].networkId == network ::
          var r := list.records[k];
          && r.signature == Signature(authority.publicKey, RevocationText(network, r.kind, r.serial, r.revokedAt, r.reason))
          && (r.serial == m.serial ==> r.kind == HumanMembershipKind))
  }

  lemma UnrevokedExactly(authority: NetworkAuthority, list: Revocations, serial: nat)
    ensures Unrevoked(list, authority, authority.networkId, serial) <==>
            && !list.Unreadable?
            && (list.Records? ==>
                forall k | 0 <= k < |list.records| && list.records[k].networkId == authority.networkId ::
                  var r := list.records[k];
                  && r.signature == Signature(authority.publicKey,
                                              RevocationText(r.networkId, r.kind, r.serial, r.revokedAt, r.reason))
                  && (r.serial == serial ==> r.kind == HumanMembershipKind))
  {
  }

  lemma VouchedExactly(authority: NetworkAuthority, network: NetworkId, sister: SisterId, key: Key, m: Membership,
                       b: TransportBinding, list: Revocations, now: Time)
    ensures Vouched(authority, network, sister, key, m, b, list, now) <==>
            Proven(authority, network, sister, key, m, b, list, now)
  {
    if network == authority.networkId {
      UnrevokedExactly(authority, list, m.serial);
    }
    hide Unrevoked;
  }

  lemma LocalIsValidExactly(c: Config, list: Revocations, now: Time)
    ensures ValidateLocal(c, list, now) <==>
            Proven(c.authority, c.networkId, c.sisterId, c.key, c.membership, c.binding, list, now)
  {
    hide Vouched, Proven;
    VouchedExactly(c.authority, c.networkId, c.sisterId, c.key, c.membership, c.binding, list, now);
    ProvenNetwork(c.authority, c.networkId, c.sisterId, c.key, c.membership, c.binding, list, now);
  }

  lemma ProvenNetwork(authority: NetworkAuthority, network: NetworkId, sister: SisterId, key: Key, m: Membership,
                      b: TransportBinding, list: Revocations, now: Time)
    ensures Proven(authority, network, sister, key, m, b, list, now) ==> network == authority.networkId
  {
  }

  /** Exactly which ClientHello a server takes. */
  lemma ClientIsValidExactly(c: Config, h: ClientHello, list: Revocations, now: Time, far: Option<EndpointId>)
    ensures ValidateClient(c, h, list, now, far) <==>
            && h.version == 1 && h.networkId == c.networkId
            && h.signature == Signature(h.sisterKey, ClientHelloText(1, c.networkId, h.sisterId, h.sisterKey, h.membership,
                                                                     h.binding, h.nonce))
            && Proven(c.authority, c.networkId, h.sisterId, h.sisterKey, h.membership, h.binding, list, now)
            && far.Some? && far.value == h.binding.endpoint
  {
    hide Vouched, Proven;
    VouchedExactly(c.authority, c.networkId, h.sisterId, h.sisterKey, h.membership, h.binding, list, now);
  }

  /** Exactly which ServerHello a client takes. */
  lemma ServerIsValidExactly(c: Config, nonce: Nonce, h: ServerHello, pins: Pins, list: Revocations, now: Time,
                             far: Option<EndpointId>)
    ensures ValidateServer(c, nonce, h, pins, list, now, far) <==>
            && h.version == 1 && h.networkId == c.networkId && h.clientNonce == nonce
            && (pins.sisterId.None? || pins.sisterId.value == h.sisterId)
            && (pins.sisterKey.None? || pins.sisterKey.value == h.sisterKey)
            && h.signature == Signature(h.sisterKey, ServerHelloText(1, c.networkId, h.sisterId, h.sisterKey, h.membership,
                                                                     h.binding, nonce, h.nonce))
            && Proven(c.authority, c.networkId, h.sisterId, h.sisterKey, h.membership, h.binding, list, now)
            && far.Some? && far.value == h.binding.endpoint
  {
    hide Vouched, Proven;
    VouchedExactly(c.authority, c.networkId, h.sisterId, h.sisterKey, h.membership, h.binding, list, now);
  }

  // ----- The two ends -----

  /** The peer a server has authenticated. */
  datatype Peer = Peer(sisterId: SisterId, sisterKey: Key, serial: nat)

  /** What one side reads from its surroundings: the clock and the revocation
      list at each of its two decisions, and the far endpoint. */
  datatype Surroundings = Surroundings(startsAt: Time, listAtStart: Revocations, decidesAt: Time,
                                       listAtDecision: Revocations, far: Option<EndpointId>)

  method CheckLocal(local: Config, revocations: Revocations, now: Time) returns (ok: bool)
    ensures ok == ValidateLocal(local, revocations, now)
  {
    var revoked := MembershipIsRevoked(revocations, local.authority, local.networkId, local.membership.serial);
    ok := && local.networkId == local.authority.networkId
          && local.membership.Names(local.networkId, local.sisterId, local.key)
          && local.binding.Names(local.networkId, local.sisterId, local.key)
          && local.membership.Verify(local.authority) && local.membership.ValidAt(now)
          && local.binding.Verify() && revoked == Some(false);
  }

  /** Sends a hello only with consistent local material, and succeeds exactly on
      a ServerHello that passes every check against it. */
  method AuthenticateClient(local: Config, pins: Pins, nonce: Nonce, around: Surroundings, reply: Option<ServerHello>)
    returns (sent: Option<ClientHello>, ok: bool)
    ensures sent == if ValidateLocal(local, around.listAtStart, around.startsAt) then Some(SignClient(local, nonce)) else None
    ensures ok <==> && sent.Some? && reply.Some?
                    && ValidateServer(local, nonce, reply.value, pins, around.listAtDecision, around.decidesAt, around.far)
  {
    var valid := CheckLocal(local, around.listAtStart, around.startsAt);
    if !valid {
      return None, false;
    }
    sent := Some(SignClient(local, nonce));
    if reply.None? {
      return sent, false;
    }
    var s := reply.value;
    var revoked := MembershipIsRevoked(around.listAtDecision, local.authority, local.networkId, s.membership.serial);
    ok := && s.version == PROTOCOL && s.networkId == local.networkId && s.clientNonce == nonce
          && (pins.sisterId.None? || s.sisterId == pins.sisterId.value)
          && (pins.sisterKey.None? || s.sisterKey == pins.sisterKey.value)
          && s.membership.Names(local.networkId, s.sisterId, s.sisterKey)
          && s.binding.Names(local.networkId, s.sisterId, s.sisterKey)
          && Verifies(s.sisterKey, s.Signed(), s.signature)
          && s.membership.Verify(local.authority) && s.membership.ValidAt(around.decidesAt)
          && s.binding.Verify() && revoked == Some(false) && around.far == Some(s.binding.endpoint);
  }

  /** Answers and names the peer exactly when the ClientHello passes every check;
      the answer echoes its nonce. */
  method AuthenticateServer(local: Config, nonce: Nonce, around: Surroundings, hello: Option<ClientHello>)
    returns (sent: Option<ServerHello>, peer: Option<Peer>)
    ensures sent.Some? <==> && ValidateLocal(local, around.listAtStart, around.startsAt) && hello.Some?
                            && ValidateClient(local, hello.value, around.listAtDecision, around.decidesAt, around.far)
    ensures sent.Some? ==>
              && sent.value == SignServer(local, hello.value.nonce, nonce)
              && peer == Some(Peer(hello.value.sisterId, hello.value.sisterKey, hello.value.membership.serial))
    ensures sent.None? ==> peer.None?
  {
    var valid := CheckLocal(local, around.listAtStart, around.startsAt);
    if !valid || hello.None? {
      return None, None;
    }
    var c := hello.value;
    var revoked := MembershipIsRevoked(around.listAtDecision, local.authority, local.networkId, c.membership.serial);
    if && c.version == PROTOCOL && c.networkId == local.networkId
       && c.membership.Names(local.networkId, c.sisterId, c.sisterKey)
       && c.binding.Names(local.networkId, c.sisterId, c.sisterKey)
       && Verifies(c.sisterKey, c.Signed(), c.signature)
       && c.membership.Verify(local.authority) && c.membership.ValidAt(around.decidesAt)
       && c.binding.Verify() && revoked == Some(false) && around.far == Some(c.binding.endpoint)
    {
      return Some(SignServer(local, c.nonce, nonce)), Some(Peer(c.sisterId, c.sisterKey, c.membership.serial));
    }
    return None, None;
  }

  // ----- Whole runs over a hostile network -----

  /** What honest Sisters do. A frame is whatever the network delivered. */
  datatype Event =
    | Start(config: Config, nonce: Nonce, around: Surroundings)
    | Answer(config: Config, nonce: Nonce, around: Surroundings, frame: ClientHello)
    | Finish(session: nat, pins: Pins, reply: ServerHello, far: Option<EndpointId>, list: Revocations, now: Time)

  predicate Answers(e: Event)
    requires e.Answer?
  {
    && ValidateLocal(e.config, e.around.listAtStart, e.around.startsAt)
    && ValidateClient(e.config, e.frame, e.around.listAtDecision, e.around.decidesAt, e.around.far)
  }

  /** The hello an event signs, if any. */
  function Signs(e: Event): Option<Signature> {
    match e
    case Start(config, nonce, around) =>
      if ValidateLocal(config, around.listAtStart, around.startsAt) then Some(SignClient(config, nonce).signature) else None
    case Answer(config, nonce, around, frame) =>
      if Answers(e) then Some(SignServer(config, frame.nonce, nonce).signature) else None
    case Finish(_, _, _, _, _, _) => None
  }

  /** A signature by an honest key can only be one its holder has made before. */
  ghost predicate Deliverable(honest: set<Key>, es: seq<Event>, signature: Signature) {
    signature.signer in honest ==> exists k | 0 <= k < |es| :: Signs(es[k]) == Some(signature)
  }

  /** A nonce that no earlier event drew or carried. */
  predicate FreshNonce(es: seq<Event>, nonce: Nonce) {
    forall k | 0 <= k < |es| ::
      match es[k]
      case Start(_, n, _) => n != nonce
      case Answer(_, _, _, frame) => frame.nonce != nonce
      case Finish(_, _, _, _, _, _) => true
  }

  ghost predicate LegalEvent(honest: set<Key>, before: seq<Event>, e: Event) {
    match e
    case Start(config, nonce, _) => FreshNonce(before, nonce)
    case Answer(config, _, _, frame) => Deliverable(honest, before, frame.signature)
    case Finish(session, _, reply, _, _, _) =>
      session < |before| && before[session].Start? && Deliverable(honest, before, reply.signature)
  }

  ghost predicate Legal(honest: set<Key>, es: seq<Event>) {
    forall k | 0 <= k < |es| :: LegalEvent(honest, es[..k], es[k])
  }

  /** Event `k` is the client accepting the session it started. */
  predicate Accepts(es: seq<Event>, k: nat) {
    && k < |es| && es[k].Finish? && es[k].session < k && es[es[k].session].Start?
    && var start := es[es[k].session];
       && ValidateLocal(start.config, start.around.listAtStart, start.around.startsAt)
       && ValidateServer(start.config, start.nonce, es[k].reply, es[k].pins, es[k].list, es[k].now, es[k].far)
  }

  /** Event `j` is the answer that acceptance `k` rests on: made after the session
      began, by the holder of the accepted key, to a hello with the session's own
      nonce, and presenting the very membership and binding accepted. */
  predicate RestsOn(es: seq<Event>, k: nat, j: nat)
    requires Accepts(es, k)
  {
    && es[k].session < j < k && es[j].Answer? && Answers(es[j])
    && es[j].frame.nonce == es[es[k].session].nonce
    && es[k].reply == SignServer(es[j].config, es[j].frame.nonce, es[j].nonce)
  }

  lemma EchoComesLater(honest: set<Key>, es: seq<Event>, s: nat, j: nat)
    requires Legal(honest, es) && s < |es| && j < |es| && es[s].Start? && es[j].Answer?
    requires es[j].frame.nonce == es[s].nonce
    ensures s < j
  {
    assert LegalEvent(honest, es[..s], es[s]);
    assert FreshNonce(es[..s], es[s].nonce);
    assert forall i | 0 <= i < s :: es[..s][i] == es[i];
  }

  /** Over every run on a network that may drop, replay, reorder and invent
      anything but honest signatures: a client that accepts an honest key shares
      the session with its holder. */
  lemma ClientAgreement(honest: set<Key>, es: seq<Event>, k: nat)
    requires Legal(honest, es) && Accepts(es, k) && es[k].reply.sisterKey in honest
    ensures exists j | 0 <= j < |es| :: RestsOn(es, k, j)
  {
    var reply, s := es[k].reply, es[k].session;
    assert LegalEvent(honest, es[..k], es[k]);
    var j :| 0 <= j < |es[..k]| && Signs(es[..k][j]) == Some(reply.signature);
    assert es[..k][j] == es[j];
    assert reply.signature.text == reply.Signed();
    assert es[j].Answer?;
    EchoComesLater(honest, es, s, j);
    assert RestsOn(es, k, j);
  }

  /** One answer supports one session: acceptances of different sessions rest on
      different answers. */
  lemma AgreementIsInjective(honest: set<Key>, es: seq<Event>, k: nat, m: nat, j: nat)
    requires Legal(honest, es) && Accepts(es, k) && Accepts(es, m) && es[k].session < es[m].session
    requires RestsOn(es, k, j)
    ensures !RestsOn(es, m, j)
  {
    var s, t := es[k].session, es[m].session;
    assert LegalEvent(honest, es[..t], es[t]);
    assert es[..t][s] == es[s];
    assert FreshNonce(es[..t], es[t].nonce);
  }

  /** A server that names an honest key as its peer has that holder's own hello. */
  lemma ServerAgreement(honest: set<Key>, es: seq<Event>, j: nat)
    requires Legal(honest, es) && j < |es| && es[j].Answer? && Answers(es[j]) && es[j].frame.sisterKey in honest
    ensures exists i | 0 <= i < j :: es[i].Start? && es[j].frame == SignClient(es[i].config, es[i].nonce)
  {
    assert LegalEvent(honest, es[..j], es[j]);
    var frame := es[j].frame;
    var i :| 0 <= i < |es[..j]| && Signs(es[..j][i]) == Some(frame.signature);
    assert es[..j][i] == es[i] && frame.signature.text == frame.Signed();
    assert es[i].Start?;
  }

  /** Over every run, honest key or not: what a client accepts, and what a server
      names as its peer, is backed by the Authority's signature on that very id and
      key, live and not withdrawn, and by the key's own on the endpoint at the far end. */
  lemma AcceptedMaterialIsProven(honest: set<Key>, es: seq<Event>, k: nat)
    requires Legal(honest, es) && k < |es|
    ensures Accepts(es, k) ==>
              var c, h := es[es[k].session].config, es[k].reply;
              && Proven(c.authority, c.networkId, h.sisterId, h.sisterKey, h.membership, h.binding, es[k].list, es[k].now)
              && es[k].far.Some? && es[k].far.value == h.binding.endpoint
    ensures es[k].Answer? && Answers(es[k]) ==>
              var c, h := es[k].config, es[k].frame;
              && Proven(c.authority, c.networkId, h.sisterId, h.sisterKey, h.membership, h.binding,
                        es[k].around.listAtDecision, es[k].around.decidesAt)
              && es[k].around.far.Some? && es[k].around.far.value == h.binding.endpoint
  {
    hide Proven;
    if Accepts(es, k) {
      var start := es[es[k].session];
      ServerIsValidExactly(start.config, start.nonce, es[k].reply, es[k].pins, es[k].list, es[k].now, es[k].far);
    } else if es[k].Answer? {
      ClientIsValidExactly(es[k].config, es[k].frame, es[k].around.listAtDecision, es[k].around.decidesAt, es[k].around.far);
    }
  }

  /** This end's material under some Authority, list and clock. */
  ghost predicate Shows(c: Config, authority: NetworkAuthority, list: Revocations, now: Time) {
    Proven(authority, c.networkId, c.sisterId, c.key, c.membership, c.binding, list, now)
  }

  /** The server takes the client's hello: each end's material is in order at its
      own start, the client's holds up at the server, and it comes from the endpoint
      the client is bound to. */
  ghost predicate ServerAgrees(client: Config, server: Config, atClient: Surroundings, atServer: Surroundings) {
    && Shows(client, client.authority, atClient.listAtStart, atClient.startsAt)
    && Shows(server, server.authority, atServer.listAtStart, atServer.startsAt)
    && Shows(client, server.authority, atServer.listAtDecision, atServer.decidesAt)
    && atServer.far == Some(client.binding.endpoint)
  }

  /** And the server's holds up at the client, and any pins name the server. */
  ghost predicate Compatible(client: Config, server: Config, pins: Pins, atClient: Surroundings, atServer: Surroundings) {
    && ServerAgrees(client, server, atClient, atServer)
    && Shows(server, client.authority, atClient.listAtDecision, atClient.decidesAt)
    && atClient.far == Some(server.binding.endpoint)
    && (pins.sisterId.Some? ==> pins.sisterId.value == server.sisterId)
    && (pins.sisterKey.Some? ==> pins.sisterKey.value == server.key)
  }

  /** Material that holds up under two Authorities shows they are one. */
  lemma OneAuthority(c: Config, a: NetworkAuthority, b: NetworkAuthority, list: Revocations, other: Revocations,
                     now: Time, later: Time)
    ensures Shows(c, a, list, now) && Shows(c, b, other, later) ==> a == b && c.networkId == a.networkId
  {
  }

  /** The two ends run against each other: the client succeeds exactly when they
      are compatible, and the server names the client exactly when it agrees. */
  method Handshake(client: Config, server: Config, pins: Pins, n: Nonce, m: Nonce, atClient: Surroundings,
                   atServer: Surroundings)
    returns (ok: bool, peer: Option<Peer>)
    ensures ok <==> Compatible(client, server, pins, atClient, atServer)
    ensures peer.Some? <==> ServerAgrees(client, server, atClient, atServer)
    ensures peer.Some? ==> peer.value == Peer(client.sisterId, client.key, client.membership.serial)
    ensures peer.Some? ==> client.authority == server.authority
  {
    OneAuthority(client, client.authority, server.authority, atClient.listAtStart, atServer.listAtDecision,
                 atClient.startsAt, atServer.decidesAt);
    OneAuthority(server, server.authority, client.authority, atServer.listAtStart, atClient.listAtDecision,
                 atServer.startsAt, atClient.decidesAt);
    LocalIsValidExactly(client, atClient.listAtStart, atClient.startsAt);
    LocalIsValidExactly(server, atServer.listAtStart, atServer.startsAt);
    ClientIsValidExactly(server, SignClient(client, n), atServer.listAtDecision, atServer.decidesAt, atServer.far);
    ServerIsValidExactly(client, n, SignServer(server, n, m), pins, atClient.listAtDecision, atClient.decidesAt, atClient.far);
    hide Proven, ValidateLocal, ValidateClient, ValidateServer;
    ProvenNetwork(client.authority, client.networkId, client.sisterId, client.key, client.membership, client.binding,
                  atClient.listAtStart, atClient.startsAt);
    ProvenNetwork(server.authority, server.networkId, server.sisterId, server.key, server.membership, server.binding,
                  atServer.listAtStart, atServer.startsAt);
    var hello, reply, sent;
    hello, ok := AuthenticateClient(client, pins, n, atClient, None);
    reply, peer := AuthenticateServer(server, m, atServer, hello);
    sent, ok := AuthenticateClient(client, pins, n, atClient, reply);
  }
}
