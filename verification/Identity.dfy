/** The signed contracts of a Misaka Network.

    Signatures are symbolic: a signature is the pair of the signing key and the
    text it covers, so a key verifies exactly what its holder signed. Every
    contract has its own kind of text, and a text lists every signed field. A
    key pair is named by its public key. */
module Identity {
  import opened Wrappers

  type NetworkId = nat
  type SisterId = nat
  type Key = nat
  type EndpointId = nat
  type Nonce = nat
  type Time = nat

  datatype Role = Owner | Admin | Operator

  datatype Permission =
    NetworkInvite | NetworkRevoke | SisterInspect | JobSubmit | JobCancel | FileSend | TunnelOpen | ShellOpen

  datatype MembershipKind = SisterMembership | HumanMembershipKind

  datatype Principal = Human(human: nat) | Sister(sister: SisterId)

  datatype HumanIdentity = HumanIdentity(id: nat, displayName: string, publicKey: Key)

  datatype NetworkAuthority = NetworkAuthority(networkId: NetworkId, publicKey: Key)

  /** A digest stands for the text it was taken over. */
  datatype Digest = Sha256(text: Text)

  datatype Signature = Signature(signer: Key, text: Text)

  datatype Text =
    | HumanMembershipText(networkId: NetworkId, human: HumanIdentity, role: Role, issuedAt: Time,
                          until: Option<Time>, serial: nat)
    | MembershipText(networkId: NetworkId, sisterKey: Key, sisterId: SisterId, issuedAt: Time,
                     until: Option<Time>, serial: nat)
    | CommandText(networkId: NetworkId, issuer: HumanIdentity, grant: HumanMembership, role: Role,
                  permission: Permission, target: Option<Principal>, constraints: seq<string>,
                  issuedAt: Time, expiresAt: Time, nonce: Nonce)
    | BindingText(networkId: NetworkId, sisterId: SisterId, sisterKey: Key, endpoint: EndpointId, sequence: nat)
    | RecordText(networkId: NetworkId, sisterId: SisterId, sisterKey: Key, endpointAddr: string,
                 binding: TransportBinding, sequence: nat, updatedAt: Time)
    | InviteText(version: nat, networkId: NetworkId, authority: NetworkAuthority, issuedAt: Time,
                 expiresAt: Time, inviteNonce: Nonce, locator: PeerRecord)
    | ChallengeText(version: nat, networkId: NetworkId, inviteDigest: Digest, sisterId: SisterId,
                    sisterKey: Key, authorityNonce: Nonce, recipientNonce: Nonce)
    | GatewayText(networkId: NetworkId, sisterId: SisterId, timestamp: Time, nonce: Nonce, bodyDigest: Digest)
    | AnnounceBody(membership: Membership, record: PeerRecord)
    | PeersBody
    | ClientHelloText(version: nat, networkId: NetworkId, sisterId: SisterId, sisterKey: Key,
                      membership: Membership, binding: TransportBinding, nonce: Nonce)
    | ServerHelloText(version: nat, networkId: NetworkId, sisterId: SisterId, sisterKey: Key,
                      membership: Membership, binding: TransportBinding, clientNonce: Nonce, nonce: Nonce)
    | RevocationText(networkId: NetworkId, kind: MembershipKind, serial: nat, revokedAt: Time, reason: string)

  predicate Verifies(key: Key, text: Text, signature: Signature) {
    signature == Signature(key, text)
  }

  predicate InWindow(from: Time, until: Option<Time>, now: Time) {
    from <= now && (until.Some? ==> now <= until.value)
  }

  predicate RoleAllows(role: Role, permission: Permission) {
    match role
    case Owner => true
    case Admin => permission in {NetworkInvite, NetworkRevoke, SisterInspect}
    case Operator => permission in {SisterInspect, JobSubmit, JobCancel, FileSend, TunnelOpen, ShellOpen}
  }

  /** Authority-signed role grant for a human. */
  datatype HumanMembership = HumanMembership(networkId: NetworkId, human: HumanIdentity, role: Role,
                                             issuedAt: Time, until: Option<Time>, serial: nat,
                                             signature: Signature)
  {
    function Signed(): Text {
      HumanMembershipText(networkId, human, role, issuedAt, until, serial)
    }

    predicate Verify(authority: NetworkAuthority, now: Time) {
      && networkId == authority.networkId
      && (until.Some? ==> issuedAt <= until.value)
      && InWindow(issuedAt, until, now)
      && Verifies(authority.publicKey, Signed(), signature)
    }
  }

  /** Authority-signed proof that a Sister belongs to a Network. */
  datatype Membership = Membership(networkId: NetworkId, sisterKey: Key, sisterId: SisterId,
                                   issuedAt: Time, until: Option<Time>, serial: nat, signature: Signature)
  {
    function Signed(): Text {
      MembershipText(networkId, sisterKey, sisterId, issuedAt, until, serial)
    }

    predicate Verify(authority: NetworkAuthority) {
      networkId == authority.networkId && Verifies(authority.publicKey, Signed(), signature)
    }

    predicate ValidAt(now: Time) {
      InWindow(issuedAt, until, now)
    }

    /** Whether the certificate stands for `sister`, holder of `key`, in `network`. */
    predicate Names(network: NetworkId, sister: SisterId, key: Key) {
      networkId == network && sisterId == sister && sisterKey == key
    }
  }

  function IssueMembership(authority: NetworkAuthority, key: Key, sisterKey: Key, sisterId: SisterId,
                           issuedAt: Time, until: Option<Time>, serial: nat): (r: Membership)
    ensures key == authority.publicKey ==> r.Verify(authority)
    ensures r.Names(authority.networkId, sisterId, sisterKey)
  {
    Membership(authority.networkId, sisterKey, sisterId, issuedAt, until, serial,
               Signature(key, MembershipText(authority.networkId, sisterKey, sisterId, issuedAt, until, serial)))
  }

  /** Human-signed authorization for one side-effecting command. */
  datatype CommandAuthorization = CommandAuthorization(
    networkId: NetworkId, issuer: HumanIdentity, grant: HumanMembership, role: Role,
    permission: Permission, target: Option<Principal>, constraints: seq<string>,
    issuedAt: Time, expiresAt: Time, nonce: Nonce, signature: Signature)
  {
    function Signed(): Text {
      CommandText(networkId, issuer, grant, role, permission, target, constraints, issuedAt, expiresAt, nonce)
    }

    predicate Verify(authority: NetworkAuthority, now: Time) {
      && networkId == authority.networkId
      && issuedAt <= now <= expiresAt
      && RoleAllows(role, permission)
      && grant.networkId == networkId && grant.role == role && grant.human == issuer
      && grant.Verify(authority, now)
      && Verifies(issuer.publicKey, Signed(), signature)
    }
  }

  /** Sister-signed claim to a transport endpoint. */
  datatype TransportBinding = TransportBinding(networkId: NetworkId, sisterId: SisterId, sisterKey: Key,
                                               endpoint: EndpointId, sequence: nat, signature: Signature)
  {
    predicate Verify() {
      Verifies(sisterKey, BindingText(networkId, sisterId, sisterKey, endpoint, sequence), signature)
    }

    predicate Names(network: NetworkId, sister: SisterId, key: Key) {
      networkId == network && sisterId == sister && sisterKey == key
    }
  }

  /** Sister-signed locator. */
  datatype PeerRecord = PeerRecord(networkId: NetworkId, sisterId: SisterId, sisterKey: Key,
                                   endpointAddr: string, binding: TransportBinding, sequence: nat,
                                   updatedAt: Time, signature: Signature)
  {
    predicate Verify() {
      && binding.Names(networkId, sisterId, sisterKey)
      && sequence == binding.sequence
      && binding.Verify()
      && Verifies(sisterKey,
                  RecordText(networkId, sisterId, sisterKey, endpointAddr, binding, sequence, updatedAt),
                  signature)
    }
  }

  /** Authority-signed withdrawal of one membership. */
  datatype Revocation = Revocation(networkId: NetworkId, kind: MembershipKind, serial: nat, revokedAt: Time,
                                   reason: string, signature: Signature)
  {
    predicate Verify(authority: NetworkAuthority) {
      && networkId == authority.networkId
      && Verifies(authority.publicKey, RevocationText(networkId, kind, serial, revokedAt, reason), signature)
    }
  }

  /** Enrollment material ready to install. */
  datatype Bundle = Bundle(authority: NetworkAuthority, membership: Membership, bootstrapRecords: seq<PeerRecord>)

  // ----- What the holder of a key has signed, field by field -----

  predicate SealedMembership(m: Membership, authority: NetworkAuthority) {
    && m.networkId == authority.networkId
    && m.signature == Signature(authority.publicKey,
                                MembershipText(m.networkId, m.sisterKey, m.sisterId, m.issuedAt, m.until, m.serial))
  }

  predicate SealedBinding(b: TransportBinding) {
    b.signature == Signature(b.sisterKey, BindingText(b.networkId, b.sisterId, b.sisterKey, b.endpoint, b.sequence))
  }

  /** A record and the binding in it are both signed by the Sister they name. */
  predicate SealedRecord(r: PeerRecord) {
    && r.signature == Signature(r.sisterKey, RecordText(r.networkId, r.sisterId, r.sisterKey, r.endpointAddr,
                                                        r.binding, r.sequence, r.updatedAt))
    && SealedBinding(r.binding)
    && r.binding.networkId == r.networkId && r.binding.sisterId == r.sisterId
    && r.binding.sisterKey == r.sisterKey && r.binding.sequence == r.sequence
  }

  /** An authorization signed by its issuer, whose role the Authority granted. */
  predicate SealedCommand(a: CommandAuthorization, authority: NetworkAuthority) {
    && a.networkId == authority.networkId
    && a.signature == Signature(a.issuer.publicKey,
                                CommandText(a.networkId, a.issuer, a.grant, a.role, a.permission, a.target,
                                            a.constraints, a.issuedAt, a.expiresAt, a.nonce))
    && a.grant.signature == Signature(authority.publicKey,
                                      HumanMembershipText(a.grant.networkId, a.grant.human, a.grant.role,
                                                          a.grant.issuedAt, a.grant.until, a.grant.serial))
    && a.grant.networkId == a.networkId && a.grant.human == a.issuer && a.grant.role == a.role
  }

  /** A certificate verifies exactly for the Authority that signed these very
      fields, and no signature serves two certificates. */
  lemma MembershipVerifiesExactly(m: Membership, n: Membership, authority: NetworkAuthority, now: Time)
    ensures m.Verify(authority) <==> SealedMembership(m, authority)
    ensures m.ValidAt(now) <==> m.issuedAt <= now && (m.until.None? || now <= m.until.value)
    ensures m.Verify(authority) && n.Verify(authority) && m.signature == n.signature ==> m == n
  {
  }

  lemma RecordVerifiesExactly(r: PeerRecord, other: PeerRecord)
    ensures r.binding.Verify() <==> SealedBinding(r.binding)
    ensures r.Verify() <==> SealedRecord(r)
    ensures r.Verify() && other.Verify() && r.signature == other.signature ==> r == other
  {
  }

  lemma RevocationVerifiesExactly(r: Revocation, other: Revocation, authority: NetworkAuthority)
    ensures r.Verify(authority) <==>
            && r.networkId == authority.networkId
            && r.signature == Signature(authority.publicKey,
                                        RevocationText(r.networkId, r.kind, r.serial, r.revokedAt, r.reason))
    ensures r.Verify(authority) && other.Verify(authority) && r.signature == other.signature ==> r == other
  {
  }

  /** An authorization verifies exactly when it and its grant are signed, both
      are live, and the role may do what is permitted: an Owner anything, an Admin
      govern and inspect, an Operator inspect and operate. */
  lemma CommandVerifiesExactly(a: CommandAuthorization, other: CommandAuthorization, authority: NetworkAuthority, now: Time)
    ensures a.Verify(authority, now) <==>
            && SealedCommand(a, authority)
            && a.issuedAt <= now <= a.expiresAt && a.grant.issuedAt <= now
            && (a.grant.until.None? || now <= a.grant.until.value)
            && (match a.permission
                case NetworkInvite => a.role != Operator
                case NetworkRevoke => a.role != Operator
                case SisterInspect => true
                case _ => a.role != Admin)
    ensures a.Verify(authority, now) && other.Verify(authority, now) && a.signature == other.signature ==> a == other
  {
  }
}
