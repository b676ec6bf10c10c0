/** Installing a joined Network: every artifact is staged and re-verified, then
    renamed into the data directory file by file. A crash may fall between any
    two renames, and installs may be repeated. */
module JoinTransaction {
  import opened Wrappers
  import opened Identity

  datatype File<+T> = Missing | Garbled | Holds(value: T)

  /** The network-scoped files of a data directory. */
  datatype Directory = Directory(networkId: File<NetworkId>, descriptor: File<NetworkAuthority>,
                                 membership: File<Membership>, records: File<map<SisterId, PeerRecord>>,
                                 gateways: File<seq<string>>)

  const Empty := Directory(Missing, Missing, Missing, Missing, Missing)

  datatype NetworkInstall = NetworkInstall(bundle: Bundle, gateways: Option<seq<string>>)

  datatype JoinError = Io | Store | Conflict | Verification

  /** The file names in the order they are renamed. */
  datatype Name = NetworkIdName | DescriptorName | MembershipName | RecordsName | GatewaysName

  /** Records keyed by Sister id; a later record for the same id wins. */
  function ById(records: seq<PeerRecord>): map<SisterId, PeerRecord> {
    if records == [] then map[]
    else var last := records[|records| - 1]; ById(records[..|records| - 1])[last.sisterId := last]
  }

  /** Each id maps to the last record for it. */
  lemma {:induction false} ByIdIsLast(records: seq<PeerRecord>, id: SisterId)
    ensures id !in ById(records) <==> forall k | 0 <= k < |records| :: records[k].sisterId != id
    ensures id in ById(records) ==>
              exists k | 0 <= k < |records| ::
                && records[k] == ById(records)[id] && records[k].sisterId == id
                && forall j | k < j < |records| :: records[j].sisterId != id
  {
    if records != [] {
      var last, before := |records| - 1, records[..|records| - 1];
      ByIdIsLast(before, id);
      if records[last].sisterId == id {
        assert records[last] == ById(records)[id];
      } else if id in ById(before) {
        var k :| 0 <= k < last && before[k] == ById(before)[id] && before[k].sisterId == id
                 && forall j | k < j < last :: before[j].sisterId != id;
        assert records[k] == ById(records)[id];
      }
    }
  }

  /** Refuse a directory that belongs to a different Network. */
  function Guard(dir: Directory, network: NetworkId): Option<JoinError> {
    if dir.networkId.Garbled? then Some(Store)
    else if dir.networkId.Holds? && dir.networkId.value != network then Some(Conflict)
    else if dir.descriptor.Garbled? then Some(Store)
    else if dir.descriptor.Holds? && dir.descriptor.value.networkId != network then Some(Conflict)
    else None
  }

  function StagedNames(install: NetworkInstall): seq<Name> {
    [NetworkIdName, DescriptorName, MembershipName, RecordsName]
    + if install.gateways.Some? then [GatewaysName] else []
  }

  /** One rename from the staging directory into the data directory. */
  function Renamed(dir: Directory, install: NetworkInstall, name: Name): Directory {
    match name
    case NetworkIdName => dir.(networkId := Holds(install.bundle.authority.networkId))
    case DescriptorName => dir.(descriptor := Holds(install.bundle.authority))
    case MembershipName => dir.(membership := Holds(install.bundle.membership))
    case RecordsName => dir.(records := Holds(ById(install.bundle.bootstrapRecords)))
    case GatewaysName => if install.gateways.Some? then dir.(gateways := Holds(install.gateways.value)) else dir
  }

  function RenamedAll(dir: Directory, install: NetworkInstall, names: seq<Name>): Directory {
    if names == [] then dir
    else Renamed(RenamedAll(dir, install, names[..|names| - 1]), install, names[|names| - 1])
  }

  /** What happens to one call: staging may fail, and the rename sequence may be
      cut short after any number of renames. */
  datatype Attempt = Attempt(install: NetworkInstall, stagingFails: bool, renames: nat)

  function Landed(a: Attempt): (n: nat)
    ensures n <= |StagedNames(a.install)|
  {
    if a.renames < |StagedNames(a.install)| then a.renames else |StagedNames(a.install)|
  }

  predicate Stages(a: Attempt) {
    !a.stagingFails && a.install.bundle.membership.Verify(a.install.bundle.authority)
  }

  predicate Commits(dir: Directory, a: Attempt) {
    Guard(dir, a.install.bundle.authority.networkId).None? && Stages(a)
  }

  function DirectoryAfter(dir: Directory, a: Attempt): Directory {
    if Commits(dir, a) then RenamedAll(dir, a.install, StagedNames(a.install)[..Landed(a)]) else dir
  }

  function Outcome(dir: Directory, a: Attempt): Result<(), JoinError> {
    var refusal := Guard(dir, a.install.bundle.authority.networkId);
    if refusal.Some? then Err(refusal.value)
    else if a.stagingFails then Err(Io)
    else if !a.install.bundle.membership.Verify(a.install.bundle.authority) then Err(Verification)
    else if a.renames < |StagedNames(a.install)| then Err(Io)
    else Ok(())
  }

  class DataDirectory {
    var dir: Directory

    constructor ()
      ensures dir == Empty
    {
      dir := Empty;
    }

    method Install(a: Attempt) returns (r: Result<(), JoinError>)
      modifies this
      ensures dir == DirectoryAfter(old(dir), a) && r == Outcome(old(dir), a)
      ensures r.Err? && r.error != Io ==> dir == old(dir)
    {
      var network := a.install.bundle.authority.networkId;
      if dir.networkId.Garbled? {
        return Err(Store);
      }
      if dir.networkId.Holds? && dir.networkId.value != network {
        return Err(Conflict);
      }
      if dir.descriptor.Garbled? {
        return Err(Store);
      }
      if dir.descriptor.Holds? && dir.descriptor.value.networkId != network {
        return Err(Conflict);
      }
      if a.stagingFails {
        return Err(Io);
      }
      if !a.install.bundle.membership.Verify(a.install.bundle.authority) {
        return Err(Verification);
      }
      var names := StagedNames(a.install);
      var i := 0;
      while i < |names| && i < a.renames
        invariant i <= Landed(a)
        invariant dir == RenamedAll(old(dir), a.install, names[..i])
        decreases |names| - i
      {
        assert names[..i + 1][..i] == names[..i];
        dir := Renamed(dir, a.install, names[i]);
        i := i + 1;
      }
      return if i < |names| then Err(Io) else Ok(());
    }
  }

  /** The five states a commit passes through, written out. */
  lemma Cuts(dir: Directory, install: NetworkInstall, k: nat)
    requires k <= |StagedNames(install)|
    ensures var b := install.bundle;
            RenamedAll(dir, install, StagedNames(install)[..k]) ==
            Directory(if k >= 1 then Holds(b.authority.networkId) else dir.networkId,
                      if k >= 2 then Holds(b.authority) else dir.descriptor,
                      if k >= 3 then Holds(b.membership) else dir.membership,
                      if k >= 4 then Holds(ById(b.bootstrapRecords)) else dir.records,
                      if k >= 5 then Holds(install.gateways.value) else dir.gateways)
  {
    var names := StagedNames(install);
    if k > 0 {
      Cuts(dir, install, k - 1);
      assert names[..k][..k - 1] == names[..k - 1];
      assert names[..k][k - 1] == names[k - 1];
    }
  }

  // ----- Runs of installs -----

  function After(history: seq<Attempt>): Directory {
    if history == [] then Empty
    else DirectoryAfter(After(history[..|history| - 1]), history[|history| - 1])
  }

  /** A membership on disk has beside it the NetworkId and descriptor that vouch for it. */
  predicate Consistent(dir: Directory) {
    dir.membership.Holds? ==>
      && dir.descriptor.Holds? && dir.networkId == Holds(dir.descriptor.value.networkId)
      && SealedMembership(dir.membership.value, dir.descriptor.value)
  }

  /** Nothing is installed, or one NetworkId is, and no file names another Network. */
  predicate OneNetwork(dir: Directory) {
    dir == Empty ||
    (&& dir.networkId.Holds?
     && !dir.descriptor.Garbled?
     && (dir.descriptor.Holds? ==> dir.descriptor.value.networkId == dir.networkId.value)
     && (dir.membership.Holds? ==> dir.descriptor.Holds?) && !dir.membership.Garbled?)
  }

  lemma {:induction false} AlwaysOneNetwork(history: seq<Attempt>)
    ensures OneNetwork(After(history))
  {
    if history != [] {
      var before, a := history[..|history| - 1], history[|history| - 1];
      AlwaysOneNetwork(before);
      Cuts(After(before), a.install, Landed(a));
    }
  }

  /** Exactly which attempts break a consistent directory: one cut right after
      the descriptor, installing a different Authority for the same NetworkId over
      an existing membership. */
  lemma ConsistentExactlyUnless(dir: Directory, a: Attempt)
    requires OneNetwork(dir) && Consistent(dir)
    ensures Consistent(DirectoryAfter(dir, a)) <==>
            !(&& Commits(dir, a) && Landed(a) == 2
              && dir.membership.Holds? && a.install.bundle.authority != dir.descriptor.value)
  {
    Cuts(dir, a.install, Landed(a));
  }

  /** Whatever was cut where: for one Authority descriptor, from an empty
      directory, a membership on disk is always vouched for. */
  lemma {:induction false} InstallsAreCrashSafe(history: seq<Attempt>, authority: NetworkAuthority)
    requires forall a | a in history :: a.install.bundle.authority == authority
    ensures Consistent(After(history))
    ensures After(history).descriptor.Holds? ==> After(history).descriptor.value == authority
  {
    if history != [] {
      var before, a := history[..|history| - 1], history[|history| - 1];
      assert a in history;
      InstallsAreCrashSafe(before, authority);
      AlwaysOneNetwork(before);
      ConsistentExactlyUnless(After(before), a);
      Cuts(After(before), a.install, Landed(a));
    }
  }

  /** Once any rename has landed, whatever the history, another Network is
      refused and every file stays as it is. */
  lemma OtherNetworksAreRefused(history: seq<Attempt>, a: Attempt)
    requires After(history) != Empty
    requires After(history).networkId != Holds(a.install.bundle.authority.networkId)
    ensures Outcome(After(history), a) == Err(Conflict)
    ensures After(history + [a]) == After(history)
  {
    AlwaysOneNetwork(history);
    assert (history + [a])[..|history|] == history;
  }

  /** After any history a whole install of the same Network, or of any Network
      into an untouched directory, ends at its own bundle. Gateways not supplied
      are left as they were. */
  lemma WholeInstallEndsAtItsBundle(history: seq<Attempt>, a: Attempt)
    requires Stages(a) && a.renames >= |StagedNames(a.install)|
    requires After(history) == Empty || After(history).networkId == Holds(a.install.bundle.authority.networkId)
    ensures Outcome(After(history), a) == Ok(())
    ensures var b := a.install.bundle;
            After(history + [a]) ==
            Directory(Holds(b.authority.networkId), Holds(b.authority), Holds(b.membership),
                      Holds(ById(b.bootstrapRecords)),
                      if a.install.gateways.Some? then Holds(a.install.gateways.value) else After(history).gateways)
    ensures Consistent(After(history + [a]))
  {
    AlwaysOneNetwork(history);
    Cuts(After(history), a.install, Landed(a));
    assert (history + [a])[..|history|] == history;
  }

  /** The install of a membership freshly issued by an Authority. */
  function Joining(authority: NetworkAuthority, sister: SisterId, sisterKey: Key): NetworkInstall {
    NetworkInstall(Bundle(authority, IssueMembership(authority, authority.publicKey, sisterKey, sister, 0, None, 1), []),
                   None)
  }

  /** The excluded case does happen: a second Authority for one NetworkId, cut
      between its descriptor and its membership, leaves a membership nothing vouches for. */
  lemma AuthorityChangeCutShort(first: NetworkAuthority, second: NetworkAuthority, sister: SisterId, sisterKey: Key)
    requires first.networkId == second.networkId && first != second
    ensures !Consistent(After([Attempt(Joining(first, sister, sisterKey), false, 4),
                               Attempt(Joining(second, sister, sisterKey), false, 2)]))
  {
    var one := Attempt(Joining(first, sister, sisterKey), false, 4);
    var two := Attempt(Joining(second, sister, sisterKey), false, 2);
    assert [one, two][..1] == [one] && [one][..0] == [];
    Cuts(Empty, one.install, 4);
    assert After([one]) == DirectoryAfter(Empty, one);
    ConsistentExactlyUnless(After([one]), two);
  }
}
