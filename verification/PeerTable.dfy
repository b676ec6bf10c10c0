/** In-memory knowledge of neighbours: a row and a last-seen time per Sister. */
module PeerTable {
  import opened Wrappers
  import opened Identity

  datatype Metrics = Metrics(cpuUsage: real, memoryTotal: nat, memoryUsed: nat, runningJobs: nat,
                             queuedJobs: nat, uptimeSecs: nat, capabilities: seq<string>)

  datatype PeerState = PeerState(networkId: NetworkId, id: SisterId, nickname: string, hostname: string,
                                 platform: string, version: string, streamEndpoints: seq<string>,
                                 streamCertificate: Option<seq<bv8>>, addr: string, metrics: Metrics)

  /** A known row after another state for it: observations are replaced, the
      address and host stay, and blanks do not erase what is known. */
  function Merged(prev: PeerState, state: PeerState): PeerState {
    prev.(metrics := state.metrics,
          nickname := if state.nickname != "" then state.nickname else prev.nickname,
          streamEndpoints := if state.streamEndpoints != [] then state.streamEndpoints else prev.streamEndpoints,
          streamCertificate := if state.streamCertificate.Some? then state.streamCertificate else prev.streamCertificate)
  }

  datatype Table = Table(peers: map<SisterId, PeerState>, lastSeen: map<SisterId, Time>)

  function Upserted(t: Table, state: PeerState, now: Time): Table {
    Table(t.peers[state.id := if state.id in t.peers then Merged(t.peers[state.id], state) else state],
          t.lastSeen[state.id := now])
  }

  /** Time since an instant, zero when the instant lies ahead. */
  function Since(now: Time, seen: Time): nat {
    if now >= seen then now - seen else 0
  }

  predicate Alive(t: Table, id: SisterId, timeout: nat, now: Time) {
    id in t.lastSeen && Since(now, t.lastSeen[id]) <= timeout
  }

  function Silent(t: Table, timeout: nat, now: Time): set<SisterId> {
    set id | id in t.peers && !Alive(t, id, timeout, now)
  }

  function Pruned(t: Table, timeout: nat, now: Time): Table {
    var gone := Silent(t, timeout, now);
    Table(t.peers - gone, t.lastSeen - gone)
  }

  /** The sequence names each member of the set once and nothing else. */
  ghost predicate Lists(ids: seq<SisterId>, members: set<SisterId>) {
    && (forall id :: id in ids <==> id in members)
    && (forall i, j | 0 <= i < j < |ids| :: ids[i] != ids[j])
  }

  lemma EmptyLists()
    ensures Lists([], {})
  {
  }

  lemma ListsOneMore(ids: seq<SisterId>, members: set<SisterId>, id: SisterId)
    requires Lists(ids, members) && id !in members
    ensures Lists(ids + [id], members + {id})
  {
  }

  class PeerStateTable {
    var peers: map<SisterId, PeerState>
    var lastSeen: map<SisterId, Time>

    constructor ()
      ensures View() == Table(map[], map[])
    {
      peers, lastSeen := map[], map[];
    }

    function View(): Table
      reads this
    {
      Table(peers, lastSeen)
    }

    method Upsert(state: PeerState, now: Time)
      modifies this
      ensures View() == Upserted(old(View()), state, now)
    {
      lastSeen := lastSeen[state.id := now];
      if state.id in peers {
        var prev := peers[state.id];
        prev := prev.(metrics := state.metrics);
        if state.nickname != "" {
          prev := prev.(nickname := state.nickname);
        }
        if state.streamEndpoints != [] {
          prev := prev.(streamEndpoints := state.streamEndpoints);
        }
        if state.streamCertificate.Some? {
          prev := prev.(streamCertificate := state.streamCertificate);
        }
        peers := peers[state.id := prev];
      } else {
        peers := peers[state.id := state];
      }
    }

    /** Removes and returns exactly the Sisters silent for longer than the timeout, each once. */
    method PruneOffline(timeout: nat, now: Time) returns (removed: seq<SisterId>)
      modifies this
      ensures View() == Pruned(old(View()), timeout, now)
      ensures Lists(removed, Silent(old(View()), timeout, now))
    {
      removed := RetainAlive(timeout, now);
      ForgetSeen(removed, Silent(old(View()), timeout, now));
    }

    method RetainAlive(timeout: nat, now: Time) returns (removed: seq<SisterId>)
      modifies this`peers
      ensures peers == old(peers) - Silent(old(View()), timeout, now)
      ensures Lists(removed, Silent(old(View()), timeout, now))
    {
      hide Lists;
      ghost var silent := Silent(View(), timeout, now);
      EmptyLists();
      removed := [];
      var rest := peers.Keys;
      assert silent - rest == {};
      while rest != {}
        invariant rest <= old(peers).Keys && peers == old(peers) - (silent - rest)
        invariant Lists(removed, silent - rest)
        decreases |rest|
      {
        var id :| id in rest;
        ghost var seen := silent - rest;
        rest := rest - {id};
        if !(id in lastSeen && Since(now, lastSeen[id]) <= timeout) {
          assert silent - rest == seen + {id};
          ListsOneMore(removed, seen, id);
          removed := removed + [id];
          peers := peers - {id};
        } else {
          assert silent - rest == seen;
        }
      }
      assert silent - rest == silent;
    }

    method ForgetSeen(removed: seq<SisterId>, ghost gone: set<SisterId>)
      requires Lists(removed, gone)
      modifies this`lastSeen
      ensures lastSeen == old(lastSeen) - gone
    {
      ghost var left := gone;
      for i := 0 to |removed|
        invariant left <= gone && lastSeen == old(lastSeen) - (gone - left)
        invariant forall id :: id in left <==> id in removed[i..]
      {
        lastSeen, left := lastSeen - {removed[i]}, left - {removed[i]};
      }
    }
  }

  // ----- The table against its history -----

  datatype Event = Seen(state: PeerState, at: Time) | Prune(timeout: nat, at: Time)

  function After(history: seq<Event>): Table {
    if history == [] then Table(map[], map[])
    else match history[|history| - 1]
      case Seen(state, at) => Upserted(After(history[..|history| - 1]), state, at)
      case Prune(timeout, at) => Pruned(After(history[..|history| - 1]), timeout, at)
  }

  /** The states heard from a Sister since it was last inserted, read off the
      history alone: a prune starts over for one silent longer than its timeout. */
  function Epoch(history: seq<Event>, id: SisterId): seq<Event> {
    if history == [] then []
    else
      var earlier := Epoch(history[..|history| - 1], id);
      match history[|history| - 1]
      case Seen(state, at) => if state.id == id then earlier + [history[|history| - 1]] else earlier
      case Prune(timeout, at) =>
        if earlier != [] && at > earlier[|earlier| - 1].at + timeout then [] else earlier
  }

  /** `v` is the last value that is not blank, or blank when all are. */
  ghost predicate LatestGiven<T(!new)>(values: seq<T>, blank: T, v: T) {
    || (v == blank && forall j | 0 <= j < |values| :: values[j] == blank)
    || (v != blank && exists k | 0 <= k < |values| :: values[k] == v && forall j | k < j < |values| :: values[j] == blank)
  }

  function Nicknames(es: seq<Event>): (r: seq<string>)
    requires forall e | e in es :: e.Seen?
    ensures |r| == |es| && forall i | 0 <= i < |r| :: r[i] == es[i].state.nickname
  {
    seq(|es|, i requires 0 <= i < |es| => es[i].state.nickname)
  }

  function Endpoints(es: seq<Event>): (r: seq<seq<string>>)
    requires forall e | e in es :: e.Seen?
    ensures |r| == |es| && forall i | 0 <= i < |r| :: r[i] == es[i].state.streamEndpoints
  {
    seq(|es|, i requires 0 <= i < |es| => es[i].state.streamEndpoints)
  }

  function Certificates(es: seq<Event>): (r: seq<Option<seq<bv8>>>)
    requires forall e | e in es :: e.Seen?
    ensures |r| == |es| && forall i | 0 <= i < |r| :: r[i] == es[i].state.streamCertificate
  {
    seq(|es|, i requires 0 <= i < |es| => es[i].state.streamCertificate)
  }

  /** The row those states make: identity and address of the first, metrics of
      the last, and the latest nickname, endpoints and certificate given. */
  ghost predicate RowOf(row: PeerState, es: seq<Event>)
    requires es != [] && forall e | e in es :: e.Seen?
  {
    var first, last := es[0].state, es[|es| - 1].state;
    && row.id == first.id && row.networkId == first.networkId && row.addr == first.addr
    && row.hostname == first.hostname && row.platform == first.platform && row.version == first.version
    && row.metrics == last.metrics
    && LatestGiven(Nicknames(es), "", row.nickname)
    && LatestGiven(Endpoints(es), [], row.streamEndpoints)
    && LatestGiven(Certificates(es), None, row.streamCertificate)
  }

  lemma LatestGivenExtends<T(!new)>(values: seq<T>, blank: T, v: T, next: T)
    requires LatestGiven(values, blank, v)
    ensures LatestGiven(values + [next], blank, if next != blank then next else v)
  {
    var longer := values + [next];
    if next != blank {
      assert longer[|values|] == next;
    } else if v != blank {
      var k :| 0 <= k < |values| && values[k] == v && forall j | k < j < |values| :: values[j] == blank;
      assert longer[k] == v;
    }
  }

  /** What the table knows of one Sister is what its history since insertion makes. */
  ghost predicate Refines(history: seq<Event>, id: SisterId) {
    var t, es := After(history), Epoch(history, id);
    && (forall e | e in es :: e.Seen?)
    && (id in t.peers <==> es != []) && (id in t.lastSeen <==> es != [])
    && (es != [] ==> t.lastSeen[id] == es[|es| - 1].at && RowOf(t.peers[id], es))
  }

  lemma MergedRow(row: PeerState, es: seq<Event>, e: Event)
    requires e.Seen? && es != [] && (forall x | x in es :: x.Seen?) && RowOf(row, es)
    ensures forall x | x in es + [e] :: x.Seen?
    ensures RowOf(Merged(row, e.state), es + [e])
  {
    var more := es + [e];
    LatestGivenExtends(Nicknames(es), "", row.nickname, e.state.nickname);
    LatestGivenExtends(Endpoints(es), [], row.streamEndpoints, e.state.streamEndpoints);
    LatestGivenExtends(Certificates(es), None, row.streamCertificate, e.state.streamCertificate);
    assert Nicknames(more) == Nicknames(es) + [e.state.nickname];
    assert Endpoints(more) == Endpoints(es) + [e.state.streamEndpoints];
    assert Certificates(more) == Certificates(es) + [e.state.streamCertificate];
  }

  lemma FirstRow(e: Event)
    requires e.Seen?
    ensures RowOf(e.state, [e])
  {
    assert LatestGiven(Nicknames([e]), "", e.state.nickname) by {
      assert Nicknames([e])[0] == e.state.nickname;
    }
    assert LatestGiven(Endpoints([e]), [], e.state.streamEndpoints) by {
      assert Endpoints([e])[0] == e.state.streamEndpoints;
    }
    assert LatestGiven(Certificates([e]), None, e.state.streamCertificate) by {
      assert Certificates([e])[0] == e.state.streamCertificate;
    }
  }

  lemma SeenRefines(t: Table, es: seq<Event>, e: Event)
    requires e.Seen? && forall x | x in es :: x.Seen?
    requires e.state.id in t.peers <==> es != []
    requires es != [] ==> RowOf(t.peers[e.state.id], es)
    ensures forall x | x in es + [e] :: x.Seen?
    ensures RowOf(Upserted(t, e.state, e.at).peers[e.state.id], es + [e])
  {
    if es == [] {
      assert es + [e] == [e];
      FirstRow(e);
    } else {
      MergedRow(t.peers[e.state.id], es, e);
    }
  }

  /** After any run of upserts and prunes the two maps know the same Sisters,
      and each row and last-seen time is the one its history since insertion makes. */
  lemma {:induction false} TableRefinesHistory(history: seq<Event>, id: SisterId)
    ensures Refines(history, id)
  {
    hide RowOf, Merged;
    if history != [] {
      var before, e := history[..|history| - 1], history[|history| - 1];
      TableRefinesHistory(before, id);
      if e.Seen? && e.state.id == id {
        SeenRefines(After(before), Epoch(before, id), e);
      }
    }
  }

  /** A prune forgets exactly the Sisters whose last word is older than the
      timeout, and leaves the rows of all others as they were. */
  lemma {:induction false} PruneForgetsTheSilent(history: seq<Event>, timeout: nat, now: Time, id: SisterId)
    ensures var es := Epoch(history, id);
            id in Silent(After(history), timeout, now) <==> es != [] && now > es[|es| - 1].at + timeout
    ensures var t, u := After(history), After(history + [Prune(timeout, now)]);
            && (id in u.peers <==> id in t.peers && id !in Silent(t, timeout, now))
            && (id in u.peers ==> u.peers[id] == t.peers[id] && now <= t.lastSeen[id] + timeout)
  {
    hide RowOf, Merged;
    TableRefinesHistory(history, id);
    assert (history + [Prune(timeout, now)])[..|history|] == history;
  }
}
