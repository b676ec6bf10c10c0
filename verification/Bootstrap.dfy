/** The bootstrap records a joiner receives: the Authority Sister's locator and
    any extra records, sorted by Sister id and cut to the first for each id. */
module Bootstrap {
  import opened Identity

  function Ids(records: seq<PeerRecord>): (r: seq<SisterId>)
    ensures |r| == |records| && forall k | 0 <= k < |r| :: r[k] == records[k].sisterId
  {
    seq(|records|, k requires 0 <= k < |records| => records[k].sisterId)
  }

  /** The first record offered for each id. */
  function FirstById(offered: seq<PeerRecord>): map<SisterId, PeerRecord> {
    if offered == [] then map[] else Added(FirstById(offered[..|offered| - 1]), offered[|offered| - 1])
  }

  function Added(m: map<SisterId, PeerRecord>, x: PeerRecord): map<SisterId, PeerRecord> {
    if x.sisterId in m then m else m[x.sisterId := x]
  }

  predicate Ascending(ids: seq<SisterId>) {
    forall i, j | 0 <= i < j < |ids| :: ids[i] < ids[j]
  }

  /** Strictly ascending ids, exactly those in the map, each with its record there. */
  ghost predicate Lists(records: seq<PeerRecord>, m: map<SisterId, PeerRecord>) {
    && Ascending(Ids(records))
    && (forall id :: id in Ids(records) <==> id in m)
    && (forall k | 0 <= k < |records| :: records[k].sisterId in m && records[k] == m[records[k].sisterId])
  }

  lemma WithoutLast(a: seq<SisterId>, id: SisterId)
    requires Ascending(a) && a != []
    ensures id in a ==> id <= a[|a| - 1]
    ensures id in a[..|a| - 1] <==> id in a && id != a[|a| - 1]
  {
    var k := |a| - 1;
    assert a == a[..k] + [a[k]];
    if id in a[..k] {
      var i :| 0 <= i < k && a[..k][i] == id;
      assert a[i] < a[k];
    }
  }

  lemma {:induction false} AscendingIsUnique(a: seq<SisterId>, b: seq<SisterId>)
    requires Ascending(a) && Ascending(b) && forall id :: id in a <==> id in b
    ensures a == b
  {
    assert a != [] ==> a[0] in b;
    assert b != [] ==> b[0] in a;
    if a != [] && b != [] {
      var x, y := a[|a| - 1], b[|b| - 1];
      WithoutLast(a, y);
      WithoutLast(b, x);
      assert x in a && y in b;
      hide Ascending;
      var front, other := a[..|a| - 1], b[..|b| - 1];
      forall id
        ensures id in front <==> id in other
      {
        WithoutLast(a, id);
        WithoutLast(b, id);
      }
      FrontAscends(a);
      FrontAscends(b);
      AscendingIsUnique(front, other);
      assert a == front + [x] && b == other + [x];
    }
  }

  lemma FrontAscends(a: seq<SisterId>)
    requires Ascending(a) && a != []
    ensures Ascending(a[..|a| - 1])
  {
  }

  /** A map has one such listing. */
  lemma ListingIsUnique(r: seq<PeerRecord>, s: seq<PeerRecord>, m: map<SisterId, PeerRecord>)
    requires Lists(r, m) && Lists(s, m)
    ensures r == s
  {
    AscendingIsUnique(Ids(r), Ids(s));
    assert |r| == |s|;
    assert forall k | 0 <= k < |r| :: r[k].sisterId == Ids(r)[k] == Ids(s)[k] == s[k].sisterId;
  }

  // ----- Stable sort -----

  predicate Sorted(records: seq<PeerRecord>) {
    forall i, j | 0 <= i < j < |records| :: records[i].sisterId <= records[j].sisterId
  }

  lemma {:induction false} KeysAreIds(records: seq<PeerRecord>, id: SisterId)
    ensures id in FirstById(records) <==> exists k | 0 <= k < |records| :: records[k].sisterId == id
    ensures id in FirstById(records) ==> FirstById(records)[id].sisterId == id && FirstById(records)[id] in records
  {
    if records != [] {
      KeysAreIds(records[..|records| - 1], id);
    }
  }

  /** A record put before others of different ids counts as if it came last. */
  lemma {:induction false} FirstByIdInsert(a: seq<PeerRecord>, x: PeerRecord, b: seq<PeerRecord>)
    requires forall k | 0 <= k < |b| :: b[k].sisterId != x.sisterId
    ensures FirstById(a + [x] + b) == FirstById(a + b + [x])
  {
    if b == [] {
      assert a + [x] + b == a + b + [x];
    } else {
      hide FirstById;
      var front, y := b[..|b| - 1], b[|b| - 1];
      FirstByIdInsert(a, x, front);
      assert a + [x] + b == a + [x] + front + [y] && a + b == a + front + [y];
      Snoc(a + [x] + front, y);
      Snoc(a + front, x);
      Snoc(a + front, y);
      Snoc(a + front + [y], x);
      assert forall m :: Added(Added(m, x), y) == Added(Added(m, y), x);
    }
  }

  lemma Snoc(a: seq<PeerRecord>, x: PeerRecord)
    ensures FirstById(a + [x]) == Added(FirstById(a), x)
  {
    assert (a + [x])[..|a|] == a;
  }

  lemma InsertedSorted(sorted: seq<PeerRecord>, at: nat, x: PeerRecord)
    requires Sorted(sorted) && at <= |sorted|
    requires at > 0 ==> sorted[at - 1].sisterId <= x.sisterId
    requires forall k | at <= k < |sorted| :: sorted[k].sisterId > x.sisterId
    ensures Sorted(sorted[..at] + [x] + sorted[at..])
  {
    var r := sorted[..at] + [x] + sorted[at..];
    forall i, j | 0 <= i < j < |r|
      ensures r[i].sisterId <= r[j].sisterId
    {
      assert i < at ==> r[i] == sorted[i] && sorted[i].sisterId <= sorted[at - 1].sisterId;
      assert i > at ==> r[i] == sorted[i - 1];
      assert j < at ==> r[j] == sorted[j];
      assert j > at ==> r[j] == sorted[j - 1];
    }
  }

  lemma SameFirsts(sorted: seq<PeerRecord>, at: nat, x: PeerRecord)
    requires at <= |sorted| && forall k | at <= k < |sorted| :: sorted[k].sisterId > x.sisterId
    ensures FirstById(sorted[..at] + [x] + sorted[at..]) == FirstById(sorted + [x])
  {
    hide FirstById;
    FirstByIdInsert(sorted[..at], x, sorted[at..]);
    assert sorted[..at] + sorted[at..] == sorted;
  }

  /** Puts a record after every id not greater, as a stable sort does. */
  method InsertStable(sorted: seq<PeerRecord>, x: PeerRecord) returns (r: seq<PeerRecord>)
    requires Sorted(sorted)
    ensures Sorted(r) && FirstById(r) == FirstById(sorted + [x])
  {
    var at: nat := |sorted|;
    while at > 0 && sorted[at - 1].sisterId > x.sisterId
      invariant at <= |sorted|
      invariant forall k | at <= k < |sorted| :: sorted[k].sisterId > x.sisterId
    {
      at := at - 1;
    }
    InsertedSorted(sorted, at, x);
    SameFirsts(sorted, at, x);
    hide FirstById, Sorted;
    r := sorted[..at] + [x] + sorted[at..];
  }

  lemma OneMore(r: seq<PeerRecord>, offered: seq<PeerRecord>, i: nat)
    requires i < |offered| && FirstById(r) == FirstById(offered[..i])
    ensures FirstById(r + [offered[i]]) == FirstById(offered[..i + 1])
  {
    assert (r + [offered[i]])[..|r|] == r && offered[..i + 1][..i] == offered[..i];
  }

  /** Sorted by id, the first offered for each id still first. */
  method SortStable(offered: seq<PeerRecord>) returns (r: seq<PeerRecord>)
    ensures Sorted(r) && FirstById(r) == FirstById(offered)
  {
    hide Sorted;
    r := [];
    EmptySorted();
    for i := 0 to |offered|
      invariant Sorted(r) && FirstById(r) == FirstById(offered[..i])
    {
      OneMore(r, offered, i);
      hide FirstById;
      r := InsertStable(r, offered[i]);
    }
    assert offered[..|offered|] == offered;
  }

  lemma EmptySorted()
    ensures Sorted([])
  {
  }

  /** Drops each record whose id equals the one kept before it. */
  method DedupById(sorted: seq<PeerRecord>) returns (r: seq<PeerRecord>)
    requires Sorted(sorted)
    ensures Lists(r, FirstById(sorted))
  {
    r := [];
    for i := 0 to |sorted|
      invariant Lists(r, FirstById(sorted[..i]))
      invariant |r| > 0 <==> i > 0
      invariant i > 0 ==> r[|r| - 1].sisterId == sorted[i - 1].sisterId
    {
      DedupStep(r, sorted, i);
      if r == [] || r[|r| - 1].sisterId != sorted[i].sisterId {
        r := r + [sorted[i]];
      }
    }
    assert sorted[..|sorted|] == sorted;
  }

  lemma DedupStep(r: seq<PeerRecord>, sorted: seq<PeerRecord>, i: nat)
    requires Sorted(sorted) && i < |sorted| && Lists(r, FirstById(sorted[..i]))
    requires |r| > 0 <==> i > 0
    requires i > 0 ==> r[|r| - 1].sisterId == sorted[i - 1].sisterId
    ensures Lists(if r == [] || r[|r| - 1].sisterId != sorted[i].sisterId then r + [sorted[i]] else r,
                  FirstById(sorted[..i + 1]))
  {
    assert sorted[..i + 1][..i] == sorted[..i];
    var x, m := sorted[i], FirstById(sorted[..i]);
    if r == [] || r[|r| - 1].sisterId != x.sisterId {
      assert forall k | 0 <= k < |r| :: Ids(r)[k] <= Ids(r)[|r| - 1];
      assert forall k | 0 <= k < |r| :: r[k].sisterId < x.sisterId;
      assert x.sisterId !in Ids(r);
      ListsOneMore(r, m, x);
    } else {
      assert Ids(r)[|r| - 1] in Ids(r);
    }
  }

  lemma ListsOneMore(r: seq<PeerRecord>, m: map<SisterId, PeerRecord>, x: PeerRecord)
    requires Lists(r, m) && forall k | 0 <= k < |r| :: r[k].sisterId < x.sisterId
    ensures Lists(r + [x], m[x.sisterId := x])
  {
    assert Ids(r + [x]) == Ids(r) + [x.sisterId];
  }

  // ----- The list itself -----

  lemma AscendingWith(ids: seq<SisterId>, id: SisterId, at: nat)
    requires Ascending(ids) && at <= |ids|
    requires forall k | 0 <= k < at :: ids[k] < id
    requires forall k | at <= k < |ids| :: id < ids[k]
    ensures Ascending(ids[..at] + [id] + ids[at..])
  {
    var s := ids[..at] + [id] + ids[at..];
    forall i, j | 0 <= i < j < |s|
      ensures s[i] < s[j]
    {
      assert i < at ==> s[i] == ids[i];
      assert i > at ==> s[i] == ids[i - 1];
      assert j < at ==> s[j] == ids[j];
      assert j > at ==> s[j] == ids[j - 1];
    }
  }

  lemma MembersWith(ids: seq<SisterId>, id: SisterId, at: nat, other: SisterId)
    requires at <= |ids|
    ensures other in ids[..at] + [id] + ids[at..] <==> other == id || other in ids
  {
    assert ids == ids[..at] + ids[at..];
  }

  lemma RecordsWith(r: seq<PeerRecord>, m: map<SisterId, PeerRecord>, x: PeerRecord, at: nat)
    requires at <= |r| && x.sisterId !in m
    requires forall k | 0 <= k < |r| :: r[k].sisterId in m && r[k] == m[r[k].sisterId]
    ensures var s := r[..at] + [x] + r[at..];
            forall k | 0 <= k < |s| :: s[k].sisterId in m[x.sisterId := x] && s[k] == m[x.sisterId := x][s[k].sisterId]
  {
    var s := r[..at] + [x] + r[at..];
    forall k | 0 <= k < |s|
      ensures s[k].sisterId in m[x.sisterId := x] && s[k] == m[x.sisterId := x][s[k].sisterId]
    {
      assert s[k] == if k < at then r[k] else if k == at then x else r[k - 1];
    }
  }

  lemma IdsWith(r: seq<PeerRecord>, x: PeerRecord, at: nat)
    requires at <= |r|
    ensures Ids(r[..at] + [x] + r[at..]) == Ids(r)[..at] + [x.sisterId] + Ids(r)[at..]
  {
  }

  lemma ListsWith(r: seq<PeerRecord>, m: map<SisterId, PeerRecord>, x: PeerRecord, at: nat)
    requires Lists(r, m) && x.sisterId !in m && at <= |r|
    requires forall k | 0 <= k < at :: Ids(r)[k] < x.sisterId
    requires forall k | at <= k < |r| :: x.sisterId < Ids(r)[k]
    ensures Lists(r[..at] + [x] + r[at..], m[x.sisterId := x])
  {
    var s, ids := r[..at] + [x] + r[at..], Ids(r);
    AscendingWith(ids, x.sisterId, at);
    IdsWith(r, x, at);
    RecordsWith(r, m, x, at);
    hide Ascending, Ids;
    forall id
      ensures id in Ids(s) <==> id in m[x.sisterId := x]
    {
      MembersWith(ids, x.sisterId, at, id);
    }
  }

  lemma Place(ids: seq<SisterId>, id: SisterId) returns (at: nat)
    requires Ascending(ids) && id !in ids
    ensures at <= |ids|
    ensures forall k | 0 <= k < at :: ids[k] < id
    ensures forall k | at <= k < |ids| :: id < ids[k]
  {
    at := 0;
    while at < |ids| && ids[at] < id
      invariant at <= |ids| && forall k | 0 <= k < at :: ids[k] < id
    {
      at := at + 1;
    }
  }

  lemma ListsMore(r: seq<PeerRecord>, m: map<SisterId, PeerRecord>, x: PeerRecord)
    requires Lists(r, m)
    ensures exists s :: Lists(s, Added(m, x))
  {
    if x.sisterId in m {
      assert Added(m, x) == m;
    } else {
      var at := Place(Ids(r), x.sisterId);
      ListsWith(r, m, x, at);
      hide Lists;
      assert Lists(r[..at] + [x] + r[at..], Added(m, x));
    }
  }

  lemma {:induction false} ListingExists(offered: seq<PeerRecord>)
    ensures exists r :: Lists(r, FirstById(offered))
  {
    if offered == [] {
      assert Lists([], FirstById(offered));
    } else {
      var front := offered[..|offered| - 1];
      ListingExists(front);
      var r :| Lists(r, FirstById(front));
      ListsMore(r, FirstById(front), offered[|offered| - 1]);
      assert FirstById(offered) == Added(FirstById(front), offered[|offered| - 1]);
    }
  }

  /** The records in ascending id order, the first offered for each id. */
  ghost function Bootstrapped(offered: seq<PeerRecord>): (r: seq<PeerRecord>)
    ensures Lists(r, FirstById(offered))
  {
    ListingExists(offered);
    var r :| Lists(r, FirstById(offered));
    r
  }

  /** What the joiner gets was all offered, and covers every Sister offered. */
  lemma BootstrappedAreOffered(offered: seq<PeerRecord>, k: nat)
    ensures k < |Bootstrapped(offered)| ==> Bootstrapped(offered)[k] in offered
    ensures k < |offered| ==> offered[k].sisterId in Ids(Bootstrapped(offered))
  {
    hide Ids, Ascending;
    if k < |Bootstrapped(offered)| {
      KeysAreIds(offered, Bootstrapped(offered)[k].sisterId);
    }
    if k < |offered| {
      KeysAreIds(offered, offered[k].sisterId);
    }
  }

  /** The locator stands for its own Sister, whatever extra records say. */
  lemma LocatorIsKept(locator: PeerRecord, extra: seq<PeerRecord>)
    ensures locator in Bootstrapped([locator] + extra)
  {
    hide Ascending;
    var offered, r := [locator] + extra, Bootstrapped([locator] + extra);
    FirstOffered(locator, extra);
    assert locator.sisterId in Ids(r);
    var k :| 0 <= k < |r| && Ids(r)[k] == locator.sisterId;
    assert r[k] == locator;
  }

  lemma {:induction false} FirstOffered(locator: PeerRecord, extra: seq<PeerRecord>)
    ensures locator.sisterId in FirstById([locator] + extra)
    ensures FirstById([locator] + extra)[locator.sisterId] == locator
  {
    if extra == [] {
      assert [locator] + extra == [locator] && [locator][..0] == [];
    } else {
      FirstOffered(locator, extra[..|extra| - 1]);
      assert ([locator] + extra)[..|extra|] == [locator] + extra[..|extra| - 1];
    }
  }

  /** Sort, then drop repeats: the listing of the first record for each id. */
  method BootstrapRecords(locator: PeerRecord, extra: seq<PeerRecord>) returns (r: seq<PeerRecord>)
    ensures r == Bootstrapped([locator] + extra)
  {
    var sorted := SortStable([locator] + extra);
    r := DedupById(sorted);
    ListingIsUnique(r, Bootstrapped([locator] + extra), FirstById([locator] + extra));
  }
}
