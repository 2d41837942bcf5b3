/** What an observer's slot table becomes when masters advertise their slots by gossip. */
module SlotClaims {
  import opened Wrappers
  import opened Bitmaps
  import opened SlotTable
  import opened Sequences

  /** A master's claim: its slots, under its configEpoch. */
  datatype Claim = Claim(epoch: nat, slots: Bitmap)

  type Claims = c: map<NodeId, Claim> | forall n | n in c :: |c[n].slots| == CLUSTER_SLOTS witness map[]

  datatype Table = Table(owners: Owners, epochs: map<NodeId, nat>)

  predicate Shaped(claims: Claims, t: Table) {
    && |t.owners| == CLUSTER_SLOTS && t.epochs.Keys == claims.Keys
    && forall j | 0 <= j < |t.owners| && t.owners[j].Some? :: t.owners[j].value in t.epochs
  }

  /** Which slots are being imported from another node. */
  type Importing = i: seq<Option<NodeId>> | |i| == CLUSTER_SLOTS witness seq(CLUSTER_SLOTS, _ => None)

  /** The effect of one claim, as ClusterState.ProcessClaim performs it. */
  function Hear(claims: Claims, importing: Importing, t: Table, n: NodeId): (r: Table)
    requires Shaped(claims, t) && n in claims
    ensures Shaped(claims, r)
  {
    var epochs := Learnt(t.epochs, n, claims[n].epoch);
    Table(Rebound(t.owners, epochs, importing, n, claims[n].epoch, claims[n].slots), epochs)
  }

  function HearAll(claims: Claims, importing: Importing, t: Table, order: seq<NodeId>): (r: Table)
    requires Shaped(claims, t) && forall n | n in order :: n in claims
    ensures Shaped(claims, r)
  {
    if order == [] then t
    else Hear(claims, importing, HearAll(claims, importing, t, order[..|order| - 1]), order[|order| - 1])
  }

  /** Nobody serves anything but imported slots, and no epoch above the claimed one is known. */
  predicate Unassigned(claims: Claims, importing: Importing, t: Table) {
    && Shaped(claims, t) && (forall j | 0 <= j < |t.owners| && importing[j].None? :: t.owners[j].None?)
    && forall n | n in claims :: t.epochs[n] <= claims[n].epoch
  }

  /** o is the highest-epoch claimant of slot j among the masters heard. */
  predicate Highest(claims: Claims, heard: set<NodeId>, j: nat, o: Option<NodeId>)
    requires j < CLUSTER_SLOTS
  {
    match o
    case None => forall m | m in heard && m in claims :: !claims[m].slots[j]
    case Some(n) =>
      && n in heard && n in claims && claims[n].slots[j]
      && forall m | m in heard && m in claims && claims[m].slots[j] :: claims[m].epoch <= claims[n].epoch
  }

  /** An imported slot is where it was at first, any other where its highest claimant is. */
  predicate Placed(claims: Claims, importing: Importing, first: Owners, heard: set<NodeId>, j: nat, o: Option<NodeId>)
    requires j < CLUSTER_SLOTS == |first|
  {
    if importing[j].Some? then o == first[j] else Highest(claims, heard, j, o)
  }

  ghost predicate Inv(claims: Claims, importing: Importing, first: Owners, t: Table, heard: set<NodeId>) {
    && Shaped(claims, t) && |first| == CLUSTER_SLOTS
    && (forall n | n in claims :: t.epochs[n] <= claims[n].epoch)
    && (forall n | n in heard && n in claims :: t.epochs[n] == claims[n].epoch)
    && (forall j: nat | j < CLUSTER_SLOTS :: Placed(claims, importing, first, heard, j, t.owners[j]))
  }

  lemma HearInv(claims: Claims, importing: Importing, first: Owners, t: Table, heard: set<NodeId>, n: NodeId)
    requires Inv(claims, importing, first, t, heard) && n in claims
    ensures Inv(claims, importing, first, Hear(claims, importing, t, n), heard + {n})
  {
    var r := Hear(claims, importing, t, n);
    forall j: nat | j < CLUSTER_SLOTS ensures Placed(claims, importing, first, heard + {n}, j, r.owners[j]) {
      assert Placed(claims, importing, first, heard, j, t.owners[j]);
    }
  }

  lemma {:induction false} HearAllInv(claims: Claims, importing: Importing, t: Table, order: seq<NodeId>)
    requires Unassigned(claims, importing, t) && forall n | n in order :: n in claims
    ensures Inv(claims, importing, t.owners, HearAll(claims, importing, t, order), Elements(order))
  {
    if order != [] {
      var front, last := order[..|order| - 1], order[|order| - 1];
      HearAllInv(claims, importing, t, front);
      HearInv(claims, importing, t.owners, HearAll(claims, importing, t, front), Elements(front), last);
      assert Elements(order) == Elements(front) + {last};
    } else {
      assert HearAll(claims, importing, t, order) == t;
    }
  }

  /** However many claims arrive, a slot that is being imported keeps its owner. */
  lemma ImportedStay(claims: Claims, importing: Importing, t: Table, order: seq<NodeId>, j: nat)
    requires Unassigned(claims, importing, t) && (forall n | n in order :: n in claims)
    requires j < CLUSTER_SLOTS && importing[j].Some?
    ensures HearAll(claims, importing, t, order).owners[j] == t.owners[j]
  {
    HearAllInv(claims, importing, t, order);
    assert Placed(claims, importing, t.owners, Elements(order), j, HearAll(claims, importing, t, order).owners[j]);
  }

  /** In whatever order and however often the claims arrive, once each was heard every other slot is
      served by its highest-epoch claimant, and nobody's otherwise. */
  lemma ClaimsConverge(claims: Claims, importing: Importing, t: Table, order: seq<NodeId>)
    requires Unassigned(claims, importing, t) && forall n :: n in order <==> n in claims
    ensures forall j: nat | j < CLUSTER_SLOTS && importing[j].None? ::
              Highest(claims, claims.Keys, j, HearAll(claims, importing, t, order).owners[j])
  {
    hide Highest;
    HearAllInv(claims, importing, t, order);
    assert Elements(order) == claims.Keys;
    var r := HearAll(claims, importing, t, order).owners;
    forall j: nat | j < CLUSTER_SLOTS && importing[j].None? ensures Highest(claims, claims.Keys, j, r[j]) {
      assert Placed(claims, importing, t.owners, claims.Keys, j, r[j]);
    }
  }

  /** o is the first in the order of arrival of those who claim slot j under the highest epoch. */
  predicate FirstHighest(claims: Claims, order: seq<NodeId>, j: nat, o: Option<NodeId>)
    requires j < CLUSTER_SLOTS && forall n | n in order :: n in claims
  {
    match o
    case None => forall i | 0 <= i < |order| :: !claims[order[i]].slots[j]
    case Some(n) => exists k | 0 <= k < |order| :: order[k] == n && IsFirstHighest(claims, order, j, k)
  }

  predicate IsFirstHighest(claims: Claims, order: seq<NodeId>, j: nat, k: nat)
    requires j < CLUSTER_SLOTS && k < |order| && forall n | n in order :: n in claims
  {
    && claims[order[k]].slots[j]
    && (forall i | 0 <= i < k && claims[order[i]].slots[j] :: claims[order[i]].epoch < claims[order[k]].epoch)
    && (forall i | k < i < |order| && claims[order[i]].slots[j] :: claims[order[i]].epoch <= claims[order[k]].epoch)
  }

  /** Masters that claim a slot under the same epoch do not take it from each other: the first one keeps
      it. This holds after every claim, not only when all were heard. */
  lemma {:induction false} FirstHighestWins(claims: Claims, importing: Importing, t: Table, order: seq<NodeId>, j: nat)
    requires Unassigned(claims, importing, t) && (forall n | n in order :: n in claims)
    requires j < CLUSTER_SLOTS && importing[j].None?
    ensures FirstHighest(claims, order, j, HearAll(claims, importing, t, order).owners[j])
  {
    hide Placed;
    if order != [] {
      var front, last := order[..|order| - 1], order[|order| - 1];
      FirstHighestWins(claims, importing, t, front, j);
      HearAllInv(claims, importing, t, front);
      var u := HearAll(claims, importing, t, front);
      OneMoreClaim(claims, importing, u, front, last, j);
      assert order == front + [last];
    }
  }

  lemma OneMoreClaim(claims: Claims, importing: Importing, u: Table, front: seq<NodeId>, last: NodeId, j: nat)
    requires Shaped(claims, u) && last in claims
    requires forall n | n in front :: n in claims && u.epochs[n] == claims[n].epoch
    requires j < CLUSTER_SLOTS && importing[j].None? && FirstHighest(claims, front, j, u.owners[j])
    ensures FirstHighest(claims, front + [last], j, Hear(claims, importing, u, last).owners[j])
  {
    var order, o := front + [last], Hear(claims, importing, u, last).owners[j];
    if o == u.owners[j] && o.Some? {
      var k :| 0 <= k < |front| && front[k] == o.value && IsFirstHighest(claims, front, j, k);
      assert order[k] == o.value && IsFirstHighest(claims, order, j, k);
    } else if o.Some? {
      assert o == Some(last) && order[|front|] == last;
      assert IsFirstHighest(claims, order, j, |front|);
    }
  }

  predicate DistinctEpochs(claims: Claims) {
    forall m, n | m in claims && n in claims && m != n :: claims[m].epoch != claims[n].epoch
  }

  /** So two observers that heard the same claims in different orders agree on every slot that neither
      is importing. */
  lemma OrderIrrelevant(claims: Claims, i: Importing, t: Table, a: seq<NodeId>, k: Importing, u: Table, b: seq<NodeId>)
    requires Unassigned(claims, i, t) && Unassigned(claims, k, u) && DistinctEpochs(claims)
    requires (forall n :: n in a <==> n in claims) && (forall n :: n in b <==> n in claims)
    ensures var x, y := HearAll(claims, i, t, a).owners, HearAll(claims, k, u, b).owners;
            forall j: nat | j < CLUSTER_SLOTS && i[j].None? && k[j].None? :: x[j] == y[j]
  {
    hide HearAll, Highest, DistinctEpochs;
    ClaimsConverge(claims, i, t, a);
    ClaimsConverge(claims, k, u, b);
    var x, y := HearAll(claims, i, t, a).owners, HearAll(claims, k, u, b).owners;
    forall j: nat | j < CLUSTER_SLOTS && i[j].None? && k[j].None? ensures x[j] == y[j] {
      OneHighest(claims, j, x[j], y[j]);
    }
  }

  lemma OneHighest(claims: Claims, j: nat, x: Option<NodeId>, y: Option<NodeId>)
    requires DistinctEpochs(claims) && j < CLUSTER_SLOTS
    requires Highest(claims, claims.Keys, j, x) && Highest(claims, claims.Keys, j, y)
    ensures x == y
  {
  }

  // -------------------------------------------- slot ranges in the nodes file

  /** The ranges are sorted, apart from each other, and cover exactly the set bits. */
  predicate DescribesBits(ranges: seq<(int, int)>, b: Bitmap, upto: int) {
    && (forall i | 0 <= i < |ranges| :: 0 <= ranges[i].0 <= ranges[i].1 < upto)
    && (forall i, k | 0 <= i < k < |ranges| :: ranges[i].1 + 1 < ranges[k].0)
    && (forall p | 0 <= p < upto && p < |b| :: b[p] <==> Covered(ranges, p))
  }

  /** The slots part of a node's description: one item per maximal run of set bits. */
  method GenNodeSlots(b: Bitmap) returns (ranges: seq<(int, int)>)
    requires |b| == CLUSTER_SLOTS
    ensures DescribesBits(ranges, b, CLUSTER_SLOTS)
  {
    hide DescribesBits;
    ranges := [];
    var start := -1;
    var j := 0;
    NoRanges(b);
    while j < CLUSTER_SLOTS
      invariant 0 <= j <= CLUSTER_SLOTS + 1 && -1 <= start < j
      invariant start == -1 ==> DescribesBits(ranges, b, if j > CLUSTER_SLOTS then CLUSTER_SLOTS else j)
      invariant start == -1 && 0 < j < CLUSTER_SLOTS ==> !b[j - 1]
      invariant start != -1 ==> j < CLUSTER_SLOTS && DescribesBits(ranges, b, start) && (start > 0 ==> !b[start - 1])
      invariant start != -1 ==> forall p | start <= p < j :: b[p]
      decreases CLUSTER_SLOTS + 1 - j
    {
      var bit := b[j];
      if !bit && start == -1 { ClearBit(ranges, b, j); }
      if bit && start == -1 { start := j; }
      if start != -1 && (!bit || j == CLUSTER_SLOTS - 1) {
        if bit && j == CLUSTER_SLOTS - 1 { j := j + 1; }
        AppendRange(ranges, b, start, j - 1, if j == CLUSTER_SLOTS then CLUSTER_SLOTS else j + 1);
        ranges := ranges + [(start, j - 1)];
        start := -1;
      }
      j := j + 1;
    }
  }

  lemma NoRanges(b: Bitmap)
    ensures DescribesBits([], b, 0)
  {
  }

  lemma ClearBit(ranges: seq<(int, int)>, b: Bitmap, j: nat)
    requires DescribesBits(ranges, b, j) && j < |b| && !b[j]
    ensures DescribesBits(ranges, b, j + 1)
  {
    forall r | r in ranges ensures !(r.0 <= j <= r.1) {
      var k :| 0 <= k < |ranges| && ranges[k] == r;
    }
  }

  lemma AppendRange(ranges: seq<(int, int)>, b: Bitmap, start: int, stop: int, upto: int)
    requires |b| == CLUSTER_SLOTS && 0 <= start <= stop < upto <= CLUSTER_SLOTS
    requires DescribesBits(ranges, b, start) && (start > 0 ==> !b[start - 1])
    requires (forall p | start <= p <= stop :: b[p]) && (forall p | stop < p < upto :: !b[p])
    ensures DescribesBits(ranges + [(start, stop)], b, upto)
  {
    var more := ranges + [(start, stop)];
    forall i | 0 <= i < |ranges| ensures ranges[i].1 + 1 < start {
      assert ranges[i] in ranges && Covered(ranges, ranges[i].1);
    }
    forall p | 0 <= p < upto ensures b[p] <==> Covered(more, p) {
      if p < start {
        assert b[p] <==> Covered(ranges, p);
        assert forall r | r in ranges :: r in more;
      } else {
        assert (start, stop) in more;
        assert forall r | r in ranges :: r.1 < start;
      }
    }
  }

  /** Each printed range is a maximal run. */
  lemma RangesMaximal(ranges: seq<(int, int)>, b: Bitmap, i: nat)
    requires |b| == CLUSTER_SLOTS && DescribesBits(ranges, b, CLUSTER_SLOTS) && i < |ranges|
    ensures forall p | ranges[i].0 <= p <= ranges[i].1 :: b[p]
    ensures ranges[i].0 > 0 ==> !b[ranges[i].0 - 1]
    ensures ranges[i].1 + 1 < CLUSTER_SLOTS ==> !b[ranges[i].1 + 1]
  {
    forall p | ranges[i].0 <= p <= ranges[i].1 ensures b[p] {
      assert ranges[i] in ranges;
      assert Covered(ranges, p);
    }
    forall r | r in ranges ensures !(r.0 <= ranges[i].0 - 1 <= r.1) && !(r.0 <= ranges[i].1 + 1 <= r.1) {
      var k :| 0 <= k < |ranges| && ranges[k] == r;
    }
    assert !Covered(ranges, ranges[i].0 - 1) && !Covered(ranges, ranges[i].1 + 1);
  }

  /** Saving a node's slots and loading them into a table where they are free gives back its bitmap. */
  method SaveAndLoad(c: ClusterState, n: NodeId, b: Bitmap) returns (ok: bool)
    requires c.Valid() && n in c.nodes && |b| == CLUSTER_SLOTS
    requires forall j | 0 <= j < CLUSTER_SLOTS :: c.slots[j] != Some(n) && (b[j] ==> c.slots[j].None?)
    modifies c`nodes, c.slots
    ensures ok && c.Valid() && n in c.nodes && c.nodes[n].slots == b
  {
    var ranges := GenNodeSlots(b);
    ok := c.LoadRanges(n, ranges);
    assert forall j: nat | j < CLUSTER_SLOTS :: c.slots[j] == Some(n) <==> b[j];
    forall j: nat | j < CLUSTER_SLOTS ensures c.nodes[n].slots[j] == b[j] {
      AgreementMeans(c.nodes, c.slots[..], n, n, j);
    }
  }
}
