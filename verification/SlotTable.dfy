/** The slot bitmap of a node, one bit per hash slot. */
module Bitmaps {

  type Bitmap = seq<bool>

  function Ones(b: Bitmap): set<nat> {
    set p: nat | p < |b| && b[p]
  }

  lemma OnesUpdate(b: Bitmap, p: nat, v: bool)
    requires p < |b|
    ensures Ones(b[p := v]) == if v then Ones(b) + {p} else Ones(b) - {p}
  {
  }
}

/** The slot table of a cluster node: who serves each hash slot, kept twice, as an array of
    owners and as a bitmap with a count in every node. */
module SlotTable {
  import opened Bitmaps
  import opened Wrappers
  import opened Sequences

  const CLUSTER_SLOTS: nat := 16384

  type NodeId = nat

  /** The slots a node serves: its bitmap and how many bits are set in it. */
  datatype ClusterNode = ClusterNode(slots: Bitmap, numslots: int)

  type Owners = seq<Option<NodeId>>

  function ServedBy(owners: Owners, n: NodeId): set<nat> {
    set j: nat | j < |owners| && owners[j] == Some(n)
  }

  /** The two records agree: n's bitmap is exactly the slots the table gives to n. */
  predicate NodeAgrees(node: ClusterNode, owners: Owners, n: NodeId) {
    && |node.slots| == CLUSTER_SLOTS
    && Ones(node.slots) == ServedBy(owners, n)
    && node.numslots == |ServedBy(owners, n)|
  }

  ghost predicate Agrees(nodes: map<NodeId, ClusterNode>, owners: Owners) {
    && |owners| == CLUSTER_SLOTS
    && (forall j | 0 <= j < |owners| && owners[j].Some? :: owners[j].value in nodes)
    && (forall n | n in nodes :: |nodes[n].slots| == CLUSTER_SLOTS)
    && (forall n {:trigger NodeAgrees(nodes[n], owners, n)} | n in nodes :: NodeAgrees(nodes[n], owners, n))
  }

  /** Consequences of the agreement that the code relies on. */
  lemma AgreementMeans(nodes: map<NodeId, ClusterNode>, owners: Owners, n: NodeId, m: NodeId, j: nat)
    requires Agrees(nodes, owners) && n in nodes && m in nodes && j < CLUSTER_SLOTS
    ensures nodes[n].slots[j] <==> owners[j] == Some(n)
    ensures n != m ==> Ones(nodes[n].slots) !! Ones(nodes[m].slots)
    ensures nodes[n].numslots == |Ones(nodes[n].slots)|
  {
    assert NodeAgrees(nodes[n], owners, n) && NodeAgrees(nodes[m], owners, m);
    assert j in Ones(nodes[n].slots) <==> j in ServedBy(owners, n);
  }

  lemma ServedUpdate(owners: Owners, j: nat, o: Option<NodeId>, n: NodeId)
    requires j < |owners|
    ensures ServedBy(owners[j := o], n) == if o == Some(n) then ServedBy(owners, n) + {j} else ServedBy(owners, n) - {j}
  {
  }

  // ------------------------------------------------- the effect on the owners

  /** What a claim does to one slot: it goes to the claimant unless it is being imported or
      is held under an epoch at least as great. */
  function ReboundSlot(o: Option<NodeId>, epochs: map<NodeId, nat>, importing: bool,
                       sender: NodeId, epoch: nat, claimed: bool): Option<NodeId>
    requires o.Some? ==> o.value in epochs
  {
    if claimed && o != Some(sender) && !importing && (o.None? || epochs[o.value] < epoch) then Some(sender) else o
  }

  function Rebound(owners: Owners, epochs: map<NodeId, nat>, importing: seq<Option<NodeId>>,
                   sender: NodeId, epoch: nat, claimed: Bitmap): (r: Owners)
    requires |importing| == |owners| == |claimed|
    requires forall j | 0 <= j < |owners| && owners[j].Some? :: owners[j].value in epochs
    ensures |r| == |owners|
  {
    seq(|owners|, j requires 0 <= j < |owners| =>
      ReboundSlot(owners[j], epochs, importing[j].Some?, sender, epoch, claimed[j]))
  }

  /** Which of the first j slots, if among `keep`, a node served before and does not serve after. */
  function Lost(before: Owners, after: Owners, n: NodeId, keep: set<nat>, j: nat): seq<nat>
    requires |before| == |after| >= j
  {
    if j == 0 then []
    else if before[j - 1] == Some(n) && after[j - 1] != before[j - 1] && j - 1 in keep
    then Lost(before, after, n, keep, j - 1) + [j - 1]
    else Lost(before, after, n, keep, j - 1)
  }

  predicate LosesAny(before: Owners, after: Owners, n: NodeId, j: nat)
    requires |before| == |after| >= j
  {
    j > 0 && ((before[j - 1] == Some(n) && after[j - 1] != before[j - 1]) || LosesAny(before, after, n, j - 1))
  }

  lemma {:induction false} LostMeans(before: Owners, after: Owners, n: NodeId, keep: set<nat>, j: nat)
    requires |before| == |after| >= j
    ensures forall k: nat :: k in Lost(before, after, n, keep, j) <==>
              k < j && before[k] == Some(n) && after[k] != before[k] && k in keep
    ensures LosesAny(before, after, n, j) <==> exists k | 0 <= k < j :: before[k] == Some(n) && after[k] != before[k]
    ensures before == after ==> Lost(before, after, n, keep, j) == []
  {
    if j > 0 { LostMeans(before, after, n, keep, j - 1); }
  }

  /** The first j entries without any reference to node n. */
  function Cleared(refs: seq<Option<NodeId>>, n: NodeId, j: nat): seq<Option<NodeId>> {
    seq(|refs|, i requires 0 <= i < |refs| => if i < j && refs[i] == Some(n) then None else refs[i])
  }

  function ClearedAt(refs: seq<Option<NodeId>>, n: NodeId, j: nat): seq<Option<NodeId>>
    requires j < |refs|
  {
    if refs[j] == Some(n) then refs[j := None] else refs
  }

  datatype Outcome = Keep | Demote | DeleteKeys(dirty: seq<nat>)

  class ClusterState {
    const slots: array<Option<NodeId>>
    const importing: array<Option<NodeId>>   // the node each slot is being imported from
    const migrating: array<Option<NodeId>>   // the node each slot is being moved to
    var nodes: map<NodeId, ClusterNode>
    var configEpoch: map<NodeId, nat>

    ghost predicate Valid() reads this, slots, importing, migrating {
      && slots.Length == importing.Length == migrating.Length == CLUSTER_SLOTS
      && slots != importing && slots != migrating && importing != migrating
      && configEpoch.Keys == nodes.Keys && Agrees(nodes, slots[..])
    }

    constructor ()
      ensures Valid() && fresh(slots) && fresh(importing) && fresh(migrating) && nodes == map[]
      ensures forall j | 0 <= j < CLUSTER_SLOTS :: slots[j] == None && importing[j] == None && migrating[j] == None
    {
      slots := new Option<NodeId>[CLUSTER_SLOTS](_ => None);
      importing := new Option<NodeId>[CLUSTER_SLOTS](_ => None);
      migrating := new Option<NodeId>[CLUSTER_SLOTS](_ => None);
      nodes, configEpoch := map[], map[];
    }

    method AddNode(n: NodeId)
      requires Valid() && n !in nodes
      modifies this
      ensures Valid() && configEpoch == old(configEpoch)[n := 0] && slots[..] == old(slots[..])
    {
      var zero: Bitmap := seq(CLUSTER_SLOTS, _ => false);
      assert Ones(zero) == {} == ServedBy(slots[..], n);
      nodes, configEpoch := nodes[n := ClusterNode(zero, 0)], configEpoch[n := 0];
    }

    method AddSlot(n: NodeId, j: nat) returns (ok: bool)
      requires Valid() && n in nodes && j < CLUSTER_SLOTS
      modifies `nodes, slots
      ensures Valid() && nodes.Keys == old(nodes.Keys)
      ensures ok <==> old(slots[j]) == None
      ensures slots[..] == if ok then old(slots[..])[j := Some(n)] else old(slots[..])
      ensures forall k | 0 <= k < CLUSTER_SLOTS && k != j :: slots[k] == old(slots[k])
    {
      if slots[j].Some? { return false; }
      AddAgrees(nodes, slots[..], n, j);
      var node := nodes[n];
      if !node.slots[j] { node := node.(numslots := node.numslots + 1); }
      nodes := nodes[n := node.(slots := node.slots[j := true])];
      slots[j] := Some(n);
      assert slots[..] == old(slots[..])[j := Some(n)];
      return true;
    }

    /** Never fails its internal check that the owner's bit was set. */
    method DelSlot(j: nat) returns (ok: bool)
      requires Valid() && j < CLUSTER_SLOTS
      modifies `nodes, slots
      ensures Valid() && nodes.Keys == old(nodes.Keys)
      ensures ok <==> old(slots[j]) != None
      ensures slots[..] == old(slots[..])[j := None]
      ensures forall k | 0 <= k < CLUSTER_SLOTS && k != j :: slots[k] == old(slots[k])
    {
      if slots[j].None? {
        assert slots[..] == old(slots[..])[j := None];
        return false;
      }
      DelAgrees(nodes, slots[..], j);
      var n := slots[j].value;
      var node := nodes[n];
      assert node.slots[j];
      nodes := nodes[n := node.(slots := node.slots[j := false], numslots := node.numslots - 1)];
      slots[j] := None;
      assert slots[..] == old(slots[..])[j := None];
      return true;
    }

    method DelSlotOf(n: NodeId, j: nat) returns (had: bool)
      requires Valid() && n in nodes && j < CLUSTER_SLOTS
      modifies `nodes, slots
      ensures Valid() && nodes.Keys == old(nodes.Keys)
      ensures had <==> old(slots[j]) == Some(n)
      ensures slots[j] == if had then None else old(slots[j])
      ensures forall k | 0 <= k < CLUSTER_SLOTS && k != j :: slots[k] == old(slots[k])
      ensures nodes[n].numslots == old(nodes[n].numslots) - if had then 1 else 0
    {
      AgreementMeans(nodes, slots[..], n, n, j);
      had := nodes[n].slots[j];
      if had {
        assert NodeAgrees(nodes[n], slots[..], n);
        ServedUpdate(slots[..], j, None, n);
        var _ := DelSlot(j);
        assert NodeAgrees(nodes[n], slots[..], n);
      }
    }

    /** Delete all the slots of a node; the result is how many it had. */
    method DelNodeSlots(n: NodeId) returns (deleted: int)
      requires Valid() && n in nodes
      modifies `nodes, slots
      ensures Valid() && nodes.Keys == old(nodes.Keys)
      ensures forall k | 0 <= k < CLUSTER_SLOTS :: slots[k] == if old(slots[k]) == Some(n) then None else old(slots[k])
      ensures deleted == old(nodes[n].numslots) && nodes[n].numslots == 0
    {
      deleted := 0;
      var j := 0;
      while j < CLUSTER_SLOTS
        invariant 0 <= j <= CLUSTER_SLOTS
        invariant Valid() && nodes.Keys == old(nodes.Keys)
        invariant forall k | 0 <= k < j :: slots[k] == if old(slots[k]) == Some(n) then None else old(slots[k])
        invariant forall k | j <= k < CLUSTER_SLOTS :: slots[k] == old(slots[k])
        invariant deleted + nodes[n].numslots == old(nodes[n].numslots)
      {
        var had := DelSlotOf(n, j);
        if had { deleted := deleted + 1; }
        j := j + 1;
      }
      NoSlots(nodes, slots[..], n);
    }

    method ForgetSlot(n: NodeId, j: nat)
      requires Valid() && n in nodes && j < CLUSTER_SLOTS
      modifies `nodes, slots, importing, migrating
      ensures Valid() && nodes.Keys == old(nodes.Keys)
      ensures slots[..] == ClearedAt(old(slots[..]), n, j)
      ensures importing[..] == ClearedAt(old(importing[..]), n, j)
      ensures migrating[..] == ClearedAt(old(migrating[..]), n, j)
    {
      if importing[j] == Some(n) { importing[j] := None; }
      if migrating[j] == Some(n) { migrating[j] := None; }
      if slots[j] == Some(n) { var _ := DelSlot(j); }
    }

    /** Forget a node: nothing is served by, imported from or moved to it, and it leaves the table. */
    method DelNode(n: NodeId)
      requires Valid() && n in nodes
      modifies this, slots, importing, migrating
      ensures Valid() && configEpoch == old(configEpoch) - {n}
      ensures slots[..] == Cleared(old(slots[..]), n, CLUSTER_SLOTS)
      ensures importing[..] == Cleared(old(importing[..]), n, CLUSTER_SLOTS)
      ensures migrating[..] == Cleared(old(migrating[..]), n, CLUSTER_SLOTS)
    {
      var j := 0;
      while j < CLUSTER_SLOTS
        invariant 0 <= j <= CLUSTER_SLOTS
        invariant Valid() && nodes.Keys == old(nodes.Keys) && configEpoch == old(configEpoch)
        invariant slots[..] == Cleared(old(slots[..]), n, j)
        invariant importing[..] == Cleared(old(importing[..]), n, j)
        invariant migrating[..] == Cleared(old(migrating[..]), n, j)
      {
        ForgetSlot(n, j);
        j := j + 1;
      }
      ForgetAgrees(nodes, slots[..], n);
      nodes, configEpoch := nodes - {n}, configEpoch - {n};
    }

    method TakeSlot(me: NodeId, oldmaster: NodeId, j: nat)
      requires Valid() && me in nodes && oldmaster in nodes && me != oldmaster && j < CLUSTER_SLOTS
      modifies `nodes, slots
      ensures Valid() && nodes.Keys == old(nodes.Keys)
      ensures slots[j] == if old(slots[j]) == Some(oldmaster) then Some(me) else old(slots[j])
      ensures forall k | 0 <= k < CLUSTER_SLOTS && k != j :: slots[k] == old(slots[k])
      ensures nodes[me].numslots + nodes[oldmaster].numslots == old(nodes[me].numslots + nodes[oldmaster].numslots)
    {
      AgreementMeans(nodes, slots[..], oldmaster, me, j);
      if nodes[oldmaster].slots[j] {
        HandOver(nodes, slots[..], j, oldmaster, me);
        var _ := DelSlot(j);
        var _ := AddSlot(me, j);
        assert NodeAgrees(nodes[me], slots[..], me) && NodeAgrees(nodes[oldmaster], slots[..], oldmaster);
      }
    }

    /** A replica that won its election claims all the slots of its old master. */
    method FailoverReplaceYourMaster(me: NodeId, oldmaster: NodeId)
      requires Valid() && me in nodes && oldmaster in nodes && me != oldmaster
      modifies `nodes, slots
      ensures Valid() && nodes.Keys == old(nodes.Keys)
      ensures forall k | 0 <= k < CLUSTER_SLOTS ::
                slots[k] == if old(slots[k]) == Some(oldmaster) then Some(me) else old(slots[k])
      ensures nodes[oldmaster].numslots == 0
      ensures nodes[me].numslots == old(nodes[me].numslots + nodes[oldmaster].numslots)
    {
      var j := 0;
      while j < CLUSTER_SLOTS
        invariant 0 <= j <= CLUSTER_SLOTS
        invariant Valid() && nodes.Keys == old(nodes.Keys)
        invariant forall k | 0 <= k < j ::
                    slots[k] == if old(slots[k]) == Some(oldmaster) then Some(me) else old(slots[k])
        invariant forall k | j <= k < CLUSTER_SLOTS :: slots[k] == old(slots[k])
        invariant nodes[me].numslots + nodes[oldmaster].numslots == old(nodes[me].numslots + nodes[oldmaster].numslots)
      {
        TakeSlot(me, oldmaster, j);
        j := j + 1;
      }
      NoSlots(nodes, slots[..], oldmaster);
    }

    method RebindSlot(j: nat, sender: NodeId, epoch: nat, claimed: bool) returns (rebound: bool)
      requires Valid() && sender in nodes && j < CLUSTER_SLOTS
      modifies `nodes, slots
      ensures Valid() && nodes.Keys == old(nodes.Keys)
      ensures slots[j] == ReboundSlot(old(slots[j]), configEpoch, importing[j].Some?, sender, epoch, claimed)
      ensures rebound <==> slots[j] != old(slots[j])
      ensures forall k | 0 <= k < CLUSTER_SLOTS && k != j :: slots[k] == old(slots[k])
    {
      rebound := false;
      if claimed && slots[j] != Some(sender) && importing[j].None? {
        if slots[j].None? || configEpoch[slots[j].value] < epoch {
          var _ := DelSlot(j);
          var _ := AddSlot(sender, j);
          rebound := true;
        }
      }
    }

    /** The scan over all slots: `newmaster` tells whether `curmaster` lost a slot, `dirty` which
        slots this node lost while having keys in them. */
    method RebindSlots(sender: NodeId, epoch: nat, claimed: Bitmap, me: NodeId, curmaster: NodeId, withKeys: set<nat>)
      returns (newmaster: bool, dirty: seq<nat>)
      requires Valid() && sender in nodes && |claimed| == CLUSTER_SLOTS
      modifies `nodes, slots
      ensures Valid() && nodes.Keys == old(nodes.Keys)
      ensures slots[..] == Rebound(old(slots[..]), configEpoch, importing[..], sender, epoch, claimed)
      ensures forall j | 0 <= j < CLUSTER_SLOTS && importing[j].Some? :: slots[j] == old(slots[j])
      ensures forall j | 0 <= j < CLUSTER_SLOTS && slots[j] != old(slots[j]) ::
                && claimed[j] && slots[j] == Some(sender)
                && (old(slots[j]).None? || configEpoch[old(slots[j]).value] < epoch)
      ensures newmaster <==> LosesAny(old(slots[..]), slots[..], curmaster, CLUSTER_SLOTS)
      ensures dirty == Lost(old(slots[..]), slots[..], me, withKeys, CLUSTER_SLOTS)
    {
      newmaster, dirty := false, [];
      ghost var owners := slots[..];
      ghost var after := Rebound(owners, configEpoch, importing[..], sender, epoch, claimed);
      var j: nat := 0;
      while j < CLUSTER_SLOTS
        invariant 0 <= j <= CLUSTER_SLOTS
        invariant Valid() && nodes.Keys == old(nodes.Keys)
        invariant forall k | 0 <= k < CLUSTER_SLOTS :: slots[k] == if k < j then after[k] else owners[k]
        invariant newmaster <==> LosesAny(owners, after, curmaster, j)
        invariant dirty == Lost(owners, after, me, withKeys, j)
      {
        var owner := slots[j];
        var rebound := RebindSlot(j, sender, epoch, claimed[j]);
        if rebound && owner == Some(me) && j in withKeys { dirty := dirty + [j]; }
        if rebound && owner == Some(curmaster) { newmaster := true; }
        j := j + 1;
      }
      assert slots[..] == after;
    }

    /** Process the slots a master claims under `epoch`. `curmaster` is this node or the master
        it replicates; `withKeys` are the slots this node still has keys for. Afterwards every
        slot is bound as ReboundSlot says, and this node is demoted exactly when its master lost
        a slot and has none left, or else must delete the keys of the slots it lost. */
    method UpdateSlotsConfigWith(sender: NodeId, epoch: nat, claimed: Bitmap,
                                 me: NodeId, curmaster: NodeId, withKeys: set<nat>) returns (outcome: Outcome)
      requires Valid() && sender in nodes && curmaster in nodes && |claimed| == CLUSTER_SLOTS
      modifies `nodes, slots
      ensures Valid() && nodes.Keys == old(nodes.Keys)
      ensures slots[..] == if sender == me then old(slots[..])
                           else Rebound(old(slots[..]), configEpoch, importing[..], sender, epoch, claimed)
      ensures forall j | 0 <= j < CLUSTER_SLOTS && importing[j].Some? :: slots[j] == old(slots[j])
      ensures forall j | 0 <= j < CLUSTER_SLOTS && slots[j] != old(slots[j]) ::
                && claimed[j] && slots[j] == Some(sender)
                && (old(slots[j]).None? || configEpoch[old(slots[j]).value] < epoch)
      ensures outcome.Demote? <==>
              nodes[curmaster].numslots == 0 && LosesAny(old(slots[..]), slots[..], curmaster, CLUSTER_SLOTS)
      ensures !outcome.Demote? ==>
                Lost(old(slots[..]), slots[..], me, withKeys, CLUSTER_SLOTS)
                == if outcome.DeleteKeys? then outcome.dirty else []
    {
      outcome := Keep;
      if sender == me {
        LostMeans(slots[..], slots[..], me, withKeys, CLUSTER_SLOTS);
        LostMeans(slots[..], slots[..], curmaster, withKeys, CLUSTER_SLOTS);
        return;
      }
      var newmaster, dirty := RebindSlots(sender, epoch, claimed, me, curmaster, withKeys);
      if newmaster && nodes[curmaster].numslots == 0 {
        outcome := Demote;
      } else if dirty != [] {
        outcome := DeleteKeys(dirty);
      }
    }

    /** A PING from a master: learn its configEpoch, then process its claimed slots, but only if
        they differ from the bitmap we have for it. The shortcut is invisible: table and outcome are
        as if the claim were always processed. */
    method ProcessClaim(sender: NodeId, epoch: nat, claimed: Bitmap,
                        me: NodeId, curmaster: NodeId, withKeys: set<nat>) returns (outcome: Outcome)
      requires Valid() && sender in nodes && sender != me && curmaster in nodes && |claimed| == CLUSTER_SLOTS
      modifies `nodes, `configEpoch, slots
      ensures Valid() && nodes.Keys == old(nodes.Keys)
      ensures configEpoch == Learnt(old(configEpoch), sender, epoch)
      ensures slots[..] == Rebound(old(slots[..]), configEpoch, importing[..], sender, epoch, claimed)
      ensures forall j | 0 <= j < CLUSTER_SLOTS && importing[j].Some? :: slots[j] == old(slots[j])
      ensures forall j | 0 <= j < CLUSTER_SLOTS && slots[j] != old(slots[j]) ::
                && claimed[j] && slots[j] == Some(sender)
                && (old(slots[j]).None? || configEpoch[old(slots[j]).value] < epoch)
      ensures outcome.Demote? <==>
              nodes[curmaster].numslots == 0 && LosesAny(old(slots[..]), slots[..], curmaster, CLUSTER_SLOTS)
      ensures !outcome.Demote? ==>
                Lost(old(slots[..]), slots[..], me, withKeys, CLUSTER_SLOTS)
                == if outcome.DeleteKeys? then outcome.dirty else []
    {
      if epoch > configEpoch[sender] { configEpoch := configEpoch[sender := epoch]; }
      outcome := Keep;
      if nodes[sender].slots != claimed {
        outcome := UpdateSlotsConfigWith(sender, epoch, claimed, me, curmaster, withKeys);
      } else {
        KnownClaim(nodes, slots[..], configEpoch, importing[..], sender, epoch);
        LostMeans(slots[..], slots[..], me, withKeys, CLUSTER_SLOTS);
        LostMeans(slots[..], slots[..], curmaster, withKeys, CLUSTER_SLOTS);
      }
    }

    method AddRange(n: NodeId, first: nat, stop: int)
      requires Valid() && n in nodes && stop < CLUSTER_SLOTS
      modifies `nodes, slots
      ensures Valid() && nodes.Keys == old(nodes.Keys)
      ensures forall j | 0 <= j < CLUSTER_SLOTS ::
                slots[j] == if old(slots[j]).None? && first <= j <= stop then Some(n) else old(slots[j])
    {
      var start := first;
      while start <= stop
        invariant first <= start
        invariant Valid() && nodes.Keys == old(nodes.Keys)
        invariant forall j | 0 <= j < CLUSTER_SLOTS ::
          slots[j] == if old(slots[j]).None? && first <= j < start && j <= stop then Some(n) else old(slots[j])
      {
        var _ := AddSlot(n, start);
        start := start + 1;
      }
    }

    /** Bind to a node the slot ranges read from its line of the configuration file. */
    method LoadRanges(n: NodeId, ranges: seq<(int, int)>) returns (ok: bool)
      requires Valid() && n in nodes
      modifies `nodes, slots
      ensures Valid() && nodes.Keys == old(nodes.Keys)
      ensures ok <==> forall r | r in ranges :: 0 <= r.0 < CLUSTER_SLOTS && 0 <= r.1 < CLUSTER_SLOTS
      ensures ok ==> forall j | 0 <= j < CLUSTER_SLOTS ::
                slots[j] == if old(slots[j]).None? && Covered(ranges, j) then Some(n) else old(slots[j])
    {
      var i := 0;
      while i < |ranges|
        invariant 0 <= i <= |ranges|
        invariant Valid() && nodes.Keys == old(nodes.Keys)
        invariant forall k | 0 <= k < i :: 0 <= ranges[k].0 < CLUSTER_SLOTS && 0 <= ranges[k].1 < CLUSTER_SLOTS
        invariant forall j | 0 <= j < CLUSTER_SLOTS ::
          slots[j] == if old(slots[j]).None? && Covered(ranges[..i], j) then Some(n) else old(slots[j])
      {
        var (start, stop) := ranges[i];
        if start < 0 || start >= CLUSTER_SLOTS || stop < 0 || stop >= CLUSTER_SLOTS { return false; }
        CoveredMore(ranges, i);
        AddRange(n, start, stop);
        i := i + 1;
      }
      assert ranges[..i] == ranges;
      return true;
    }
  }

  lemma CoveredMore(ranges: seq<(int, int)>, i: nat)
    requires i < |ranges|
    ensures forall j :: Covered(ranges[..i + 1], j) <==> Covered(ranges[..i], j) || ranges[i].0 <= j <= ranges[i].1
  {
    var a, b := ranges[..i], ranges[..i + 1];
    assert b == a + [ranges[i]];
    forall j ensures Covered(b, j) <==> Covered(a, j) || ranges[i].0 <= j <= ranges[i].1 {
      if r :| r in a && r.0 <= j <= r.1 { assert r in b; }
      if ranges[i].0 <= j <= ranges[i].1 { assert ranges[i] in b; }
    }
  }

  predicate Covered(ranges: seq<(int, int)>, j: int) {
    exists r | r in ranges :: r.0 <= j <= r.1
  }

  function Learnt(epochs: map<NodeId, nat>, n: NodeId, epoch: nat): map<NodeId, nat>
    requires n in epochs
  {
    epochs[n := if epoch > epochs[n] then epoch else epochs[n]]
  }

  /** Claiming exactly the slots we already bind to the claimant rebinds nothing. */
  lemma KnownClaim(nodes: map<NodeId, ClusterNode>, owners: Owners, epochs: map<NodeId, nat>,
                   importing: seq<Option<NodeId>>, sender: NodeId, epoch: nat)
    requires Agrees(nodes, owners) && epochs.Keys == nodes.Keys && |importing| == CLUSTER_SLOTS && sender in nodes
    ensures Rebound(owners, epochs, importing, sender, epoch, nodes[sender].slots) == owners
  {
    forall j | 0 <= j < CLUSTER_SLOTS ensures nodes[sender].slots[j] ==> owners[j] == Some(sender) {
      AgreementMeans(nodes, owners, sender, sender, j);
    }
  }

  lemma AddAgrees(nodes: map<NodeId, ClusterNode>, owners: Owners, n: NodeId, j: nat)
    requires Agrees(nodes, owners) && n in nodes && j < CLUSTER_SLOTS && owners[j].None?
    ensures !nodes[n].slots[j]
    ensures Agrees(nodes[n := nodes[n].(slots := nodes[n].slots[j := true], numslots := nodes[n].numslots + 1)],
                   owners[j := Some(n)])
  {
    AgreementMeans(nodes, owners, n, n, j);
    OnesUpdate(nodes[n].slots, j, true);
    OnesUpdate(nodes[n].slots, j, false);
    forall m | m in nodes
      ensures NodeAgrees(if m == n then nodes[n].(slots := nodes[n].slots[j := true], numslots := nodes[n].numslots + 1)
                         else nodes[m], owners[j := Some(n)], m)
    {
      ServedUpdate(owners, j, Some(n), m);
      assert NodeAgrees(nodes[m], owners, m);
    }
  }

  lemma DelAgrees(nodes: map<NodeId, ClusterNode>, owners: Owners, j: nat)
    requires Agrees(nodes, owners) && j < CLUSTER_SLOTS && owners[j].Some?
    ensures var n := owners[j].value;
            && nodes[n].slots[j]
            && Agrees(nodes[n := nodes[n].(slots := nodes[n].slots[j := false], numslots := nodes[n].numslots - 1)],
                      owners[j := None])
  {
    var n := owners[j].value;
    AgreementMeans(nodes, owners, n, n, j);
    OnesUpdate(nodes[n].slots, j, true);
    OnesUpdate(nodes[n].slots, j, false);
    var node := nodes[n].(slots := nodes[n].slots[j := false], numslots := nodes[n].numslots - 1);
    forall m | m in nodes
      ensures NodeAgrees(if m == n then node else nodes[m], owners[j := None], m)
    {
      ServedUpdate(owners, j, None, m);
      assert NodeAgrees(nodes[m], owners, m);
    }
  }

  lemma HandOver(nodes: map<NodeId, ClusterNode>, owners: Owners, j: nat, from: NodeId, to: NodeId)
    requires Agrees(nodes, owners) && j < |owners| && owners[j] == Some(from)
    requires from != to && from in nodes && to in nodes
    ensures |ServedBy(owners[j := None][j := Some(to)], from)| == nodes[from].numslots - 1
    ensures |ServedBy(owners[j := None][j := Some(to)], to)| == nodes[to].numslots + 1
  {
    assert owners[j := None][j := Some(to)] == owners[j := Some(to)];
    ServedUpdate(owners, j, Some(to), from);
    ServedUpdate(owners, j, Some(to), to);
    assert NodeAgrees(nodes[from], owners, from) && NodeAgrees(nodes[to], owners, to);
  }

  lemma ForgetAgrees(nodes: map<NodeId, ClusterNode>, owners: Owners, n: NodeId)
    requires Agrees(nodes, owners) && forall k | 0 <= k < |owners| :: owners[k] != Some(n)
    ensures Agrees(nodes - {n}, owners)
  {
  }

  lemma NoSlots(nodes: map<NodeId, ClusterNode>, owners: Owners, n: NodeId)
    requires Agrees(nodes, owners) && n in nodes
    requires forall k | 0 <= k < |owners| :: owners[k] != Some(n)
    ensures nodes[n].numslots == 0
  {
    assert NodeAgrees(nodes[n], owners, n);
    assert ServedBy(owners, n) == {};
  }
}
