/** Configuration epochs of Redis Cluster masters: how a node learns the epochs of
    the others, how it takes a new one, and how two masters that hold the same
    epoch move apart. A cluster is a sequence of nodes ranked by node ID, so that
    "greater node ID" is "greater index". */
module ConfigEpochs {
  import opened Sequences

  /** One node's own view: its currentEpoch and, for every node, the last
      configEpoch it knows (its own configEpoch at its own index). */
  datatype View = View(currentEpoch: nat, known: seq<nat>)

  /** The epochs in a packet: in every header, and in what an UPDATE reports about some node.
      PONG and MEET are treated like PING; all other types only have the header. */
  datatype Packet =
    | Ping(sender: nat, currentEpoch: nat, configEpoch: nat)
    | Update(sender: nat, currentEpoch: nat, configEpoch: nat, node: nat, epoch: nat)
    | Other(sender: nat, currentEpoch: nat, configEpoch: nat)

  // ---------------------------------------------------------------- handlers

  /** Every packet: adopt a newer currentEpoch, remember a newer configEpoch. */
  function Learn(v: View, m: Packet): View
    requires m.sender < |v.known|
  {
    View(if m.currentEpoch > v.currentEpoch then m.currentEpoch else v.currentEpoch,
         if m.configEpoch > v.known[m.sender] then v.known[m.sender := m.configEpoch] else v.known)
  }

  /** The test that makes a master give up its epoch: the packet and the node table
      both show the sender at our own epoch, and the sender has the greater ID. */
  predicate Collides(v: View, me: nat, m: Packet)
    requires me < |v.known| && m.sender < |v.known|
  {
    && m.configEpoch == v.known[me]
    && v.known[m.sender] == v.known[me]
    && m.sender > me
  }

  /** A fresh epoch, one above everything this node has heard of. */
  function Fresh(v: View, me: nat): View
    requires me < |v.known|
  {
    View(v.currentEpoch + 1, v.known[me := v.currentEpoch + 1])
  }

  /** Any packet from a known node. Reports about unknown nodes, and old ones, are dropped. */
  function OnPacket(v: View, me: nat, m: Packet): View
    requires me < |v.known| && m.sender < |v.known|
  {
    var l := Learn(v, m);
    match m
    case Ping(_, _, _) => if Collides(l, me, m) then Fresh(l, me) else l
    case Update(_, _, _, n, e) => if n >= |l.known| || l.known[n] >= e then l else l.(known := l.known[n := e])
    case Other(_, _, _) => l
  }

  /** No node is known with a configEpoch above currentEpoch. */
  predicate Bounded(v: View) {
    forall j | 0 <= j < |v.known| :: v.known[j] <= v.currentEpoch
  }

  /** The node's mutable state and its handlers. */
  class Node {
    const me: nat
    var currentEpoch: nat
    var known: seq<nat>

    ghost predicate Valid() reads this {
      me < |known| && Bounded(View(currentEpoch, known))
    }

    constructor (me: nat, size: nat)
      requires me < size
      ensures Valid() && this.me == me && currentEpoch == 0 && known == seq(size, _ => 0)
    {
      this.me, currentEpoch, known := me, 0, seq(size, _ => 0);
    }

    /** The greatest configEpoch in the node table, or currentEpoch if greater. */
    method GetMaxEpoch() returns (max: nat)
      ensures currentEpoch <= max && forall j | 0 <= j < |known| :: known[j] <= max
      ensures max == currentEpoch || max in known
      ensures Valid() ==> max == currentEpoch
    {
      max := 0;
      for j := 0 to |known|
        invariant max == 0 || max in known
        invariant forall i | 0 <= i < j :: known[i] <= max
      {
        if known[j] > max { max := known[j]; }
      }
      if max < currentEpoch { max := currentEpoch; }
    }

    /** Take a new configEpoch without consensus, unless ours already is the greatest.
        Either way our epoch ends at least as great as any known, and strictly
        greater than all the others when it was changed. */
    method BumpConfigEpochWithoutConsensus() returns (ok: bool)
      requires me < |known|
      modifies this
      ensures !ok <==> old(known[me] != 0 && currentEpoch <= known[me] &&
                           forall j | 0 <= j < |known| :: known[j] <= known[me])
      ensures View(currentEpoch, known) ==
              if ok then Fresh(old(View(currentEpoch, known)), me) else old(View(currentEpoch, known))
      ensures old(Valid()) ==> Valid() && forall j | 0 <= j < |known| :: known[j] <= known[me]
      ensures old(Valid()) && ok ==> forall j | 0 <= j < |known| && j != me :: known[j] < known[me]
    {
      var maxEpoch := GetMaxEpoch();
      if known[me] == 0 || known[me] != maxEpoch {
        currentEpoch := currentEpoch + 1;
        known := known[me := currentEpoch];
        ok := true;
      } else {
        ok := false;
      }
    }

    method HandleConfigEpochCollision(sender: nat)
      requires me < |known| && sender < |known|
      modifies this
      ensures old(Valid()) ==> Valid()
      ensures View(currentEpoch, known) ==
              if old(known[sender] == known[me]) && sender > me
              then Fresh(old(View(currentEpoch, known)), me) else old(View(currentEpoch, known))
      ensures old(Valid()) ==> known[me] == old(known[me]) || known[me] > old(known[me])
    {
      if known[sender] != known[me] { return; }
      if sender <= me { return; }
      currentEpoch := currentEpoch + 1;
      known := known[me := currentEpoch];
    }

    method ProcessPacket(m: Packet)
      requires me < |known| && m.sender < |known|
      modifies this
      ensures old(Valid()) && m.configEpoch <= m.currentEpoch && (m.Update? ==> m.epoch <= m.currentEpoch) ==> Valid()
      ensures View(currentEpoch, known) == OnPacket(old(View(currentEpoch, known)), me, m)
    {
      if m.currentEpoch > currentEpoch { currentEpoch := m.currentEpoch; }
      if m.configEpoch > known[m.sender] { known := known[m.sender := m.configEpoch]; }
      match m {
        case Ping(_, _, _) =>
          if m.configEpoch == known[me] { HandleConfigEpochCollision(m.sender); }
        case Update(_, _, _, n, e) =>
          if n >= |known| { return; }
          if known[n] >= e { return; }
          known := known[n := e];
        case Other(_, _, _) =>
      }
    }
  }

  // ------------------------------------------------------------ the cluster

  /** The whole cluster. `net` only grows, so packets may be delayed, repeated,
      reordered or lost. `held` and `heard` record history that no handler reads:
      the configEpochs each node has held, in order, and who heard which epoch
      of whom in a PING. */
  datatype Cluster = Cluster(nodes: seq<View>, net: set<Packet>,
                             held: seq<seq<nat>>, heard: set<(nat, nat, nat)>)

  function Own(c: Cluster, i: nat): nat
    requires i < |c.nodes| && i < |c.nodes[i].known|
  {
    c.nodes[i].known[i]
  }

  predicate Shaped(c: Cluster) {
    && |c.held| == |c.nodes|
    && forall i | 0 <= i < |c.nodes| :: |c.nodes[i].known| == |c.nodes|
  }

  predicate Init(c: Cluster) {
    && Shaped(c) && c.net == {} && c.heard == {}
    && (forall i | 0 <= i < |c.nodes| :: Bounded(c.nodes[i]) && c.held[i] == [Own(c, i)])
    && (forall i, j | 0 <= i < |c.nodes| && 0 <= j < |c.nodes| :: c.nodes[i].known[j] <= Own(c, j))
  }

  datatype Step =
    | Send(i: nat)                 // broadcast a PING
    | Report(i: nat, n: nat)       // send an UPDATE with what is known about node n
    | Tell(i: nat)                 // send a packet of another type
    | Deliver(i: nat, m: Packet)   // receive any packet ever sent
    | Raise(i: nat)                // open an election: currentEpoch is raised
    | Adopt(i: nat, epoch: nat)    // win an election held at `epoch`
    | Bump(i: nat)                 // take an epoch without consensus

  predicate Enabled(c: Cluster, s: Step)
    requires Shaped(c)
  {
    && s.i < |c.nodes|
    && match s
       case Deliver(i, m) => m in c.net && m.sender != i && m.sender < |c.nodes|
       case Report(i, n) => n < |c.nodes|
       case Adopt(i, e) => Own(c, i) < e <= c.nodes[i].currentEpoch
       case _ => true
  }

  /** Node i's view after the step, with its history extended when its own epoch changed. */
  function SetView(c: Cluster, i: nat, v: View): (r: Cluster)
    requires Shaped(c) && i < |c.nodes| && |v.known| == |c.nodes|
    ensures Shaped(r) && |r.nodes| == |c.nodes|
  {
    c.(nodes := c.nodes[i := v],
       held := if v.known[i] == Own(c, i) then c.held else c.held[i := c.held[i] + [v.known[i]]])
  }

  function Next(c: Cluster, s: Step): (r: Cluster)
    requires Shaped(c) && Enabled(c, s)
    ensures Shaped(r) && |r.nodes| == |c.nodes|
  {
    match s
    case Send(i) => c.(net := c.net + {Ping(i, c.nodes[i].currentEpoch, Own(c, i))})
    case Report(i, n) => c.(net := c.net + {Update(i, c.nodes[i].currentEpoch, Own(c, i), n, c.nodes[i].known[n])})
    case Tell(i) => c.(net := c.net + {Other(i, c.nodes[i].currentEpoch, Own(c, i))})
    case Deliver(i, m) =>
      SetView(c, i, OnPacket(c.nodes[i], i, m)).(
        heard := if m.Ping? then c.heard + {(i, m.sender, m.configEpoch)} else c.heard)
    case Raise(i) => c.(nodes := c.nodes[i := c.nodes[i].(currentEpoch := c.nodes[i].currentEpoch + 1)])
    case Adopt(i, e) => SetView(c, i, c.nodes[i].(known := c.nodes[i].known[i := e]))
    case Bump(i) =>
      if Own(c, i) == 0 || Own(c, i) != c.nodes[i].currentEpoch
      then SetView(c, i, Fresh(c.nodes[i], i)) else c
  }

  // ------------------------------------------------------ the epoch invariant

  predicate Increasing(s: seq<nat>) {
    forall a, b | 0 <= a < b < |s| :: s[a] < s[b]
  }

  /** Node i: currentEpoch bounds every epoch it knows, and its history ends with its epoch. */
  predicate NodeOk(c: Cluster, i: nat)
    requires Shaped(c) && i < |c.nodes|
  {
    && Bounded(c.nodes[i])
    && Increasing(c.held[i]) && c.held[i] != [] && c.held[i][|c.held[i]| - 1] == Own(c, i)
  }

  /** Nobody overestimates anybody. */
  predicate KnowsOk(c: Cluster, i: nat, j: nat)
    requires Shaped(c) && i < |c.nodes| && j < |c.nodes|
  {
    c.nodes[i].known[j] <= Own(c, j)
  }

  /** A packet carries an epoch its sender did hold, at most its currentEpoch, and reports of no
      node a greater epoch than that node has or than the sender's currentEpoch. */
  predicate PacketOk(c: Cluster, m: Packet)
    requires Shaped(c)
  {
    && m.sender < |c.nodes| && m.configEpoch <= m.currentEpoch && m.configEpoch in c.held[m.sender]
    && (m.Update? ==> m.node < |c.nodes| && m.epoch <= Own(c, m.node) && m.epoch <= m.currentEpoch)
  }

  predicate HeardOk(c: Cluster, h: (nat, nat, nat))
    requires Shaped(c)
  {
    && h.0 < |c.nodes| && h.1 < |c.nodes| && h.0 != h.1
    && h.2 in c.held[h.1] && h.2 <= c.nodes[h.0].known[h.1]
  }

  ghost predicate Inv(c: Cluster) {
    && Shaped(c)
    && (forall i | 0 <= i < |c.nodes| :: NodeOk(c, i))
    && (forall i, j | 0 <= i < |c.nodes| && 0 <= j < |c.nodes| :: KnowsOk(c, i, j))
    && (forall m | m in c.net :: PacketOk(c, m))
    && (forall h | h in c.heard :: HeardOk(c, h))
  }

  lemma {:induction false} InitInv(c: Cluster)
    requires Init(c)
    ensures Inv(c)
  {
  }

  lemma LastIsGreatest(s: seq<nat>, e: nat)
    requires Increasing(s) && e in s
    ensures e <= s[|s| - 1]
  {
    var k :| 0 <= k < |s| && s[k] == e;
  }

  /** Changing node i's view keeps the invariant if the view only grows and stays bounded. */
  lemma SetViewInv(c: Cluster, i: nat, v: View)
    requires Inv(c) && i < |c.nodes| && |v.known| == |c.nodes| && Bounded(v)
    requires forall j | 0 <= j < |c.nodes| :: c.nodes[i].known[j] <= v.known[j]
    requires forall j | 0 <= j < |c.nodes| && j != i :: v.known[j] <= Own(c, j)
    ensures Inv(SetView(c, i, v))
  {
    var r := SetView(c, i, v);
    assert NodeOk(c, i);
    forall k | 0 <= k < |r.nodes| ensures NodeOk(r, k) {
      assert NodeOk(c, k);
    }
    forall k, j | 0 <= k < |r.nodes| && 0 <= j < |r.nodes| ensures KnowsOk(r, k, j) {
      assert KnowsOk(c, k, j);
    }
    forall m | m in r.net ensures PacketOk(r, m) { assert PacketOk(c, m); }
    forall h | h in r.heard ensures HeardOk(r, h) { assert HeardOk(c, h); }
  }

  lemma LearnGrows(c: Cluster, i: nat, m: Packet)
    requires Inv(c) && Enabled(c, Deliver(i, m))
    ensures var l := Learn(c.nodes[i], m);
            && |l.known| == |c.nodes| && Bounded(l) && l.known[i] == Own(c, i) && m.configEpoch <= l.known[m.sender]
            && (forall j | 0 <= j < |c.nodes| :: c.nodes[i].known[j] <= l.known[j] <= Own(c, j))
            && (m.Update? && m.node < |c.nodes| ==> m.epoch <= Own(c, m.node) && m.epoch <= l.currentEpoch)
  {
    assert PacketOk(c, m) && NodeOk(c, m.sender) && NodeOk(c, i);
    LastIsGreatest(c.held[m.sender], m.configEpoch);
    forall j | 0 <= j < |c.nodes| ensures c.nodes[i].known[j] <= Own(c, j) {
      assert KnowsOk(c, i, j);
    }
  }

  lemma OnPacketGrows(c: Cluster, i: nat, m: Packet)
    requires Inv(c) && Enabled(c, Deliver(i, m))
    ensures var v := OnPacket(c.nodes[i], i, m);
            && |v.known| == |c.nodes| && Bounded(v)
            && (forall j | 0 <= j < |c.nodes| :: c.nodes[i].known[j] <= v.known[j])
            && (forall j | 0 <= j < |c.nodes| && j != i :: v.known[j] <= Own(c, j))
            && m.configEpoch <= v.known[m.sender]
            && (v.known[i] == Own(c, i) ||
                (&& m.Ping? && v.known[i] > Own(c, i)
                 && forall j | 0 <= j < |c.nodes| && j != i :: v.known[i] > v.known[j]))
  {
    hide NodeOk, KnowsOk, PacketOk, HeardOk, Learn;
    LearnGrows(c, i, m);
  }

  /** What every step keeps, elections and unilateral bumps included. */
  lemma StepInv(c: Cluster, s: Step)
    requires Inv(c) && Enabled(c, s)
    ensures Inv(Next(c, s))
  {
    var r := Next(c, s);
    assert NodeOk(c, s.i);
    forall j | 0 <= j < |c.nodes| ensures c.nodes[s.i].known[j] <= Own(c, j) {
      assert KnowsOk(c, s.i, j);
    }
    match s
    case Send(i) => SameNodesInv(c, r);
    case Report(i, n) => SameNodesInv(c, r);
    case Tell(i) => SameNodesInv(c, r);
    case Deliver(i, m) =>
      OnPacketGrows(c, i, m);
      SetViewInv(c, i, OnPacket(c.nodes[i], i, m));
      var w := SetView(c, i, OnPacket(c.nodes[i], i, m));
      assert PacketOk(w, m);
      assert m.Ping? ==> HeardOk(w, (i, m.sender, m.configEpoch));
      SameNodesInv(w, r);
    case Raise(i) => SetViewInv(c, i, c.nodes[i].(currentEpoch := c.nodes[i].currentEpoch + 1));
    case Adopt(i, e) => SetViewInv(c, i, c.nodes[i].(known := c.nodes[i].known[i := e]));
    case Bump(i) =>
      if r != c { SetViewInv(c, i, Fresh(c.nodes[i], i)); }
  }

  /** Packets and hearings may be added to an unchanged set of nodes. */
  lemma SameNodesInv(c: Cluster, r: Cluster)
    requires Inv(c) && r.nodes == c.nodes && r.held == c.held
    requires forall m | m in r.net :: m in c.net || PacketOk(c, m)
    requires forall h | h in r.heard :: h in c.heard || HeardOk(c, h)
    ensures Inv(r)
  {
    forall k | 0 <= k < |r.nodes| ensures NodeOk(r, k) { assert NodeOk(c, k); }
    forall k, j | 0 <= k < |r.nodes| && 0 <= j < |r.nodes| ensures KnowsOk(r, k, j) {
      assert KnowsOk(c, k, j);
    }
    forall m | m in r.net ensures PacketOk(r, m) { assert m in c.net ==> PacketOk(c, m); }
    forall h | h in r.heard ensures HeardOk(r, h) { assert h in c.heard ==> HeardOk(c, h); }
  }

  // --------------------------------------------------------------------- runs

  ghost predicate Executable(c: Cluster, steps: seq<Step>)
    requires Shaped(c)
    decreases |steps|
  {
    steps == [] || (Enabled(c, steps[0]) && Executable(Next(c, steps[0]), steps[1..]))
  }

  ghost function After(c: Cluster, steps: seq<Step>): (r: Cluster)
    requires Shaped(c) && Executable(c, steps)
    ensures Shaped(r) && |r.nodes| == |c.nodes|
    decreases |steps|
  {
    if steps == [] then c else After(Next(c, steps[0]), steps[1..])
  }

  // ------------------------------------------------------------- what is learnt

  /** What a packet says of node j's configEpoch. */
  function Says(m: Packet, j: nat): nat {
    var header := if j == m.sender then m.configEpoch else 0;
    if m.Update? && j == m.node && m.epoch > header then m.epoch else header
  }

  function Greater(a: nat, b: nat): nat {
    if a > b then a else b
  }

  /** A delivered packet teaches exactly what it says: of every other node the greater of what was known
      and what the packet says, and of currentEpoch likewise. Our own epoch changes exactly on a PING
      that shows a greater node, of which we know no more, at our epoch. */
  lemma DeliverLearns(c: Cluster, i: nat, m: Packet)
    requires Inv(c) && Enabled(c, Deliver(i, m))
    ensures var v, w := c.nodes[i], Next(c, Deliver(i, m)).nodes[i];
            var moves := m.Ping? && m.sender > i && m.configEpoch == v.known[i] && v.known[m.sender] <= v.known[i];
            && (forall j | 0 <= j < |c.nodes| && j != i :: w.known[j] == Greater(v.known[j], Says(m, j)))
            && w.currentEpoch == Greater(v.currentEpoch, m.currentEpoch) + (if moves then 1 else 0)
            && w.known[i] == if moves then w.currentEpoch else v.known[i]
    ensures forall k | 0 <= k < |c.nodes| && k != i :: Next(c, Deliver(i, m)).nodes[k] == c.nodes[k]
  {
    hide NodeOk, KnowsOk, PacketOk, HeardOk;
    LearnGrows(c, i, m);
  }

  /** Nothing that is known is forgotten. */
  lemma StepGrows(c: Cluster, s: Step, i: nat, j: nat)
    requires Inv(c) && Enabled(c, s) && i < |c.nodes| && j < |c.nodes|
    ensures c.nodes[i].known[j] <= Next(c, s).nodes[i].known[j]
  {
    hide KnowsOk, PacketOk, HeardOk;
    assert NodeOk(c, i);
    if s.Deliver? { OnPacketGrows(c, s.i, s.m); }
  }

  lemma {:induction false} RunGrows(c: Cluster, steps: seq<Step>, i: nat, j: nat)
    requires Inv(c) && Executable(c, steps) && i < |c.nodes| && j < |c.nodes|
    ensures Inv(After(c, steps)) && c.nodes[i].known[j] <= After(c, steps).nodes[i].known[j]
    ensures forall m | m in c.net :: m in After(c, steps).net
    decreases |steps|
  {
    hide NodeOk, KnowsOk, PacketOk, HeardOk;
    if steps != [] {
      StepInv(c, steps[0]);
      StepGrows(c, steps[0], i, j);
      RunGrows(Next(c, steps[0]), steps[1..], i, j);
    }
  }

  /** Whatever happens before and after its delivery, a report leaves its receiver knowing at least what
      its sender knew of that node, and a PING what its sender's epoch was. */
  lemma ReportsArrive(c: Cluster, s: Step, m: Packet, before: seq<Step>, i: nat, later: seq<Step>)
    requires Inv(c) && Enabled(c, s) && Executable(Next(c, s), before)
    requires s.Report? || s.Send?
    requires s.Report? ==> m == Update(s.i, c.nodes[s.i].currentEpoch, Own(c, s.i), s.n, c.nodes[s.i].known[s.n])
    requires s.Send? ==> m == Ping(s.i, c.nodes[s.i].currentEpoch, Own(c, s.i))
    requires i < |c.nodes| && i != s.i
    ensures Enabled(After(Next(c, s), before), Deliver(i, m))
    ensures var d := Next(After(Next(c, s), before), Deliver(i, m));
            Executable(d, later) ==>
              var n := if s.Report? then s.n else s.i;
              After(d, later).nodes[i].known[n] >= c.nodes[s.i].known[n]
  {
    hide NodeOk, PacketOk, HeardOk;
    var n := if s.Report? then s.n else s.i;
    StepInv(c, s);
    assert KnowsOk(c, s.i, i);
    StepGrows(c, s, i, n);
    assert m in Next(c, s).net;
    RunGrows(Next(c, s), before, i, n);
    var b := After(Next(c, s), before);
    var d := Next(b, Deliver(i, m));
    DeliverLearns(b, i, m);
    StepInv(b, Deliver(i, m));
    StepGrows(b, Deliver(i, m), i, n);
    if Executable(d, later) { RunGrows(d, later, i, n); }
  }

  // ---------------------------------------------------------- collision runs

  /** Runs in which epochs change only because of collisions. */
  predicate Gossip(s: Step) {
    s.Send? || s.Report? || s.Tell? || s.Deliver?
  }

  /** How many of the steps made some node change its configEpoch. */
  ghost function Moves(c: Cluster, steps: seq<Step>): nat
    requires Shaped(c) && Executable(c, steps)
    decreases |steps|
  {
    if steps == [] then 0
    else (if Own(Next(c, steps[0]), steps[0].i) != Own(c, steps[0].i) then 1 else 0)
         + Moves(Next(c, steps[0]), steps[1..])
  }

  /** Some node with a greater ID has held epoch e. */
  predicate HeldAbove(c: Cluster, i: nat, e: nat)
    requires Shaped(c)
  {
    exists j | i < j < |c.nodes| :: e in c.held[j]
  }

  /** Every epoch a node has left was at some time held by a greater node; and a node
      that heard the latest epoch of a greater one no longer shares it. */
  ghost predicate CollisionInv(c: Cluster) {
    && Inv(c)
    && (forall i, k | 0 <= i < |c.nodes| && 0 <= k < |c.held[i]| - 1 :: HeldAbove(c, i, c.held[i][k]))
    && (forall h | h in c.heard :: Apart(c, h))
  }

  predicate Apart(c: Cluster, h: (nat, nat, nat))
    requires Shaped(c)
  {
    h.0 < h.1 < |c.nodes| && h.2 == Own(c, h.1) ==> Own(c, h.0) != h.2
  }

  lemma HeldAboveGrows(c: Cluster, r: Cluster, i: nat, e: nat)
    requires Shaped(c) && Shaped(r) && |r.nodes| == |c.nodes|
    requires forall j | 0 <= j < |c.nodes| :: c.held[j] <= r.held[j]
    requires HeldAbove(c, i, e)
    ensures HeldAbove(r, i, e)
  {
    var j :| i < j < |c.nodes| && e in c.held[j];
    assert e in r.held[j];
  }

  /** Node i leaves only the epoch the packet's sender held. */
  lemma DeliverLeaves(c: Cluster, i: nat, m: Packet, k: nat, p: nat)
    requires CollisionInv(c) && Enabled(c, Deliver(i, m)) && k < |c.nodes|
    requires p < |Next(c, Deliver(i, m)).held[k]| - 1
    ensures HeldAbove(Next(c, Deliver(i, m)), k, Next(c, Deliver(i, m)).held[k][p])
  {
    var r := Next(c, Deliver(i, m));
    if p < |c.held[k]| - 1 {
      assert HeldAbove(c, k, c.held[k][p]);
      HeldAboveGrows(c, r, k, c.held[k][p]);
    } else {
      OnPacketGrows(c, i, m);
      assert PacketOk(c, m) && NodeOk(c, i);
      assert Collides(Learn(c.nodes[i], m), i, m);
      assert m.configEpoch in r.held[m.sender];
    }
  }

  lemma DeliverApart(c: Cluster, i: nat, m: Packet, h: (nat, nat, nat))
    requires CollisionInv(c) && Enabled(c, Deliver(i, m))
    requires h in Next(c, Deliver(i, m)).heard
    ensures Apart(Next(c, Deliver(i, m)), h)
  {
    hide OnPacket, HeldAbove;
    OnPacketGrows(c, i, m);
    if h in c.heard {
      assert Apart(c, h) && HeardOk(c, h) && NodeOk(c, h.1);
      LastIsGreatest(c.held[h.1], h.2);
    } else {
      assert h == (i, m.sender, m.configEpoch);
      PingApart(c, i, m);
    }
  }

  /** A PING with its sender's present epoch leaves a smaller node at another one. */
  lemma PingApart(c: Cluster, i: nat, m: Packet)
    requires Inv(c) && Enabled(c, Deliver(i, m)) && m.Ping?
    ensures i < m.sender && m.configEpoch == Own(c, m.sender) ==> OnPacket(c.nodes[i], i, m).known[i] != m.configEpoch
  {
    assert KnowsOk(c, i, m.sender) && NodeOk(c, i) && PacketOk(c, m);
  }

  lemma DeliverCollision(c: Cluster, i: nat, m: Packet)
    requires CollisionInv(c) && Enabled(c, Deliver(i, m))
    ensures CollisionInv(Next(c, Deliver(i, m)))
  {
    var r := Next(c, Deliver(i, m));
    StepInv(c, Deliver(i, m));
    forall k, p | 0 <= k < |r.nodes| && 0 <= p < |r.held[k]| - 1
      ensures HeldAbove(r, k, r.held[k][p])
    {
      DeliverLeaves(c, i, m, k, p);
    }
    forall h | h in r.heard ensures Apart(r, h) { DeliverApart(c, i, m, h); }
  }

  lemma GossipCollision(c: Cluster, s: Step)
    requires CollisionInv(c) && Enabled(c, s) && Gossip(s)
    ensures CollisionInv(Next(c, s))
  {
    if s.Deliver? {
      DeliverCollision(c, s.i, s.m);
    } else {
      StepInv(c, s);
      var r := Next(c, s);
      assert r.nodes == c.nodes && r.held == c.held && r.heard == c.heard;
      forall k, p | 0 <= k < |r.nodes| && 0 <= p < |r.held[k]| - 1
        ensures HeldAbove(r, k, r.held[k][p])
      {
        HeldAboveGrows(c, r, k, c.held[k][p]);
      }
      forall h | h in r.heard ensures Apart(r, h) { assert Apart(c, h); }
    }
  }

  lemma {:induction false} GossipRun(c: Cluster, steps: seq<Step>)
    requires CollisionInv(c) && Executable(c, steps)
    requires forall s | s in steps :: Gossip(s)
    ensures CollisionInv(After(c, steps))
    decreases |steps|
  {
    if steps != [] {
      GossipCollision(c, steps[0]);
      GossipRun(Next(c, steps[0]), steps[1..]);
    }
  }

  /** Epochs held by nodes i, i+1, ... in all. */
  function HeldFrom(held: seq<seq<nat>>, i: nat): nat
    requires i <= |held|
    decreases |held| - i
  {
    if i == |held| then 0 else |held[i]| + HeldFrom(held, i + 1)
  }

  function Pool(held: seq<seq<nat>>, i: nat): (p: seq<nat>)
    requires i <= |held|
    ensures |p| == HeldFrom(held, i)
    ensures forall j, e | i <= j < |held| && e in held[j] :: e in p
    decreases |held| - i
  {
    if i == |held| then [] else held[i] + Pool(held, i + 1)
  }

  /** A node leaves only epochs that nodes above it have held, each one once. */
  lemma LeavesAtMost(c: Cluster, i: nat)
    requires CollisionInv(c) && i < |c.nodes|
    ensures |c.held[i]| - 1 <= HeldFrom(c.held, i + 1)
  {
    assert NodeOk(c, i);
    var left := c.held[i][..|c.held[i]| - 1];
    var pool := Pool(c.held, i + 1);
    forall k | 0 <= k < |left| ensures left[k] in pool {
      assert HeldAbove(c, i, c.held[i][k]);
    }
    Pigeonhole(left, pool);
  }

  /** So every node holds at most one epoch more than all the nodes above it together. */
  lemma {:induction false} HeldBound(c: Cluster, i: nat)
    requires CollisionInv(c) && i <= |c.nodes|
    ensures HeldFrom(c.held, i) <= Pow2(|c.nodes| - i) - 1
    decreases |c.nodes| - i
  {
    if i < |c.nodes| {
      LeavesAtMost(c, i);
      HeldBound(c, i + 1);
    }
  }

  lemma {:induction false} HeldSet(held: seq<seq<nat>>, i: nat, k: nat, s: seq<nat>)
    requires i <= k < |held|
    ensures HeldFrom(held[k := s], i) == HeldFrom(held, i) - |held[k]| + |s|
    decreases k - i
  {
    if i < k {
      HeldSet(held, i + 1, k, s);
    } else {
      HeldSame(held, held[k := s], k + 1);
    }
  }

  lemma {:induction false} HeldSame(a: seq<seq<nat>>, b: seq<seq<nat>>, i: nat)
    requires |a| == |b| && i <= |a| && a[i..] == b[i..]
    ensures HeldFrom(a, i) == HeldFrom(b, i)
    decreases |a| - i
  {
    if i < |a| {
      assert a[i] == a[i..][0] == b[i];
      assert a[i + 1..] == a[i..][1..] == b[i + 1..];
      HeldSame(a, b, i + 1);
    }
  }

  lemma {:induction false} MovesAreHeld(c: Cluster, steps: seq<Step>)
    requires CollisionInv(c) && Executable(c, steps)
    requires forall s | s in steps :: Gossip(s)
    ensures HeldFrom(After(c, steps).held, 0) == HeldFrom(c.held, 0) + Moves(c, steps)
    decreases |steps|
  {
    if steps != [] {
      var r := Next(c, steps[0]);
      GossipCollision(c, steps[0]);
      MovesAreHeld(r, steps[1..]);
      HeldSet(c.held, 0, steps[0].i, r.held[steps[0].i]);
    }
  }

  lemma {:induction false} InitHeld(c: Cluster, i: nat)
    requires Init(c) && i <= |c.nodes|
    ensures HeldFrom(c.held, i) == |c.nodes| - i
    decreases |c.nodes| - i
  {
    if i < |c.nodes| { InitHeld(c, i + 1); }
  }

  /** Collisions always resolve: whatever packets are delayed, repeated or lost, n masters
      make at most 2^n - 1 - n epoch changes, and the greatest node ID makes none. */
  lemma CollisionsEnd(c: Cluster, steps: seq<Step>)
    requires Init(c) && Executable(c, steps)
    requires forall s | s in steps :: Gossip(s)
    ensures Moves(c, steps) <= Pow2(|c.nodes|) - 1 - |c.nodes|
    ensures |c.nodes| > 0 ==> Own(After(c, steps), |c.nodes| - 1) == Own(c, |c.nodes| - 1)
  {
    InitInv(c);
    GossipRun(c, steps);
    HeldBound(After(c, steps), 0);
    InitHeld(c, 0);
    MovesAreHeld(c, steps);
    if |c.nodes| > 0 { GreatestStays(c, steps); }
  }

  lemma {:induction false} GreatestStays(c: Cluster, steps: seq<Step>)
    requires Inv(c) && |c.nodes| > 0 && Executable(c, steps)
    requires forall s | s in steps :: Gossip(s)
    ensures Own(After(c, steps), |c.nodes| - 1) == Own(c, |c.nodes| - 1)
    decreases |steps|
  {
    if steps != [] {
      var r := Next(c, steps[0]);
      assert Own(r, |c.nodes| - 1) == Own(c, |c.nodes| - 1) by {
        assert Gossip(steps[0]);
        if steps[0].Deliver? { OnPacketGrows(c, steps[0].i, steps[0].m); }
      }
      StepInv(c, steps[0]);
      GreatestStays(r, steps[1..]);
    }
  }

  /** Every node has heard, in a PING, the epoch each greater node has now. */
  ghost predicate AllHeard(c: Cluster)
    requires Shaped(c)
  {
    forall i, j | 0 <= i < j < |c.nodes| :: (i, j, Own(c, j)) in c.heard
  }

  ghost predicate AllDiffer(c: Cluster)
    requires Shaped(c)
  {
    forall i, j | 0 <= i < j < |c.nodes| :: Own(c, i) != Own(c, j)
  }

  lemma HeardDiffer(c: Cluster)
    requires CollisionInv(c) && AllHeard(c)
    ensures AllDiffer(c)
  {
    forall i, j | 0 <= i < j < |c.nodes| ensures Own(c, i) != Own(c, j) {
      assert Apart(c, (i, j, Own(c, j)));
    }
  }

  lemma HeardStable(c: Cluster, s: Step)
    requires CollisionInv(c) && AllHeard(c) && Enabled(c, s) && Gossip(s)
    ensures AllHeard(Next(c, s))
    ensures forall i | 0 <= i < |c.nodes| :: Own(Next(c, s), i) == Own(c, i)
  {
    if s.Deliver? {
      HeardDiffer(c);
      OnPacketGrows(c, s.i, s.m);
      if s.i < s.m.sender { assert HeardOk(c, (s.i, s.m.sender, Own(c, s.m.sender))); }
    }
    forall i, j | 0 <= i < j < |c.nodes| ensures (i, j, Own(Next(c, s), j)) in Next(c, s).heard {
      assert (i, j, Own(c, j)) in c.heard;
    }
  }

  /** Once everybody has heard everybody's latest epoch, all masters hold different
      epochs and no packet, however stale, makes any of them move again. */
  lemma {:induction false} SettledForever(c: Cluster, before: seq<Step>, later: seq<Step>)
    requires Init(c) && Executable(c, before) && Executable(After(c, before), later)
    requires forall s | s in before + later :: Gossip(s)
    requires AllHeard(After(c, before))
    ensures AllDiffer(After(c, before))
    ensures Moves(After(c, before), later) == 0
  {
    InitInv(c);
    assert forall s | s in before :: s in before + later;
    assert forall s | s in later :: s in before + later;
    GossipRun(c, before);
    HeardDiffer(After(c, before));
    NoMoves(After(c, before), later);
  }

  lemma {:induction false} NoMoves(c: Cluster, steps: seq<Step>)
    requires CollisionInv(c) && AllHeard(c) && Executable(c, steps)
    requires forall s | s in steps :: Gossip(s)
    ensures Moves(c, steps) == 0
    decreases |steps|
  {
    if steps != [] {
      HeardStable(c, steps[0]);
      GossipCollision(c, steps[0]);
      NoMoves(Next(c, steps[0]), steps[1..]);
    }
  }

  // ------------------------------------------------------------ settling down

  lemma {:induction false} RunAppend(c: Cluster, a: seq<Step>, b: seq<Step>)
    requires Shaped(c) && Executable(c, a) && Executable(After(c, a), b)
    ensures Executable(c, a + b) && After(c, a + b) == After(After(c, a), b)
    ensures Moves(c, a + b) == Moves(c, a) + Moves(After(c, a), b)
    decreases |a|
  {
    hide Enabled, Next;
    if a == [] {
      assert a + b == b;
    } else {
      assert (a + b)[1..] == a[1..] + b;
      RunAppend(Next(c, a[0]), a[1..], b);
    }
  }

  lemma {:induction false} HeardGrows(c: Cluster, steps: seq<Step>)
    requires Shaped(c) && Executable(c, steps)
    ensures c.heard <= After(c, steps).heard
    decreases |steps|
  {
    if steps != [] { HeardGrows(Next(c, steps[0]), steps[1..]); }
  }

  /** Node j sends a PING that node i hears. */
  lemma Hears(c: Cluster, i: nat, j: nat) returns (steps: seq<Step>)
    requires CollisionInv(c) && i < |c.nodes| && j < |c.nodes| && i != j
    ensures Executable(c, steps) && CollisionInv(After(c, steps)) && (forall s | s in steps :: Gossip(s))
    ensures (i, j, Own(c, j)) in After(c, steps).heard
    ensures Moves(c, steps) == 0 ==> forall k | 0 <= k < |c.nodes| :: Own(After(c, steps), k) == Own(c, k)
  {
    hide NodeOk, KnowsOk, PacketOk, HeardOk, HeldAbove, Apart, Moves;
    var m := Ping(j, c.nodes[j].currentEpoch, Own(c, j));
    var d := Next(c, Send(j));
    GossipCollision(c, Send(j));
    GossipCollision(d, Deliver(i, m));
    steps := [Send(j), Deliver(i, m)];
    TwoSteps(c, Send(j), Deliver(i, m));
  }

  lemma TwoSteps(c: Cluster, a: Step, b: Step)
    requires Shaped(c) && Enabled(c, a) && Enabled(Next(c, a), b)
    ensures Executable(c, [a, b]) && After(c, [a, b]) == Next(Next(c, a), b)
    ensures var d := Next(c, a);
            Moves(c, [a, b]) ==
            (if Own(d, a.i) != Own(c, a.i) then 1 else 0) + if Own(Next(d, b), b.i) != Own(d, b.i) then 1 else 0
  {
    hide Enabled, Next;
    var d := Next(c, a);
    assert [a, b][1..] == [b] && [b][1..] == [];
    assert Executable(Next(d, b), []) && Executable(d, [b]);
    assert After(d, [b]) == Next(d, b) && Moves(Next(d, b), []) == 0;
  }

  predicate FromPair(a: nat, b: nat, i: nat, j: nat) {
    a > i || (a == i && b >= j)
  }

  /** From the pair (i, j) on, every node hears every greater one, or somebody moves. */
  lemma {:induction false} Round(c: Cluster, i: nat, j: nat) returns (steps: seq<Step>)
    requires CollisionInv(c) && i <= |c.nodes| && j <= |c.nodes|
    ensures Executable(c, steps) && (forall s | s in steps :: Gossip(s))
    ensures Moves(c, steps) > 0 ||
            forall a, b | 0 <= a < b < |c.nodes| && FromPair(a, b, i, j) :: (a, b, Own(c, b)) in After(c, steps).heard
    decreases |c.nodes| - i, |c.nodes| - j
  {
    hide NodeOk, KnowsOk, PacketOk, HeardOk, HeldAbove, Apart;
    if i == |c.nodes| {
      steps := [];
    } else if j == |c.nodes| {
      steps := Round(c, i + 1, 0);
    } else if j <= i {
      steps := Round(c, i, j + 1);
    } else {
      var first := Hears(c, i, j);
      var e := After(c, first);
      var rest := Round(e, i, j + 1);
      RunAppend(c, first, rest);
      HeardGrows(e, rest);
      steps := first + rest;
    }
  }

  /** From every state that gossip can lead to, some more gossip settles the cluster for good: the
      moves run out, and a round without one lets every node hear every greater one. */
  lemma {:induction false} Settles(c: Cluster) returns (steps: seq<Step>)
    requires CollisionInv(c)
    ensures Executable(c, steps) && (forall s | s in steps :: Gossip(s))
    ensures AllHeard(After(c, steps)) && AllDiffer(After(c, steps))
    decreases Pow2(|c.nodes|) - HeldFrom(c.held, 0)
  {
    hide NodeOk, KnowsOk, PacketOk, HeardOk, HeldAbove, Apart, HeldFrom, Executable, After, Moves;
    var first := Round(c, 0, 0);
    var d := After(c, first);
    GossipRun(c, first);
    if Moves(c, first) == 0 {
      NoneMoved(c, first);
      steps := first;
      HeardDiffer(d);
    } else {
      MovesAreHeld(c, first);
      HeldBound(d, 0);
      var rest := Settles(d);
      RunAppend(c, first, rest);
      steps := first + rest;
    }
  }

  lemma {:induction false} NoneMoved(c: Cluster, steps: seq<Step>)
    requires Inv(c) && Executable(c, steps) && (forall s | s in steps :: Gossip(s)) && Moves(c, steps) == 0
    ensures forall k | 0 <= k < |c.nodes| :: Own(After(c, steps), k) == Own(c, k)
    decreases |steps|
  {
    if steps != [] {
      StepInv(c, steps[0]);
      NoneMoved(Next(c, steps[0]), steps[1..]);
    }
  }

  /** Collisions always resolve: any run of gossip can be continued by gossip to a state where all
      masters hold different epochs, and from there none ever moves again. */
  lemma AlwaysResolvable(c: Cluster, before: seq<Step>) returns (steps: seq<Step>)
    requires Init(c) && Executable(c, before) && (forall s | s in before :: Gossip(s))
    ensures Executable(After(c, before), steps) && (forall s | s in steps :: Gossip(s))
    ensures var d := After(After(c, before), steps);
            && AllHeard(d) && AllDiffer(d)
            && forall later: seq<Step> | Executable(d, later) && (forall s | s in later :: Gossip(s)) ::
                 Moves(d, later) == 0
  {
    hide NodeOk, KnowsOk, PacketOk, HeardOk, HeldAbove, Apart, AllHeard, AllDiffer, Executable, After, Moves;
    InitCollision(c);
    GossipRun(c, before);
    steps := Settles(After(c, before));
    GossipRun(After(c, before), steps);
    var d := After(After(c, before), steps);
    forall later: seq<Step> | Executable(d, later) && (forall s | s in later :: Gossip(s))
      ensures Moves(d, later) == 0
    {
      NoMoves(d, later);
    }
  }

  lemma InitCollision(c: Cluster)
    requires Init(c)
    ensures CollisionInv(c)
  {
    InitInv(c);
  }

  /** The bound is reached: two masters that start with the same epoch make their one move. */
  lemma TwoMastersCollide() returns (c: Cluster, steps: seq<Step>)
    ensures Init(c) && |c.nodes| == 2 && Executable(c, steps) && (forall s | s in steps :: Gossip(s))
    ensures Moves(c, steps) == 1 == Pow2(2) - 1 - 2
  {
    var v, m := View(1, [1, 1]), Ping(1, 1, 1);
    c := Cluster([v, v], {}, [[1], [1]], {});
    steps := [Send(1), Deliver(0, m)];
    var d := Next(c, Send(1));
    assert steps[1..] == [Deliver(0, m)] && steps[1..][1..] == [];
    assert OnPacket(v, 0, m) == View(2, [2, 1]);
    var e := Next(d, Deliver(0, m));
    assert Own(e, 0) == 2 && Own(d, 0) == 1;
    assert Executable(e, []) && Executable(d, [Deliver(0, m)]);
    assert Moves(e, []) == 0 && Moves(d, [Deliver(0, m)]) == 1;
  }
}
