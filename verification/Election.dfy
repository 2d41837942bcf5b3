/** Replica election: a replica whose master failed asks the masters serving slots for
    their vote in a fresh epoch and takes over once a majority agreed. */
module Election {
  import opened Sequences
  import opened Wrappers

  // ---------------------------------------------------- one node's handlers

  /** The election fields of a node. `authSent` is false from the moment an election is
      scheduled until votes are asked for. */
  datatype NodeState = NodeState(currentEpoch: nat, configEpoch: nat, lastVoteEpoch: nat,
                                 authTime: int, authCount: nat, authSent: bool, authEpoch: nat)

  const SLOTS: nat := 16384

  type Bitmap = b: seq<bool> | |b| == SLOTS witness seq(SLOTS, _ => false)
  type Owners = o: seq<Option<nat>> | |o| == SLOTS witness seq(SLOTS, _ => None)

  /** The request for a vote: the election's epoch, and the slots of the asking node's master with the
      configEpoch under which they are claimed. */
  datatype Request = Request(candidate: nat, currentEpoch: nat, configEpoch: nat, slots: Bitmap, forceAck: bool)

  /** What a node thinks of another: a master, a replica of an unknown master, or of a known one. */
  datatype Peer = IsMaster | Orphan | ReplicaOf(master: nat)

  /** What a voter knows: the other nodes, those it holds for failed, the owner of each slot, everybody's
      configEpoch, when it last voted about a master, and its clock. */
  datatype View = View(peers: map<nat, Peer>, failed: set<nat>, owners: Owners, epochs: map<nat, nat>,
                       voted: map<nat, int>, clock: int)

  function EpochOf(v: View, n: nat): nat {
    if n in v.epochs then v.epochs[n] else 0
  }

  function VotedTime(v: View, master: nat): int {
    if master in v.voted then v.voted[master] else 0
  }

  function Max(a: int, b: int): int {
    if a > b then a else b
  }

  /** Conditions for a vote that are not about our own epochs: the asking node is a replica
      of a failed master (or forces the matter), we did not just vote about that master, and
      no slot it claims is held under a newer configuration. */
  predicate Willing(v: View, req: Request, now: int, nodeTimeout: nat)
    requires req.candidate in v.peers
  {
    var p := v.peers[req.candidate];
    && p.ReplicaOf? && (p.master in v.failed || req.forceAck)
    && now - VotedTime(v, p.master) >= nodeTimeout * 2
    && forall j | 0 <= j < SLOTS && req.slots[j] && v.owners[j].Some? ::
         EpochOf(v, v.owners[j].value) <= req.configEpoch
  }

  /** Receiving a vote request: learn its epoch, then vote at most once in that epoch. */
  function OnRequest(s: NodeState, v: View, serving: bool, req: Request, now: int, nodeTimeout: nat)
    : (NodeState, View, bool)
    requires req.candidate in v.peers
  {
    var l := s.(currentEpoch := Max(s.currentEpoch, req.currentEpoch));
    if && serving && req.currentEpoch >= l.currentEpoch && l.lastVoteEpoch != l.currentEpoch
       && Willing(v, req, now, nodeTimeout)
    then (l.(lastVoteEpoch := l.currentEpoch), v.(voted := v.voted[v.peers[req.candidate].master := now]), true)
    else (l, v, false)
  }

  /** Receiving a vote: counted when it comes from a master serving slots whose
      currentEpoch has reached our election. */
  function OnAck(s: NodeState, epoch: nat, serving: bool): NodeState {
    var l := s.(currentEpoch := Max(s.currentEpoch, epoch));
    if serving && epoch >= l.authEpoch then l.(authCount := l.authCount + 1) else l
  }

  /** How the votes in authCount came about: the masters whose vote for the running election
      was counted, and the votes of earlier elections counted after the count was reset. */
  datatype Tally = Tally(counted: set<nat>, expired: nat)

  /** The counter is the masters counted in this election plus the expired votes; before votes
      have been asked for, every counted vote is an expired one. */
  predicate Accounts(n: NodeState, t: Tally) {
    n.authCount == |t.counted| + t.expired && (!n.authSent ==> t.counted == {})
  }

  /** A vote is counted for the running election, or for none if votes have not been asked for. */
  function Tallied(n: NodeState, t: Tally, epoch: nat, voter: nat, serving: bool): Tally {
    if !(serving && epoch >= n.authEpoch) then t
    else if n.authSent then t.(counted := t.counted + {voter})
    else t.(expired := t.expired + 1)
  }

  /** What a replica reads before deciding on its failover: the clock, itself and its master, whether
      its data are recent enough, manual failover flags, the delays to apply, the number of masters
      serving slots, the node timeout, and its master's slots and configEpoch. */
  datatype Env = Env(now: int, replica: bool, masterFailed: bool, masterServes: bool, noFailover: bool,
                     dataRecent: bool, manualStarted: bool, manualPending: bool,
                     delay: nat, rankDelay: nat, size: nat, nodeTimeout: int, slots: Bitmap, masterEpoch: nat)

  /** Whether a failover is due at all. */
  predicate Due(env: Env) {
    && env.replica && env.masterServes
    && (env.masterFailed || env.manualStarted) && (!env.noFailover || env.manualStarted)
    && (env.dataRecent || env.manualStarted)
  }

  datatype Action = Nothing | AskVotes | TakeOver

  function Timeout(env: Env): int {
    Max(env.nodeTimeout * 2, 2000)
  }

  function Schedule(s: NodeState, env: Env): NodeState {
    s.(authTime := if env.manualPending then env.now else env.now + env.delay, authCount := 0, authSent := false)
  }

  function Start(s: NodeState): NodeState {
    s.(currentEpoch := s.currentEpoch + 1, authEpoch := s.currentEpoch + 1, authSent := true)
  }

  function OnFailoverTimer(s: NodeState, env: Env): (NodeState, Action) {
    var age := env.now - s.authTime;
    if !Due(env) then (s, Nothing)
    else if age > Timeout(env) * 2 then (Schedule(s, env), Nothing)
    else
      var d := if !s.authSent && !env.manualPending then s.(authTime := s.authTime + env.rankDelay) else s;
      if env.now < d.authTime || age > Timeout(env) then (d, Nothing)
      else if !d.authSent then (Start(d), AskVotes)
      else if d.authCount >= env.size / 2 + 1
      then (d.(configEpoch := Max(d.configEpoch, d.authEpoch)), TakeOver)
      else (d, Nothing)
  }

  /** The fields in place, with the handlers as the server runs them. */
  class Node {
    var currentEpoch: nat
    var configEpoch: nat
    var lastVoteEpoch: nat
    var authTime: int
    var authCount: nat
    var authSent: bool
    var authEpoch: nat
    var view: View

    ghost function State(): NodeState reads this {
      NodeState(currentEpoch, configEpoch, lastVoteEpoch, authTime, authCount, authSent, authEpoch)
    }

    method SendFailoverAuthIfNeeded(req: Request, serving: bool, now: int, nodeTimeout: nat) returns (granted: bool)
      requires req.candidate in view.peers
      modifies this
      ensures (State(), view, granted) == OnRequest(old(State()), old(view), serving, req, now, nodeTimeout)
      ensures granted ==> lastVoteEpoch == req.currentEpoch && old(lastVoteEpoch) != req.currentEpoch
      ensures granted ==> Entitled(old(view), req) && Rested(old(view), req, now, nodeTimeout)
    {
      if req.currentEpoch > currentEpoch { currentEpoch := req.currentEpoch; }
      granted := false;
      if !serving || req.currentEpoch < currentEpoch || lastVoteEpoch == currentEpoch { return; }
      var node := view.peers[req.candidate];
      if !node.ReplicaOf? || (node.master !in view.failed && !req.forceAck) { return; }
      if now - VotedTime(view, node.master) < nodeTimeout * 2 { return; }
      var j := 0;
      while j < SLOTS
        invariant 0 <= j <= SLOTS
        invariant forall k | 0 <= k < j && req.slots[k] && view.owners[k].Some? ::
                    EpochOf(view, view.owners[k].value) <= req.configEpoch
      {
        if req.slots[j] && view.owners[j].Some? && EpochOf(view, view.owners[j].value) > req.configEpoch { return; }
        j := j + 1;
      }
      lastVoteEpoch := currentEpoch;
      view := view.(voted := view.voted[node.master := now]);
      granted := true;
    }

    /** The counter goes on counting distinct masters and expired votes, and nothing else. */
    method ProcessAuthAck(epoch: nat, serving: bool, ghost voter: nat, ghost t: Tally) returns (ghost u: Tally)
      modifies this
      ensures State() == OnAck(old(State()), epoch, serving)
      ensures u == Tallied(old(State()), t, epoch, voter, serving)
      ensures old(Accounts(State(), t)) && voter !in t.counted ==> Accounts(State(), u)
      ensures old(authSent) ==> u.expired == t.expired
    {
      u := Tallied(State(), t, epoch, voter, serving);
      if epoch > currentEpoch { currentEpoch := epoch; }
      if serving && epoch >= authEpoch { authCount := authCount + 1; }
    }

    method HandleSlaveFailover(env: Env) returns (action: Action)
      modifies this
      ensures (State(), action) == OnFailoverTimer(old(State()), env)
      ensures action.AskVotes? ==> authEpoch == currentEpoch > old(currentEpoch)
      ensures action.TakeOver? ==> authCount >= env.size / 2 + 1 && configEpoch >= authEpoch
      ensures !action.Nothing? ==> HasReason(env) && authTime <= env.now <= old(authTime) + Timeout(env)
    {
      action := Nothing;
      var age := env.now - authTime;
      var authTimeout := env.nodeTimeout * 2;
      if authTimeout < 2000 { authTimeout := 2000; }
      if !env.replica || (!env.masterFailed && !env.manualStarted) || (env.noFailover && !env.manualStarted)
         || !env.masterServes { return; }
      if !env.dataRecent && !env.manualStarted { return; }
      if age > authTimeout * 2 {
        authTime := if env.manualPending then env.now else env.now + env.delay;
        authCount, authSent := 0, false;
        return;
      }
      if !authSent && !env.manualPending { authTime := authTime + env.rankDelay; }
      if env.now < authTime { return; }
      if age > authTimeout { return; }
      if !authSent {
        currentEpoch := currentEpoch + 1;
        authEpoch := currentEpoch;
        authSent := true;
        return AskVotes;
      }
      if authCount >= env.size / 2 + 1 {
        if configEpoch < authEpoch { configEpoch := authEpoch; }
        return TakeOver;
      }
    }
  }

  // ------------------------------------------------------------ the cluster

  datatype Vote = Vote(voter: nat, candidate: nat, epoch: nat)

  datatype Win = Win(candidate: nat, epoch: nat, tally: Tally, env: Env)

  /** The request a vote answers, what its voter knew then, and the time. */
  datatype Grant = Grant(request: Request, view: View, now: int)

  /** A fixed set of masters serve slots. `requests` are never removed (they may arrive late or twice);
      with each goes what its candidate read. `acks` are the votes in flight; `votes`, `grants`,
      `tallies` and `wins` are history no handler reads. */
  datatype Cluster = Cluster(masters: set<nat>, nodeTimeout: nat, nodes: seq<NodeState>, views: seq<View>,
                             requests: map<Request, Env>, acks: set<Vote>,
                             votes: set<Vote>, grants: map<Vote, Grant>, tallies: seq<Tally>, wins: set<Win>)

  datatype Step =
    | Learn(i: nat, epoch: nat)                              // any other packet raised currentEpoch
    | Observe(i: nat, view: View)                            // gossip, failure detection, slot claims
    | Receive(i: nat, request: Request, now: int)
    | Count(i: nat, vote: Vote)
    | Timer(i: nat, env: Env)

  predicate Shaped(c: Cluster) {
    |c.tallies| == |c.nodes| == |c.views|
  }

  predicate Enabled(c: Cluster, s: Step) {
    && Shaped(c) && s.i < |c.nodes|
    && match s
       case Learn(_, _) => true
       case Observe(i, v) => v.voted == c.views[i].voted && v.clock >= c.views[i].clock
       case Receive(i, q, now) => q in c.requests && q.candidate in c.views[i].peers && now >= c.views[i].clock
       case Count(i, v) => v in c.acks && v.candidate == i
       case Timer(i, env) => env.size == |c.masters|
  }

  function Next(c: Cluster, s: Step): (r: Cluster)
    requires Shaped(c) && Enabled(c, s)
    ensures Shaped(r) && |r.nodes| == |c.nodes| && r.masters == c.masters && r.nodeTimeout == c.nodeTimeout
  {
    match s
    case Learn(i, e) => c.(nodes := c.nodes[i := c.nodes[i].(currentEpoch := Max(c.nodes[i].currentEpoch, e))])
    case Observe(i, v) => c.(views := c.views[i := v])
    case Receive(i, q, now) =>
      var (n, v, granted) := OnRequest(c.nodes[i], c.views[i], i in c.masters, q, now, c.nodeTimeout);
      var d := c.(nodes := c.nodes[i := n], views := c.views[i := v.(clock := now)]);
      var vote := Vote(i, q.candidate, q.currentEpoch);
      if !granted then d
      else d.(acks := c.acks + {vote}, votes := c.votes + {vote}, grants := c.grants[vote := Grant(q, c.views[i], now)])
    case Count(i, v) =>
      var n := OnAck(c.nodes[i], v.epoch, v.voter in c.masters);
      c.(nodes := c.nodes[i := n], acks := c.acks - {v},
         tallies := c.tallies[i := Tallied(c.nodes[i], c.tallies[i], v.epoch, v.voter, v.voter in c.masters)])
    case Timer(i, env) =>
      var (n, action) := OnFailoverTimer(c.nodes[i], env);
      var d := c.(nodes := c.nodes[i := n],
                  tallies := if n.authCount == 0 then c.tallies[i := Tally({}, 0)] else c.tallies);
      match action
      case Nothing => d
      case AskVotes => d.(requests := c.requests[Asked(i, n.authEpoch, env) := env])
      case TakeOver => d.(wins := c.wins + {Win(i, n.authEpoch, c.tallies[i], env)})
  }

  /** The request names the master's slots; a manual failover forces the matter. */
  function Asked(i: nat, epoch: nat, env: Env): Request {
    Request(i, epoch, env.masterEpoch, env.slots, env.manualPending)
  }

  predicate Init(c: Cluster) {
    && Shaped(c) && c.requests == map[] && c.acks == {} && c.votes == {} && c.grants == map[] && c.wins == {}
    && (forall i | 0 <= i < |c.nodes| ::
          && c.nodes[i].lastVoteEpoch <= c.nodes[i].currentEpoch
          && c.nodes[i].authEpoch <= c.nodes[i].currentEpoch
          && c.nodes[i].authCount == 0 && !c.nodes[i].authSent && c.tallies[i] == Tally({}, 0))
  }

  // --------------------------------------------------------------- entitlement

  /** In this view the asking node is a replica of a failed master, or forces the matter, and claims no
      slot that is held under a greater configEpoch. */
  predicate Entitled(v: View, q: Request) {
    && q.candidate in v.peers && v.peers[q.candidate].ReplicaOf?
    && (q.forceAck || v.peers[q.candidate].master in v.failed)
    && forall j | 0 <= j < SLOTS && v.owners[j].Some? && EpochOf(v, v.owners[j].value) > q.configEpoch :: !q.slots[j]
  }

  /** The last vote about the master was long ago. */
  predicate Rested(v: View, q: Request, now: int, nodeTimeout: nat) {
    && q.candidate in v.peers && v.peers[q.candidate].ReplicaOf?
    && VotedTime(v, v.peers[q.candidate].master) + 2 * nodeTimeout <= now
  }

  /** A replica of a master with slots that failed, with recent data, unless an operator asked for it. */
  predicate HasReason(env: Env) {
    && env.replica && env.masterServes
    && (env.manualStarted || (env.masterFailed && !env.noFailover && env.dataRecent))
  }

  // --------------------------------------------------------------- invariant

  /** The vote counter is exactly the masters whose vote for this very election was
      counted plus the expired votes; and while votes have not been asked for, every
      counted vote is an expired one. */
  predicate NodeOk(c: Cluster, i: nat)
    requires Shaped(c) && i < |c.nodes|
  {
    var (n, t) := (c.nodes[i], c.tallies[i]);
    && n.lastVoteEpoch <= n.currentEpoch && n.authEpoch <= n.currentEpoch
    && Accounts(n, t)
    && t.counted <= c.masters
    && forall m | m in t.counted :: Vote(m, i, n.authEpoch) in c.votes && Vote(m, i, n.authEpoch) !in c.acks
  }

  /** A request names an epoch its candidate opened; every vote answers a request, and its
      voter will not vote in that epoch again. */
  predicate VoteOk(c: Cluster, v: Vote) {
    && v.voter < |c.nodes| && v.voter in c.masters && v.epoch <= c.nodes[v.voter].lastVoteEpoch
    && v in c.grants && c.grants[v].request in c.requests
    && v.candidate == c.grants[v].request.candidate && v.epoch == c.grants[v].request.currentEpoch
  }

  /** Every vote went to an entitled candidate, and the voter remembers when. */
  predicate GrantOk(c: Cluster, v: Vote)
    requires Shaped(c)
  {
    v in c.grants && v.voter < |c.nodes| &&
    var g := c.grants[v];
    && Entitled(g.view, g.request) && g.request.candidate == v.candidate && g.now <= c.views[v.voter].clock
    && g.now <= VotedTime(c.views[v.voter], About(g))
  }

  /** The master a vote was about. */
  function About(g: Grant): nat {
    var q := g.request.candidate;
    if q in g.view.peers && g.view.peers[q].ReplicaOf? then g.view.peers[q].master else 0
  }

  /** Two votes of a master about the same master are far apart. */
  predicate Apart(c: Cluster, v: Vote, w: Vote)
    requires v in c.grants && w in c.grants
  {
    v.voter == w.voter && About(c.grants[v]) == About(c.grants[w]) && v.epoch < w.epoch ==>
      c.grants[v].now + 2 * c.nodeTimeout <= c.grants[w].now
  }

  predicate RequestOk(c: Cluster, q: Request) {
    && q.candidate < |c.nodes| && q.currentEpoch <= c.nodes[q.candidate].authEpoch
    && q in c.requests && HasReason(c.requests[q]) && (q.forceAck <==> c.requests[q].manualPending)
  }

  predicate WinOk(c: Cluster, w: Win) {
    && w.tally.counted <= c.masters && HasReason(w.env)
    && |w.tally.counted| + w.tally.expired >= |c.masters| / 2 + 1
    && forall m | m in w.tally.counted :: Vote(m, w.candidate, w.epoch) in c.votes
  }

  /** Each master votes at most once per epoch. */
  predicate OneVotePerEpoch(votes: set<Vote>) {
    forall v, w | v in votes && w in votes && v.voter == w.voter && v.epoch == w.epoch :: v == w
  }

  ghost predicate Inv(c: Cluster) {
    && Shaped(c)
    && (forall i | 0 <= i < |c.nodes| :: NodeOk(c, i))
    && (forall q | q in c.requests :: RequestOk(c, q))
    && (forall v | v in c.votes :: VoteOk(c, v))
    && c.acks <= c.votes
    && (forall w | w in c.wins :: WinOk(c, w))
    && OneVotePerEpoch(c.votes)
  }

  lemma {:induction false} InitInv(c: Cluster)
    requires Init(c)
    ensures Inv(c)
  {
  }

  /** A step that only adds requests and votes, and leaves the votes in flight within the
      old ones plus the added ones, keeps what is said about nodes it did not touch. */
  lemma NodeFrame(c: Cluster, r: Cluster, i: nat)
    requires Shaped(c) && Shaped(r) && i < |c.nodes| == |r.nodes| && NodeOk(c, i)
    requires r.nodes[i] == c.nodes[i] && r.tallies[i] == c.tallies[i] && r.masters == c.masters
    requires c.votes <= r.votes && forall a | a in r.acks :: a in c.acks || a !in c.votes
    ensures NodeOk(r, i)
  {
  }

  /** So do requests, votes and wins, as long as epochs only grow. */
  lemma HistoryFrame(c: Cluster, r: Cluster)
    requires Inv(c) && Shaped(r) && |r.nodes| == |c.nodes| && r.masters == c.masters
    requires r.requests == c.requests && r.votes == c.votes && r.grants == c.grants
    requires forall i | 0 <= i < |c.nodes| ::
               r.nodes[i].authEpoch >= c.nodes[i].authEpoch && r.nodes[i].lastVoteEpoch >= c.nodes[i].lastVoteEpoch
    ensures forall q | q in r.requests :: RequestOk(r, q)
    ensures forall v | v in r.votes :: VoteOk(r, v)
    ensures forall w | w in c.wins :: WinOk(r, w)
  {
    hide NodeOk, HasReason;
    forall q | q in r.requests ensures RequestOk(r, q) { assert RequestOk(c, q); }
    forall v | v in r.votes ensures VoteOk(r, v) { assert VoteOk(c, v); }
    forall w | w in c.wins ensures WinOk(r, w) { assert WinOk(c, w); }
  }

  lemma LearnInv(c: Cluster, i: nat, e: nat)
    requires Inv(c) && Enabled(c, Learn(i, e))
    ensures Inv(Next(c, Learn(i, e)))
  {
    hide RequestOk, VoteOk, WinOk;
    var r := Next(c, Learn(i, e));
    assert NodeOk(c, i);
    forall k | 0 <= k < |r.nodes| ensures NodeOk(r, k) {
      if k != i { NodeFrame(c, r, k); }
    }
    HistoryFrame(c, r);
  }

  /** Views do not matter to the account of votes. */
  lemma ViewsInv(c: Cluster, views: seq<View>)
    requires Inv(c) && |views| == |c.views|
    ensures Inv(c.(views := views))
  {
    hide RequestOk, VoteOk, WinOk;
    var r := c.(views := views);
    forall k | 0 <= k < |r.nodes| ensures NodeOk(r, k) { NodeFrame(c, r, k); }
    HistoryFrame(c, r);
  }

  predicate Grants(c: Cluster, s: Step)
    requires s.Receive? && Enabled(c, s)
  {
    OnRequest(c.nodes[s.i], c.views[s.i], s.i in c.masters, s.request, s.now, c.nodeTimeout).2
  }

  /** A vote is granted only in an epoch greater than any its voter voted in before. */
  lemma GrantIsNew(c: Cluster, s: Step)
    requires Inv(c) && s.Receive? && Enabled(c, s) && Grants(c, s)
    ensures var v, r := Vote(s.i, s.request.candidate, s.request.currentEpoch), Next(c, s);
            && v !in c.votes && r.votes == c.votes + {v} && r.acks == c.acks + {v}
            && (forall u | u in c.votes && u.voter == s.i :: u.epoch < v.epoch)
            && r.nodes[s.i] == c.nodes[s.i].(currentEpoch := v.epoch, lastVoteEpoch := v.epoch)
            && r.grants == c.grants[v := Grant(s.request, c.views[s.i], s.now)] && s.i in c.masters
            && c.nodes[s.i].lastVoteEpoch < v.epoch && c.nodes[s.i].currentEpoch <= v.epoch
  {
    hide Willing, RequestOk, WinOk;
    assert NodeOk(c, s.i);
    forall u | u in c.votes ensures u.voter == s.i ==> u.epoch < s.request.currentEpoch { assert VoteOk(c, u); }
  }

  lemma GrantInv(c: Cluster, s: Step)
    requires Inv(c) && s.Receive? && Enabled(c, s) && Grants(c, s)
    ensures Inv(Next(c, s))
  {
    hide OnRequest, HasReason;
    var r := Next(c, s);
    var v := Vote(s.i, s.request.candidate, s.request.currentEpoch);
    GrantIsNew(c, s);
    assert NodeOk(c, s.i) && RequestOk(c, s.request);
    forall k | 0 <= k < |r.nodes| ensures NodeOk(r, k) {
      if k != s.i { NodeFrame(c, r, k); }
    }
    forall u | u in r.votes ensures VoteOk(r, u) {
      if u != v { assert VoteOk(c, u); }
    }
    forall q | q in r.requests ensures RequestOk(r, q) { assert RequestOk(c, q); }
    forall w | w in r.wins ensures WinOk(r, w) { assert WinOk(c, w); }
  }

  lemma ReceiveInv(c: Cluster, s: Step)
    requires Inv(c) && s.Receive? && Enabled(c, s)
    ensures Inv(Next(c, s))
  {
    hide Willing, Inv;
    if Grants(c, s) {
      GrantInv(c, s);
    } else {
      var d := Next(c, Learn(s.i, s.request.currentEpoch));
      LearnInv(c, s.i, s.request.currentEpoch);
      ViewsInv(d, Next(c, s).views);
      assert Next(c, s) == d.(views := Next(c, s).views);
    }
  }

  lemma CountNode(c: Cluster, i: nat, v: Vote)
    requires Shaped(c) && Enabled(c, Count(i, v)) && NodeOk(c, i)
    requires v in c.votes && v.epoch <= c.nodes[i].authEpoch
    ensures NodeOk(Next(c, Count(i, v)), i)
  {
    assert v.epoch == c.nodes[i].authEpoch ==> v.voter !in c.tallies[i].counted;
  }

  /** A vote counted while the election runs is a vote for this election, counted once. */
  lemma CountInv(c: Cluster, i: nat, v: Vote)
    requires Inv(c) && Enabled(c, Count(i, v))
    ensures Inv(Next(c, Count(i, v)))
  {
    hide WinOk, HasReason;
    var r := Next(c, Count(i, v));
    assert NodeOk(c, i) && VoteOk(c, v);
    assert RequestOk(c, c.grants[v].request);
    CountNode(c, i, v);
    forall k | 0 <= k < |r.nodes| ensures NodeOk(r, k) {
      if k != i { NodeFrame(c, r, k); }
    }
    HistoryFrame(c, r);
  }

  /** No election without a reason. */
  lemma ActsWithReason(s: NodeState, env: Env)
    requires !OnFailoverTimer(s, env).1.Nothing?
    ensures HasReason(env)
  {
  }

  lemma TimerNode(c: Cluster, i: nat, env: Env)
    requires Shaped(c) && Enabled(c, Timer(i, env)) && NodeOk(c, i)
    ensures var r := Next(c, Timer(i, env));
            && NodeOk(r, i) && r.nodes[i].authEpoch >= c.nodes[i].authEpoch
            && r.nodes[i].lastVoteEpoch == c.nodes[i].lastVoteEpoch
            && r == c.(nodes := r.nodes, tallies := r.tallies, requests := r.requests, wins := r.wins)
            && forall k | 0 <= k < |c.nodes| && k != i :: r.nodes[k] == c.nodes[k] && r.tallies[k] == c.tallies[k]
  {
    hide Due;
  }

  lemma TimerInv(c: Cluster, i: nat, env: Env)
    requires Inv(c) && Enabled(c, Timer(i, env))
    ensures Inv(Next(c, Timer(i, env)))
  {
    hide Due, HasReason, VoteOk;
    var r := Next(c, Timer(i, env));
    TimerNode(c, i, env);
    forall k | 0 <= k < |r.nodes| ensures NodeOk(r, k) {
      if k != i { NodeFrame(c, r, k); }
    }
    if !OnFailoverTimer(c.nodes[i], env).1.Nothing? { ActsWithReason(c.nodes[i], env); }
    TimerHistory(c, i, env);
  }

  lemma TimerHistory(c: Cluster, i: nat, env: Env)
    requires Inv(c) && Enabled(c, Timer(i, env))
    requires !OnFailoverTimer(c.nodes[i], env).1.Nothing? ==> HasReason(env)
    ensures var r := Next(c, Timer(i, env));
            && (forall q | q in r.requests :: RequestOk(r, q)) && (forall v | v in r.votes :: VoteOk(r, v))
            && (forall w | w in r.wins :: WinOk(r, w))
  {
    hide Due, HasReason;
    var r := Next(c, Timer(i, env));
    assert NodeOk(c, i);
    forall q | q in r.requests ensures RequestOk(r, q) {
      if q in c.requests { assert RequestOk(c, q); }
    }
    forall v | v in r.votes ensures VoteOk(r, v) { assert VoteOk(c, v); }
    forall w | w in r.wins ensures WinOk(r, w) {
      if w in c.wins { assert WinOk(c, w); }
    }
  }

  /** The timer raises currentEpoch only to ask for votes, by one, and configEpoch only on a win, to the
      epoch that was won. */
  lemma TimerTouches(c: Cluster, i: nat, env: Env)
    requires Shaped(c) && Enabled(c, Timer(i, env))
    ensures var r, n := Next(c, Timer(i, env)), c.nodes[i];
            var m := r.nodes[i];
            && (m.currentEpoch == n.currentEpoch ||
                (m.currentEpoch == n.currentEpoch + 1 && Asked(i, m.currentEpoch, env) in r.requests))
            && (m.configEpoch == n.configEpoch ||
                (m.configEpoch == n.authEpoch > n.configEpoch && Win(i, n.authEpoch, c.tallies[i], env) in r.wins))
            && (forall w | w in r.wins && w !in c.wins :: w.candidate == i && w.epoch == n.authEpoch <= m.configEpoch)
  {
    hide Due;
  }

  /** A step touches one node. Whoever receives something learns its epoch; nothing but the timer changes a
      configEpoch or wins. */
  lemma StepTouches(c: Cluster, s: Step)
    requires Shaped(c) && Enabled(c, s)
    ensures var r, n := Next(c, s), c.nodes[s.i];
            var m := r.nodes[s.i];
            && (forall k | 0 <= k < |c.nodes| && k != s.i ::
                  r.nodes[k] == c.nodes[k] && r.views[k] == c.views[k] && r.tallies[k] == c.tallies[k])
            && (s.Learn? ==> m.currentEpoch == Max(n.currentEpoch, s.epoch))
            && (s.Receive? ==> m.currentEpoch == Max(n.currentEpoch, s.request.currentEpoch))
            && (s.Count? ==> m.currentEpoch == Max(n.currentEpoch, s.vote.epoch))
            && (s.Observe? ==> m == n) && (!s.Timer? ==> m.configEpoch == n.configEpoch && r.wins == c.wins)
  {
    hide Willing, OnFailoverTimer;
  }

  lemma StepInv(c: Cluster, s: Step)
    requires Inv(c) && Enabled(c, s)
    ensures Inv(Next(c, s))
  {
    hide Inv;
    match s
    case Learn(i, e) => LearnInv(c, i, e);
    case Observe(i, v) => ViewsInv(c, c.views[i := v]);
    case Receive(_, _, _) => ReceiveInv(c, s);
    case Count(i, v) => CountInv(c, i, v);
    case Timer(i, env) => TimerInv(c, i, env);
  }

  // ------------------------------------------------------------- entitled votes

  ghost predicate Justified(c: Cluster) {
    && Shaped(c)
    && (forall v | v in c.votes :: GrantOk(c, v))
    && (forall v, w | v in c.votes && w in c.votes :: v in c.grants && w in c.grants && Apart(c, v, w))
  }

  /** Steps that leave the history of votes, and what voters remember of it, alone. */
  lemma JustifiedFrame(c: Cluster, r: Cluster)
    requires Justified(c) && Shaped(r) && |r.nodes| == |c.nodes| && r.nodeTimeout == c.nodeTimeout
    requires r.votes == c.votes && r.grants == c.grants
    requires forall i | 0 <= i < |c.views| ::
               r.views[i].voted == c.views[i].voted && r.views[i].clock >= c.views[i].clock
    ensures Justified(r)
  {
    hide Entitled;
    forall v | v in r.votes ensures GrantOk(r, v) { assert GrantOk(c, v); }
    forall v, w | v in r.votes && w in r.votes ensures v in r.grants && w in r.grants && Apart(r, v, w) {
      assert Apart(c, v, w);
    }
  }

  lemma GrantJustified(c: Cluster, s: Step)
    requires Inv(c) && Justified(c) && s.Receive? && Enabled(c, s) && Grants(c, s)
    ensures Justified(Next(c, s))
  {
    hide RequestOk, WinOk;
    var r := Next(c, s);
    var v := Vote(s.i, s.request.candidate, s.request.currentEpoch);
    assert NodeOk(c, s.i);
    forall u | u in c.votes ensures u != v && GrantOk(r, u) && Apart(r, u, v) && Apart(r, v, u) {
      assert VoteOk(c, u) && GrantOk(c, u);
    }
    forall u, w | u in r.votes && w in r.votes ensures u in r.grants && w in r.grants && Apart(r, u, w) {
      if u != v && w != v { assert Apart(c, u, w); }
    }
  }

  lemma StepJustified(c: Cluster, s: Step)
    requires Inv(c) && Justified(c) && Enabled(c, s)
    ensures Justified(Next(c, s))
  {
    hide Inv, Justified, Willing;
    if s.Receive? && Grants(c, s) {
      GrantJustified(c, s);
    } else {
      JustifiedFrame(c, Next(c, s));
    }
  }

  // ------------------------------------------------------------------ safety

  ghost predicate Executable(c: Cluster, steps: seq<Step>)
    requires Shaped(c)
    decreases |steps|
  {
    steps == [] || (Enabled(c, steps[0]) && Executable(Next(c, steps[0]), steps[1..]))
  }

  ghost function After(c: Cluster, steps: seq<Step>): (r: Cluster)
    requires Shaped(c) && Executable(c, steps)
    ensures Shaped(r) && r.masters == c.masters && |r.nodes| == |c.nodes|
    decreases |steps|
  {
    if steps == [] then c else After(Next(c, steps[0]), steps[1..])
  }

  lemma {:induction false} RunInv(c: Cluster, steps: seq<Step>)
    requires Inv(c) && Executable(c, steps)
    ensures Inv(After(c, steps))
    decreases |steps|
  {
    if steps != [] {
      StepInv(c, steps[0]);
      RunInv(Next(c, steps[0]), steps[1..]);
    }
  }

  lemma MajoritiesMeet(m: set<nat>, a: set<nat>, b: set<nat>)
    requires a <= m && b <= m
    requires |a| >= |m| / 2 + 1 && |b| >= |m| / 2 + 1
    ensures exists x :: x in a && x in b
  {
    SubsetCount(a + b, m);
    assert |a + b| == |a| + |b| - |a * b|;
    var x :| x in a * b;
  }

  /** Election safety, over every run: each master votes at most once per epoch, the vote
      counter exceeds the votes given in the running election by exactly the expired votes,
      and two replicas that won the same epoch without expired votes are the same one. */
  lemma ElectionSafety(c: Cluster, steps: seq<Step>)
    requires Init(c) && Executable(c, steps)
    ensures OneVotePerEpoch(After(c, steps).votes)
    ensures forall i | 0 <= i < |c.nodes| :: NodeOk(After(c, steps), i)
    ensures forall w, x | w in After(c, steps).wins && x in After(c, steps).wins
              && w.epoch == x.epoch && w.tally.expired == 0 && x.tally.expired == 0 :: w.candidate == x.candidate
  {
    InitInv(c);
    RunInv(c, steps);
    var r := After(c, steps);
    forall w, x | w in r.wins && x in r.wins && w.epoch == x.epoch && w.tally.expired == 0 && x.tally.expired == 0
      ensures w.candidate == x.candidate
    {
      assert WinOk(r, w) && WinOk(r, x);
      MajoritiesMeet(r.masters, w.tally.counted, x.tally.counted);
      var m :| m in w.tally.counted && m in x.tally.counted;
      assert Vote(m, w.candidate, w.epoch) in r.votes && Vote(m, x.candidate, x.epoch) in r.votes;
    }
  }

  lemma {:induction false} RunJustified(c: Cluster, steps: seq<Step>)
    requires Inv(c) && Justified(c) && Executable(c, steps)
    ensures Justified(After(c, steps))
    decreases |steps|
  {
    hide GrantOk, Apart, NodeOk, RequestOk, VoteOk, WinOk, Next;
    if steps != [] {
      StepInv(c, steps[0]);
      StepJustified(c, steps[0]);
      RunJustified(Next(c, steps[0]), steps[1..]);
    }
  }

  /** Over every run, each vote went to a replica whose master the voter held for failed, or that was in
      a manual failover, and that claimed no slot held under a greater configEpoch; and the votes of a
      master about the same master are two timeouts apart. */
  lemma VotesJustified(c: Cluster, steps: seq<Step>)
    requires Init(c) && Executable(c, steps)
    ensures var r := After(c, steps);
            && (forall v | v in r.votes ::
                  && v in r.grants && r.grants[v].request in r.requests
                  && Entitled(r.grants[v].view, r.grants[v].request)
                  && r.grants[v].request.candidate == v.candidate && r.grants[v].request.currentEpoch == v.epoch
                  && HasReason(r.requests[r.grants[v].request]))
            && (forall v, w | v in r.votes && w in r.votes :: v in r.grants && w in r.grants && Apart(r, v, w))
  {
    hide Entitled, HasReason, Apart, NodeOk, WinOk;
    InitInv(c);
    RunInv(c, steps);
    RunJustified(c, steps);
    var r := After(c, steps);
    forall v | v in r.votes ensures VoteOk(r, v) && GrantOk(r, v) && RequestOk(r, r.grants[v].request) {}
  }

  /** So a replica that won without expired votes was entitled in the eyes of a majority. */
  lemma WinnerEntitled(c: Cluster, steps: seq<Step>, w: Win)
    requires Init(c) && Executable(c, steps) && w in After(c, steps).wins && w.tally.expired == 0
    ensures var r := After(c, steps);
            && w.tally.counted <= r.masters && |w.tally.counted| >= |r.masters| / 2 + 1 && HasReason(w.env)
            && forall m | m in w.tally.counted ::
                 var v := Vote(m, w.candidate, w.epoch);
                 && v in r.grants && r.grants[v].request.candidate == w.candidate
                 && r.grants[v].request.currentEpoch == w.epoch
                 && Entitled(r.grants[v].view, r.grants[v].request)
  {
    hide Entitled, HasReason, Apart, NodeOk, RequestOk;
    InitInv(c);
    RunInv(c, steps);
    VotesJustified(c, steps);
    assert WinOk(After(c, steps), w);
  }

  /** The time of an election is only ever put off. */
  lemma {:induction false} PutOff(c: Cluster, steps: seq<Step>, i: nat)
    requires Shaped(c) && Executable(c, steps) && i < |c.nodes|
    ensures c.nodes[i].authTime <= After(c, steps).nodes[i].authTime
    decreases |steps|
  {
    hide Willing, Due;
    if steps != [] { PutOff(Next(c, steps[0]), steps[1..], i); }
  }

  /** Whatever happens after an election was scheduled with a delay, votes are not asked for before. */
  lemma ElectionWaits(c: Cluster, i: nat, env: Env, steps: seq<Step>, later: Env)
    requires Shaped(c) && Enabled(c, Timer(i, env)) && HasReason(env) && !env.manualPending
    requires env.now - c.nodes[i].authTime > 2 * Timeout(env) && Executable(Next(c, Timer(i, env)), steps)
    requires var d := After(Next(c, Timer(i, env)), steps);
             Enabled(d, Timer(i, later)) && Next(d, Timer(i, later)).requests != d.requests
    ensures later.now >= env.now + env.delay
  {
    PutOff(Next(c, Timer(i, env)), steps, i);
  }

  /** A vote that counts arrives while its receiver has an election scheduled but not started. */
  predicate ExpiredVote(c: Cluster, s: Step)
    requires Shaped(c) && Enabled(c, s)
  {
    s.Count? && !c.nodes[s.i].authSent && s.vote.voter in c.masters && s.vote.epoch >= c.nodes[s.i].authEpoch
  }

  /** Exactly such deliveries make a tally hold more expired votes. */
  lemma ExpiredExactly(c: Cluster, s: Step)
    requires Shaped(c) && Enabled(c, s)
    ensures ExpiredVote(c, s) <==> exists i | 0 <= i < |c.nodes| :: Next(c, s).tallies[i].expired > c.tallies[i].expired
  {
    var r := Next(c, s);
    if ExpiredVote(c, s) { assert r.tallies[s.i].expired > c.tallies[s.i].expired; }
  }

  ghost predicate NoExpiredVotes(c: Cluster, steps: seq<Step>)
    requires Shaped(c) && Executable(c, steps)
    decreases |steps|
  {
    steps == [] ||
    (&& !ExpiredVote(c, steps[0])
     && NoExpiredVotes(Next(c, steps[0]), steps[1..]))
  }

  lemma {:induction false} CleanTallies(c: Cluster, steps: seq<Step>)
    requires Inv(c) && Executable(c, steps) && NoExpiredVotes(c, steps)
    requires forall i | 0 <= i < |c.nodes| :: c.tallies[i].expired == 0
    requires forall w | w in c.wins :: w.tally.expired == 0
    ensures forall w | w in After(c, steps).wins :: w.tally.expired == 0
    decreases |steps|
  {
    if steps != [] {
      StepInv(c, steps[0]);
      CleanTallies(Next(c, steps[0]), steps[1..]);
    }
  }

  /** So in runs without such deliveries at most one replica ever wins an epoch. */
  lemma OneWinnerPerEpoch(c: Cluster, steps: seq<Step>)
    requires Init(c) && Executable(c, steps) && NoExpiredVotes(c, steps)
    ensures forall w, x | w in After(c, steps).wins && x in After(c, steps).wins && w.epoch == x.epoch
              :: w.candidate == x.candidate
  {
    InitInv(c);
    CleanTallies(c, steps);
    ElectionSafety(c, steps);
  }

  // ---------------------------------------------------------------- liveness

  lemma {:induction false} Extend(c: Cluster, steps: seq<Step>, s: Step)
    requires Shaped(c) && Executable(c, steps) && Enabled(After(c, steps), s)
    ensures Executable(c, steps + [s]) && After(c, steps + [s]) == Next(After(c, steps), s)
    decreases |steps|
  {
    var more := steps + [s];
    if steps == [] {
      assert more[1..] == [];
    } else {
      assert more[0] == steps[0] && more[1..] == steps[1..] + [s];
      Extend(Next(c, steps[0]), steps[1..], s);
    }
  }

  ghost predicate Reachable(c: Cluster, d: Cluster)
    requires Shaped(c)
  {
    exists steps :: Executable(c, steps) && After(c, steps) == d
  }

  lemma Reach(c: Cluster, d: Cluster, s: Step)
    requires Shaped(c) && Reachable(c, d) && Shaped(d) && Enabled(d, s)
    ensures Reachable(c, Next(d, s))
  {
    var steps :| Executable(c, steps) && After(c, steps) == d;
    Extend(c, steps, s);
  }

  /** A master that will vote for the request: it has not voted in that epoch, the candidate is entitled
      in its view, and it did not vote about that master lately. */
  predicate Ready(d: Cluster, m: nat, q: Request, now: int)
    requires Shaped(d)
  {
    && m < |d.nodes| && m in d.masters && q.candidate in d.views[m].peers && d.views[m].clock <= now
    && d.nodes[m].currentEpoch <= q.currentEpoch && d.nodes[m].lastVoteEpoch != q.currentEpoch
    && Entitled(d.views[m], q) && Rested(d.views[m], q, now, d.nodeTimeout)
  }

  lemma Granted(d: Cluster, m: nat, q: Request, now: int)
    requires Shaped(d) && q in d.requests && Ready(d, m, q, now)
    ensures Enabled(d, Receive(m, q, now))
    ensures var r, v, e := Next(d, Receive(m, q, now)), Vote(m, q.candidate, q.currentEpoch), q.currentEpoch;
            var master := d.views[m].peers[q.candidate].master;
            && r.nodes == d.nodes[m := d.nodes[m].(currentEpoch := e, lastVoteEpoch := e)]
            && r.acks == d.acks + {v} && r.votes == d.votes + {v} && r.wins == d.wins && r.requests == d.requests
            && |r.views| == |d.views| && (forall k | 0 <= k < |d.views| && k != m :: r.views[k] == d.views[k])
            && r.views[m] == d.views[m].(voted := d.views[m].voted[master := now], clock := now)
            && r.tallies == d.tallies
  {
  }

  lemma Counted(d: Cluster, m: nat, i: nat, e: nat)
    requires Shaped(d) && i < |d.nodes| && m in d.masters && Vote(m, i, e) in d.acks
    requires d.nodes[i].authEpoch <= e <= d.nodes[i].currentEpoch
    ensures var r := Next(d, Count(i, Vote(m, i, e)));
            && r.nodes == d.nodes[i := d.nodes[i].(authCount := d.nodes[i].authCount + 1)]
            && r == d.(nodes := r.nodes, acks := d.acks - {Vote(m, i, e)}, tallies := r.tallies)
  {
  }

  /** The candidate of a request that is still running its election. */
  predicate Running(d: Cluster, q: Request) {
    && q in d.requests && q.candidate < |d.nodes|
    && var n := d.nodes[q.candidate];
    n.authSent && n.authEpoch == q.currentEpoch == n.currentEpoch
  }

  /** Every ready master can be made to vote and its vote be counted. */
  lemma {:induction false} Collects(o: Cluster, d: Cluster, q: Request, ms: seq<nat>, now: int) returns (r: Cluster)
    requires Shaped(o) && Shaped(d) && Reachable(o, d) && Running(d, q)
    requires Distinct(ms) && forall k | 0 <= k < |ms| :: ms[k] != q.candidate && Ready(d, ms[k], q, now)
    ensures Shaped(r) && Reachable(o, r) && r.masters == d.masters && r.wins == d.wins && |r.nodes| == |d.nodes|
    ensures r.nodes[q.candidate] == d.nodes[q.candidate].(authCount := d.nodes[q.candidate].authCount + |ms|)
    decreases |ms|
  {
    hide Entitled, Rested, Reachable;
    r := d;
    if ms != [] {
      var i, m := q.candidate, ms[0];
      Granted(d, m, q, now);
      Reach(o, d, Receive(m, q, now));
      var f := Next(d, Receive(m, q, now));
      Counted(f, m, i, q.currentEpoch);
      Reach(o, f, Count(i, Vote(m, i, q.currentEpoch)));
      var g := Next(f, Count(i, Vote(m, i, q.currentEpoch)));
      forall k | 0 <= k < |ms| - 1 ensures ms[1..][k] != i && Ready(g, ms[1..][k], q, now) {
        assert Ready(d, ms[k + 1], q, now) && ms[k + 1] != m;
      }
      r := Collects(o, g, q, ms[1..], now);
    }
  }

  /** A replica whose election is due and entitled in the eyes of a majority can win: its timer asks for
      votes, the majority votes, and its timer takes over. */
  lemma EntitledWins(c: Cluster, i: nat, env: Env, ms: seq<nat>, now: int) returns (r: Cluster)
    requires Shaped(c) && i < |c.nodes| && env.size == |c.masters| && HasReason(env)
    requires !c.nodes[i].authSent && env.rankDelay == 0 && 0 <= env.now - c.nodes[i].authTime <= Timeout(env)
    requires Distinct(ms) && |ms| >= |c.masters| / 2 + 1
    requires forall k | 0 <= k < |ms| :: ms[k] != i && Ready(c, ms[k], Asked(i, c.nodes[i].currentEpoch + 1, env), now)
    ensures Reachable(c, r)
    ensures exists w | w in r.wins :: w.candidate == i && w.epoch == c.nodes[i].currentEpoch + 1
  {
    hide Entitled, Rested, Reachable;
    Still(c);
    var q := Asked(i, c.nodes[i].currentEpoch + 1, env);
    Reach(c, c, Timer(i, env));
    var d := Next(c, Timer(i, env));
    Asking(c, i, env);
    forall k | 0 <= k < |ms| ensures Ready(d, ms[k], q, now) { assert Ready(c, ms[k], q, now); }
    var e := Collects(c, d, q, ms, now);
    Reach(c, e, Timer(i, env));
    r := Next(e, Timer(i, env));
    Taking(e, i, env);
  }

  lemma Still(c: Cluster)
    requires Shaped(c)
    ensures Reachable(c, c)
  {
    assert Executable(c, []) && After(c, []) == c;
  }

  lemma Asking(c: Cluster, i: nat, env: Env)
    requires Shaped(c) && i < |c.nodes| && env.size == |c.masters| && HasReason(env)
    requires !c.nodes[i].authSent && env.rankDelay == 0 && 0 <= env.now - c.nodes[i].authTime <= Timeout(env)
    ensures var d := Next(c, Timer(i, env));
            && d.nodes == c.nodes[i := Start(c.nodes[i])] && d.views == c.views
            && d.requests == c.requests[Asked(i, c.nodes[i].currentEpoch + 1, env) := env]
  {
  }

  lemma Taking(c: Cluster, i: nat, env: Env)
    requires Shaped(c) && i < |c.nodes| && env.size == |c.masters| && HasReason(env)
    requires c.nodes[i].authSent && 0 <= env.now - c.nodes[i].authTime <= Timeout(env)
    requires c.nodes[i].authCount >= |c.masters| / 2 + 1
    ensures Win(i, c.nodes[i].authEpoch, c.tallies[i], env) in Next(c, Timer(i, env)).wins
  {
  }

  // ------------------------------------------- why expired votes are excluded

  function NoSlots(): Bitmap {
    seq(SLOTS, _ => false)
  }

  function Tick(now: int): Env {
    Env(now, true, true, true, false, true, false, false, 0, 0, 3, 1000, NoSlots(), 0)
  }

  const FRESH := NodeState(0, 0, 0, 0, 0, false, 0)
  const NO_TALLY := Tally({}, 0)

  /** The timer schedules an election, and one that is scheduled and due asks for votes. */
  lemma Scheduled(d: Cluster, i: nat, now: int)
    requires Shaped(d) && i < |d.nodes| && |d.masters| == 3 && now > d.nodes[i].authTime + 4000
    ensures Next(d, Timer(i, Tick(now))) ==
            d.(nodes := d.nodes[i := Schedule(d.nodes[i], Tick(now))], tallies := d.tallies[i := NO_TALLY])
  {
  }

  lemma Started(d: Cluster, i: nat, now: int)
    requires Shaped(d) && i < |d.nodes| && |d.masters| == 3
    requires !d.nodes[i].authSent && d.nodes[i].authTime == now
    requires d.nodes[i].authCount == 0 ==> d.tallies[i] == NO_TALLY
    ensures Next(d, Timer(i, Tick(now))) ==
            d.(nodes := d.nodes[i := Start(d.nodes[i])],
               requests := d.requests[Asked(i, d.nodes[i].currentEpoch + 1, Tick(now)) := Tick(now)])
  {
    assert d.tallies[i := d.tallies[i]] == d.tallies;
  }

  lemma TakesOver(d: Cluster, i: nat, now: int)
    requires Shaped(d) && i < |d.nodes| && |d.masters| == 3
    requires d.nodes[i].authSent && d.nodes[i].authCount >= 2 && d.nodes[i].authTime == now
    ensures Next(d, Timer(i, Tick(now))).wins == d.wins + {Win(i, d.nodes[i].authEpoch, d.tallies[i], Tick(now))}
  {
  }

  /** Nodes 3 and 4 are replicas of node 2, which has failed. */
  predicate Sees(v: View) {
    && 3 in v.peers && v.peers[3] == ReplicaOf(2) && 4 in v.peers && v.peers[4] == ReplicaOf(2) && 2 in v.failed
    && v.clock <= VotedTime(v, 2)
  }

  /** What the counterexample keeps of the cluster between its phases. */
  ghost predicate Stage(o: Cluster, d: Cluster) {
    && Shaped(o) && Shaped(d) && Reachable(o, d) && |d.nodes| == 5 && |d.masters| == 3 && d.nodeTimeout == 1000
    && 0 in d.masters && 1 in d.masters && Sees(d.views[0]) && Sees(d.views[1])
  }

  lemma Opens(o: Cluster, d: Cluster, i: nat, now: int) returns (r: Cluster)
    requires Stage(o, d) && i < 5 && now > d.nodes[i].authTime + 4000
    ensures Stage(o, r) && r.wins == d.wins && r.views == d.views
    ensures Asked(i, d.nodes[i].currentEpoch + 1, Tick(now)) in r.requests
    ensures r.nodes == d.nodes[i := Start(Schedule(d.nodes[i], Tick(now)))]
  {
    hide Sees;
    Reach(o, d, Timer(i, Tick(now)));
    Scheduled(d, i, now);
    var e := Next(d, Timer(i, Tick(now)));
    Reach(o, e, Timer(i, Tick(now)));
    Started(e, i, now);
    r := Next(e, Timer(i, Tick(now)));
  }

  lemma TwoVotes(o: Cluster, d: Cluster, q: Request, now: int) returns (r: Cluster)
    requires Stage(o, d) && 3 <= q.candidate < 5 && q in d.requests && q.slots == NoSlots()
    requires forall m | 0 <= m < 2 ::
               d.nodes[m].currentEpoch <= q.currentEpoch && d.nodes[m].lastVoteEpoch != q.currentEpoch
    requires forall m | 0 <= m < 2 :: VotedTime(d.views[m], 2) + 2000 <= now
    ensures Stage(o, r) && r.wins == d.wins
    ensures Vote(0, q.candidate, q.currentEpoch) in r.acks && Vote(1, q.candidate, q.currentEpoch) in r.acks
    ensures forall k | 2 <= k < 5 :: r.nodes[k] == d.nodes[k]
    ensures forall m | 0 <= m < 2 :: r.nodes[m].currentEpoch == q.currentEpoch == r.nodes[m].lastVoteEpoch
    ensures forall m | 0 <= m < 2 :: VotedTime(r.views[m], 2) == now
  {
    hide Reachable;
    Granted(d, 0, q, now);
    Reach(o, d, Receive(0, q, now));
    var f := Next(d, Receive(0, q, now));
    Granted(f, 1, q, now);
    Reach(o, f, Receive(1, q, now));
    r := Next(f, Receive(1, q, now));
  }

  lemma TwoCounts(o: Cluster, d: Cluster, i: nat, e: nat) returns (r: Cluster)
    requires Stage(o, d) && i < 5 && Vote(0, i, e) in d.acks && Vote(1, i, e) in d.acks
    requires d.nodes[i].authEpoch <= e <= d.nodes[i].currentEpoch
    ensures Stage(o, r) && r.wins == d.wins && r.views == d.views
    ensures r.nodes == d.nodes[i := d.nodes[i].(authCount := d.nodes[i].authCount + 2)]
  {
    hide Sees, Reachable;
    Reach(o, d, Count(i, Vote(0, i, e)));
    Counted(d, 0, i, e);
    var f := Next(d, Count(i, Vote(0, i, e)));
    Reach(o, f, Count(i, Vote(1, i, e)));
    Counted(f, 1, i, e);
    r := Next(f, Count(i, Vote(1, i, e)));
  }

  lemma Wins(o: Cluster, d: Cluster, i: nat, now: int) returns (r: Cluster)
    requires Stage(o, d) && i < 5 && d.nodes[i].authSent && d.nodes[i].authCount >= 2 && d.nodes[i].authTime == now
    ensures Stage(o, r) && r.wins == d.wins + {Win(i, d.nodes[i].authEpoch, d.tallies[i], Tick(now))}
    ensures r.views == d.views && forall k | 0 <= k < 5 && k != i :: r.nodes[k] == d.nodes[k]
  {
    hide Sees, Reachable;
    Reach(o, d, Timer(i, Tick(now)));
    TakesOver(d, i, now);
    r := Next(d, Timer(i, Tick(now)));
  }

  lemma Rescheduled(o: Cluster, d: Cluster, i: nat, now: int) returns (r: Cluster)
    requires Stage(o, d) && i < 5 && now > d.nodes[i].authTime + 4000
    ensures Stage(o, r) && r.acks == d.acks && r.wins == d.wins && r.views == d.views
    ensures r.nodes == d.nodes[i := Schedule(d.nodes[i], Tick(now))]
  {
    hide Sees, Reachable;
    Reach(o, d, Timer(i, Tick(now)));
    Scheduled(d, i, now);
    r := Next(d, Timer(i, Tick(now)));
  }

  lemma Asks(o: Cluster, d: Cluster, i: nat, now: int) returns (r: Cluster)
    requires Stage(o, d) && i < 5 && !d.nodes[i].authSent && d.nodes[i].authTime == now && d.nodes[i].authCount > 0
    ensures Stage(o, r) && r.wins == d.wins && r.views == d.views && r.nodes == d.nodes[i := Start(d.nodes[i])]
  {
    hide Sees, Reachable;
    Reach(o, d, Timer(i, Tick(now)));
    Started(d, i, now);
    r := Next(d, Timer(i, Tick(now)));
  }

  /** Replica 3 is granted two votes in epoch 1, but they arrive after it scheduled its next
      election; they count for epoch 2, which it wins without a single vote there. */
  lemma LateVotes(o: Cluster) returns (r: Cluster)
    requires Stage(o, o) && (forall k | 0 <= k < 5 :: o.nodes[k] == FRESH)
    requires forall m | 0 <= m < 2 :: VotedTime(o.views[m], 2) == 0
    ensures Stage(o, r) && r.nodes[4] == FRESH
    ensures exists w :: w in r.wins && w.candidate == 3 && w.epoch == 2
    ensures forall m | 0 <= m < 2 :: r.nodes[m].currentEpoch == r.nodes[m].lastVoteEpoch == 1
    ensures forall m | 0 <= m < 2 :: VotedTime(r.views[m], 2) == 5000
  {
    hide Sees, Reachable, VotedTime;
    r := Opens(o, o, 3, 5000);
    r := TwoVotes(o, r, Asked(3, 1, Tick(5000)), 5000);
    r := Rescheduled(o, r, 3, 10000);
    r := TwoCounts(o, r, 3, 1);
    r := Asks(o, r, 3, 10000);
    var before := r;
    r := Wins(o, r, 3, 10000);
    assert Win(3, 2, before.tallies[3], Tick(10000)) in r.wins;
  }

  /** Replica 4 then wins the same epoch with the votes of two masters. */
  lemma RightfulWinner(o: Cluster, d: Cluster) returns (r: Cluster)
    requires Stage(o, d) && d.nodes[4] == FRESH
    requires forall m | 0 <= m < 2 :: d.nodes[m].currentEpoch == d.nodes[m].lastVoteEpoch == 1
    requires forall m | 0 <= m < 2 :: VotedTime(d.views[m], 2) == 5000
    ensures Stage(o, r) && d.wins <= r.wins
    ensures exists w :: w in r.wins && w.candidate == 4 && w.epoch == 2
  {
    hide Sees, Reachable, VotedTime;
    Reach(o, d, Learn(4, 1));
    r := Next(d, Learn(4, 1));
    r := Opens(o, r, 4, 15000);
    r := TwoVotes(o, r, Asked(4, 2, Tick(15000)), 15000);
    r := TwoCounts(o, r, 4, 2);
    var before := r;
    r := Wins(o, r, 4, 15000);
    assert Win(4, 2, before.tallies[4], Tick(15000)) in r.wins;
  }

  lemma FiveNodes() returns (o: Cluster)
    ensures Init(o) && Stage(o, o) && forall k | 0 <= k < 5 :: o.nodes[k] == FRESH
    ensures forall m | 0 <= m < 2 :: VotedTime(o.views[m], 2) == 0
  {
    var v := View(map[3 := ReplicaOf(2), 4 := ReplicaOf(2)], {2}, seq(SLOTS, _ => None), map[], map[], 0);
    o := Cluster({0, 1, 2}, 1000, [FRESH, FRESH, FRESH, FRESH, FRESH], [v, v, v, v, v], map[], {}, {}, map[],
                 [NO_TALLY, NO_TALLY, NO_TALLY, NO_TALLY, NO_TALLY], {});
    Still(o);
  }

  /** Without the condition the claim is false: some run lets two replicas win one epoch. */
  lemma ExpiredVotesSplit() returns (o: Cluster, r: Cluster)
    ensures Init(o) && Reachable(o, r)
    ensures exists w, x :: w in r.wins && x in r.wins && w.epoch == x.epoch && w.candidate != x.candidate
  {
    o := FiveNodes();
    var d := LateVotes(o);
    r := RightfulWinner(o, d);
    var w :| w in d.wins && w.candidate == 3 && w.epoch == 2;
    var x :| x in r.wins && x.candidate == 4 && x.epoch == 2;
    assert w in r.wins;
  }
}
