/** Runs of a server with blocked clients: when no wakeup is lost, and when order is kept. */
module BlockedRuns {
  import opened Wrappers
  import opened Sequences
  import opened Blocked
  import opened BlockedOrder

  datatype Step =
    | Connect(c: Client)
    | WaitFor(c: Client, kind: Kind, keys: seq<Key>, target: Option<Key>, fromHead: bool)
    | GiveUp(c: Client)                      // a timeout, or the client goes away
    | SetKey(k: Key, o: Obj)                 // the key gets a new object, whether or not it exists
    | Modify(k: Key, items: seq<Value>)      // a list or sorted set is changed in place
    | Delete(k: Key)
    | Touch(k: Key)                          // a command signals the key, as XADD does
    | Reprocess                              // the first unblocked client runs again
    | ServeReady

  predicate IsEmpty(o: Obj) {
    !o.OtherType? && o.items == []
  }

  ghost predicate Enabled(s: State, step: Step) {
    match step
    case Connect(c) => c !in s.clients
    case WaitFor(c, kind, keys, target, fromHead) =>
      // A blocking pop fails on an object of another type, and blocks only if no key has an object.
      && CanBlock(s, c, kind, keys) && kind in s.byKind
      && (kind.OnStream? || forall k | k in keys :: k !in s.objects)
    case GiveUp(c) => IsBlocked(s, c)
    case SetKey(k, o) => !IsEmpty(o)
    case Modify(k, items) => k in s.objects && !s.objects[k].OtherType?
    case Reprocess => s.unblocked != []
    case ServeReady => Inv(s)
    case _ => true
  }

  /** Only a key that did not exist is signalled. */
  function SetObject(s: State, k: Key, o: Obj): State {
    var t := s.(objects := s.objects[k := o]);
    if k in s.objects || o.OtherType? then t else Signal(t, k)
  }

  function ModifyObject(s: State, k: Key, items: seq<Value>): State
    requires k in s.objects && !s.objects[k].OtherType?
  {
    s.(objects := if items == [] then s.objects - {k} else s.objects[k := s.objects[k].(items := items)])
  }

  ghost function Next(s: State, step: Step): State
    requires Enabled(s, step)
  {
    match step
    case Connect(c) => Connected(s, c)
    case WaitFor(c, kind, keys, target, fromHead) => Block(s, c, kind, keys, target, fromHead)
    case GiveUp(c) => Unblock(s, c)
    case SetKey(k, o) => SetObject(s, k, o)
    case Modify(k, items) => ModifyObject(s, k, items)
    case Delete(k) => s.(objects := s.objects - {k})
    case Touch(k) => Signal(s, k)
    case Reprocess => s.(unblocked := s.unblocked[1..], flagged := s.flagged - {s.unblocked[0]})
    case ServeReady => Handle(s)
  }

  function Connected(s: State, c: Client): State {
    s.(clients := s.clients[c := Waiter(NotBlocked, {}, None, false, s.clock)], clock := s.clock + 1)
  }

  function Init(): State {
    State.State(map[], map[], map[], [], {}, 0, map[OnList := 0, OnZset := 0, OnStream := 0], [], {}, [], 0)
  }

  ghost predicate CanRun(s: State, steps: seq<Step>)
    decreases |steps|
  {
    steps == [] || (Enabled(s, steps[0]) && CanRun(Next(s, steps[0]), steps[1..]))
  }

  ghost function End(s: State, steps: seq<Step>): State
    requires CanRun(s, steps)
    decreases |steps|
  {
    if steps == [] then s else End(Next(s, steps[0]), steps[1..])
  }

  // ---------------------------------------------------------------- invariant

  lemma InitInv()
    ensures Inv(Init())
  {
    assert Waiting(map[]) == {} && forall t :: Of(map[], t) == {};
  }

  lemma ConnectCounters(s: State, c: Client)
    requires Counters(s.clients, s.blocked, s.byKind) && c !in s.clients
    ensures Counters(Connected(s, c).clients, s.blocked, s.byKind)
  {
    var after := Connected(s, c).clients;
    assert Waiting(after) == Waiting(s.clients);
    forall k: Kind | !k.NotBlocked? ensures Of(after, k) == Of(s.clients, k) {}
  }

  lemma ConnectInv(s: State, c: Client)
    requires Inv(s) && c !in s.clients
    ensures Inv(Connected(s, c))
  {
    hide Coupled, Counters, Distinct;
    ConnectCounters(s, c);
  }

  lemma ReprocessInv(s: State)
    requires Inv(s) && s.unblocked != []
    ensures Inv(s.(unblocked := s.unblocked[1..], flagged := s.flagged - {s.unblocked[0]}))
  {
    hide Index, Counters;
  }

  /** Every step keeps the index, the counters and the queues right. */
  lemma StepInv(s: State, step: Step)
    requires Inv(s) && Enabled(s, step)
    ensures Inv(Next(s, step))
  {
    hide Index, Counters, Coupled, Removed, AddKeys;
    match step
    case Connect(c) => ConnectInv(s, c);
    case WaitFor(c, kind, keys, target, fromHead) => BlockInv(s, c, kind, keys, target, fromHead);
    case GiveUp(c) => UnblockInv(s, c);
    case SetKey(k, o) => SignalInv(s.(objects := s.objects[k := o]), k);
    case Touch(k) => SignalInv(s, k);
    case Reprocess => ReprocessInv(s);
    case _ =>
  }

  // ------------------------------------------------------------------ wakeups

  ghost predicate Healthy(s: State) {
    Inv(s) && Awake(s, None)
  }

  lemma ConnectAwake(s: State, c: Client)
    requires Healthy(s) && c !in s.clients
    ensures Awake(Connected(s, c), None)
  {
    hide Coupled, Counters;
    var t := Connected(s, c);
    forall k, kind | WaitingFor(t, k, kind) ensures WaitingFor(s, k, kind) {
      var x :| x in t.blocking[k] && x in t.clients && t.clients[x].kind == kind;
      assert x in s.blocking[k] && x != c;
    }
  }

  ghost predicate SameBut(a: map<Key, Obj>, b: map<Key, Obj>, k: Key) {
    && (forall x | x != k :: x in a <==> x in b)
    && (forall x | x != k && x in a && x in b :: a[x] == b[x])
  }

  /** Changing one object keeps the server awake exactly if its waiters have been signalled. */
  lemma ObjectsAwake(s: State, objects: map<Key, Obj>, k: Key)
    requires Awake(s, None) && SameBut(s.objects, objects, k) && (k in objects ==> !IsEmpty(objects[k]))
    ensures Awake(s.(objects := objects), None) <==>
            (k in objects && !objects[k].OtherType? && WaitingFor(s, k, KindOf(objects[k])) ==> k in s.readySet)
  {
    hide WaitingFor;
    forall x, kind ensures WaitingFor(s.(objects := objects), x, kind) == WaitingFor(s, x, kind) {
      SameWaiting(s, s.(objects := objects), x, kind);
    }
  }

  lemma SameWaiting(s: State, t: State, x: Key, kind: Kind)
    requires s.blocking == t.blocking && s.clients == t.clients
    ensures WaitingFor(t, x, kind) == WaitingFor(s, x, kind)
  {
  }

  lemma SignalAwake(s: State, k: Key)
    requires Awake(s, None)
    ensures Awake(Signal(s, k), None)
  {
    hide WaitingFor;
    forall x, kind ensures WaitingFor(Signal(s, k), x, kind) == WaitingFor(s, x, kind) {
      SameWaiting(s, Signal(s, k), x, kind);
    }
  }

  lemma UnblockAwake(s: State, c: Client)
    requires IsBlocked(s, c) && Awake(s, None)
    ensures Awake(Unblock(s, c), None)
  {
    hide WaitingFor, Removed;
    forall k, kind: Kind | !kind.NotBlocked? && WaitingFor(Unblock(s, c), k, kind) ensures WaitingFor(s, k, kind) {
      UnblockWaits(s, c, k, kind);
    }
  }

  lemma SetObjectAwake(s: State, k: Key, o: Obj)
    requires Awake(s, None) && !IsEmpty(o)
    ensures Awake(SetObject(s, k, o), None) <==>
            k !in s.objects || o.OtherType? || (WaitingFor(s, k, KindOf(o)) ==> k in s.readySet)
  {
    hide WaitingFor, Awake;
    var t := Signal(s, k);
    SignalAwake(s, k);
    ObjectsAwake(t, s.objects[k := o], k);
    ObjectsAwake(s, s.objects[k := o], k);
    SameWaiting(s, t, k, KindOf(o));
    assert WaitingFor(s, k, KindOf(o)) ==> k in s.blocking by {
      if WaitingFor(s, k, KindOf(o)) { WaitedKeyExists(s, k, KindOf(o)); }
    }
  }

  lemma WaitedKeyExists(s: State, k: Key, kind: Kind)
    requires WaitingFor(s, k, kind)
    ensures k in s.blocking
  {
  }

  lemma ModifyAwake(s: State, k: Key, items: seq<Value>)
    requires Awake(s, None) && k in s.objects && !s.objects[k].OtherType?
    ensures Awake(ModifyObject(s, k, items), None)
  {
    hide WaitingFor;
    ObjectsAwake(s, ModifyObject(s, k, items).objects, k);
  }

  lemma DeleteAwake(s: State, k: Key)
    requires Awake(s, None)
    ensures Awake(s.(objects := s.objects - {k}), None)
  {
    hide WaitingFor, Awake;
    ObjectsAwake(s, s.objects - {k}, k);
  }

  lemma ReprocessAwake(s: State)
    requires Awake(s, None) && s.unblocked != []
    ensures Awake(s.(unblocked := s.unblocked[1..], flagged := s.flagged - {s.unblocked[0]}), None)
  {
    hide WaitingFor;
    var t := s.(unblocked := s.unblocked[1..], flagged := s.flagged - {s.unblocked[0]});
    forall x, kind ensures WaitingFor(t, x, kind) == WaitingFor(s, x, kind) { SameWaiting(s, t, x, kind); }
  }

  /** An object is not replaced by one that a client waits for, unless the key is to be served anyway. */
  predicate Guarded(s: State, step: Step) {
    step.SetKey? && step.k in s.objects && !step.o.OtherType? && WaitingFor(s, step.k, KindOf(step.o)) ==>
      step.k in s.readySet
  }

  /** A step keeps every wakeup if and only if it is guarded. */
  lemma StepHealthy(s: State, step: Step)
    requires Healthy(s) && Enabled(s, step)
    ensures Healthy(Next(s, step)) <==> Guarded(s, step)
  {
    hide Inv, Awake, WaitingFor;
    StepInv(s, step);
    match step
    case Connect(c) => ConnectAwake(s, c);
    case WaitFor(c, kind, keys, target, fromHead) => BlockAwake(s, c, kind, keys, target, fromHead);
    case GiveUp(c) => UnblockAwake(s, c);
    case SetKey(k, o) => SetObjectAwake(s, k, o);
    case Modify(k, items) => ModifyAwake(s, k, items);
    case Delete(k) => DeleteAwake(s, k);
    case Touch(k) => SignalAwake(s, k);
    case Reprocess => ReprocessAwake(s);
    case ServeReady => NoLostWakeup(s);
  }

  ghost predicate AllHealthy(s: State, steps: seq<Step>)
    requires CanRun(s, steps)
    decreases |steps|
  {
    Healthy(s) && (steps == [] || AllHealthy(Next(s, steps[0]), steps[1..]))
  }

  ghost predicate AllGuarded(s: State, steps: seq<Step>)
    requires CanRun(s, steps)
    decreases |steps|
  {
    steps == [] || (Guarded(s, steps[0]) && AllGuarded(Next(s, steps[0]), steps[1..]))
  }

  lemma {:induction false} RunHealthy(s: State, steps: seq<Step>)
    requires Healthy(s) && CanRun(s, steps)
    ensures AllHealthy(s, steps) <==> AllGuarded(s, steps)
    ensures AllGuarded(s, steps) ==> Healthy(End(s, steps))
    decreases |steps|
  {
    hide Inv, Awake, Enabled, Next, Guarded;
    if steps != [] {
      StepHealthy(s, steps[0]);
      if Guarded(s, steps[0]) { RunHealthy(Next(s, steps[0]), steps[1..]); }
      else { Unhealthy(Next(s, steps[0]), steps[1..]); }
    }
  }

  lemma Unhealthy(s: State, steps: seq<Step>)
    requires CanRun(s, steps) && !Healthy(s)
    ensures !AllHealthy(s, steps)
  {
  }

  lemma InitHealthy()
    ensures Healthy(Init())
  {
    InitInv();
  }

  /** In any guarded run, after the ready keys have been served no client waits for an object that has
      elements for it. */
  lemma NobodyWaitsInVain(steps: seq<Step>, k: Key)
    requires CanRun(Init(), steps) && AllGuarded(Init(), steps)
    ensures Enabled(End(Init(), steps), ServeReady)
    ensures var t := Next(End(Init(), steps), ServeReady);
            t.readyKeys == [] && (ItemsAt(t.objects, k) != [] ==> !WaitingFor(t, k, KindAt(t.objects, k)))
  {
    hide Index, Counters, Coupled, WaitingFor, Awake, CanRun, End, KindAt;
    InitHealthy();
    RunHealthy(Init(), steps);
    NoLostWakeup(End(Init(), steps));
  }

  lemma {:induction false} Traced(states: seq<State>, steps: seq<Step>)
    requires |states| == |steps| + 1
    requires forall i | 0 <= i < |steps| :: Enabled(states[i], steps[i]) && Next(states[i], steps[i]) == states[i + 1]
    ensures CanRun(states[0], steps) && End(states[0], steps) == states[|steps|]
    decreases |steps|
  {
    hide Enabled, Next;
    if steps != [] { Traced(states[1..], steps[1..]); }
  }

  /** A client that has just connected blocks on one key. */
  function BlockOne(s: State, c: Client, kind: Kind, k: Key): State
    requires kind in s.byKind
  {
    s.(clients := s.clients[c := Waiter(kind, {k}, None, true, s.clock)],
       blocking := s.blocking[k := Waiters(s, k) + [c]],
       blocked := s.blocked + 1, byKind := s.byKind[kind := s.byKind[kind] + 1], clock := s.clock + 1)
  }

  lemma BlocksOne(s: State, c: Client, kind: Kind, k: Key)
    requires c in s.clients && s.clients[c].keys == {} && s.clients[c].kind.NotBlocked? && k !in s.objects
    requires kind in s.byKind && !kind.NotBlocked?
    ensures Enabled(s, WaitFor(c, kind, [k], None, true))
    ensures Next(s, WaitFor(c, kind, [k], None, true)) == BlockOne(s, c, kind, k)
  {
    assert [k][1..] == [] && {} + {k} == {k};
    assert AddKeys(s, c, [k]) == AddKey(s, c, k);
  }

  function Blocked1(): State {
    BlockOne(Connected(Init(), 1), 1, OnList, "k")
  }

  lemma Blocked1Inv()
    ensures Inv(Blocked1())
    ensures Blocked1().readyKeys == [] && Blocked1().objects == map[] && WaitingFor(Blocked1(), "k", OnList)
  {
    hide Inv;
    var a := Connected(Init(), 1);
    BlocksOne(a, 1, OnList, "k");
    InitInv();
    StepInv(Init(), Connect(1));
    StepInv(a, WaitFor(1, OnList, ["k"], None, true));
    assert 1 in Blocked1().blocking["k"];
  }

  /** BLPOP blocks on a missing key, a string is stored there, and SORT with STORE replaces it by a
      list: the client goes on waiting although the list has an element, and changing the list does
      not wake it. */
  lemma WaitingInVain(items: seq<Value>)
    requires items != []
    ensures var steps := [Connect(1), WaitFor(1, OnList, ["k"], None, true), SetKey("k", OtherType),
                          SetKey("k", List(["v"])), ServeReady, Modify("k", items), ServeReady];
            CanRun(Init(), steps) &&
            var t := End(Init(), steps);
            ItemsAt(t.objects, "k") == items && WaitingFor(t, "k", OnList)
  {
    hide Inv, WaitingFor, CanRun, End, BlockOne;
    var a, b := Connected(Init(), 1), Blocked1();
    var c := SetObject(b, "k", OtherType);
    var d := SetObject(c, "k", List(["v"]));
    var e := ModifyObject(d, "k", items);
    BlocksOne(a, 1, OnList, "k");
    Blocked1Inv();
    StepInv(b, SetKey("k", OtherType));
    StepInv(c, SetKey("k", List(["v"])));
    StepInv(d, Modify("k", items));
    SameWaiting(b, e, "k", OnList);
    var steps := [Connect(1), WaitFor(1, OnList, ["k"], None, true), SetKey("k", OtherType),
                  SetKey("k", List(["v"])), ServeReady, Modify("k", items), ServeReady];
    Traced([Init(), a, b, c, d, d, e, e], steps);
  }

  // -------------------------------------------------------------------- order

  lemma {:induction false} AddKeysQueue(s: State, c: Client, keys: seq<Key>, k: Key)
    requires c in s.clients
    ensures Waiters(AddKeys(s, c, keys), k) ==
            Waiters(s, k) + if k in keys && k !in s.clients[c].keys then [c] else []
    decreases |keys|
  {
    if keys != [] { AddKeysQueue(AddKey(s, c, keys[0]), c, keys[1..], k); }
  }

  lemma BlockOrdered(s: State, c: Client, kind: Kind, keys: seq<Key>, target: Option<Key>, fromHead: bool)
    requires Inv(s) && CanBlock(s, c, kind, keys) && kind in s.byKind && Ordered(s)
    ensures Ordered(Block(s, c, kind, keys, target, fromHead))
  {
    hide InOrder, Counters, Coupled, AddKeys, TwoWay;
    var t := Block(s, c, kind, keys, target, fromHead);
    AddKeysTwoWay(s, c, keys);
    forall k, u: Kind | !u.NotBlocked? ensures InOrder(t.clients, Waiters(t, k), u) {
      AddKeysQueue(s, c, keys, k);
      OrderedAt(s, k, u);
      NotWaiting(s, c, k);
      FewerInOrder(s.clients, t.clients, Waiters(s, k), u);
      Joined(t.clients, Waiters(s, k), [c], u);
      AloneInOrder(t.clients, c, u);
      assert Waiters(s, k) + [] == Waiters(s, k);
    }
  }

  lemma AloneInOrder(clients: map<Client, Waiter>, c: Client, kind: Kind)
    ensures InOrder(clients, [c], kind)
  {
    var l: seq<Client> := [c];
    assert l[1..] == [];
    NothingInOrder(clients, kind);
  }

  lemma ConnectOrdered(s: State, c: Client)
    requires c !in s.clients && Ordered(s)
    ensures Ordered(Connected(s, c))
  {
    hide InOrder;
    var t := Connected(s, c);
    forall k, u: Kind | !u.NotBlocked? ensures InOrder(t.clients, Waiters(t, k), u) {
      OrderedAt(s, k, u);
      FewerInOrder(s.clients, t.clients, Waiters(s, k), u);
    }
  }

  lemma UnblockOrdered(s: State, c: Client)
    requires IsBlocked(s, c) && Ordered(s)
    ensures Ordered(Unblock(s, c))
  {
    hide InOrder, Removed;
    forall k, u: Kind | !u.NotBlocked? ensures InOrder(Unblock(s, c).clients, Waiters(Unblock(s, c), k), u) {
      OrderedAt(s, k, u);
      UnblockInOrder(s, c, k, u);
    }
  }

  lemma SameOrdered(s: State, t: State)
    requires Ordered(s) && t.clients == s.clients && t.blocking == s.blocking && t.clock == s.clock
    ensures Ordered(t)
  {
    forall k ensures Waiters(t, k) == Waiters(s, k) {}
  }

  /** Every key is fair when it is served. */
  ghost predicate AllFair(s: State)
    requires Inv(s)
    decreases s.blocked, |s.readyKeys|
  {
    s.readyKeys == [] || (FairKey(s) && AllFair(HandleKey(s)))
  }

  ghost predicate FairKey(s: State)
    requires Inv(s) && s.readyKeys != []
  {
    var key, r := s.readyKeys[0], TakeReady(s);
    key in r.objects && !r.objects[key].OtherType? ==> Fair(r, key)
  }

  /** Every key serves its clients first come, first served. */
  ghost predicate AllInTurn(s: State)
    requires Inv(s)
    decreases s.blocked, |s.readyKeys|
  {
    s.readyKeys == [] || (KeyInTurn(s) && AllInTurn(HandleKey(s)))
  }

  ghost predicate KeyInTurn(s: State)
    requires Inv(s) && s.readyKeys != []
  {
    var key, r := s.readyKeys[0], TakeReady(s);
    TakeReadyInv(s);
    key in r.objects && !r.objects[key].OtherType? ==> InTurn(r, key)
  }

  lemma HandleKeyOrdered(s: State)
    requires Inv(s) && Ordered(s) && s.readyKeys != []
    ensures KeyInTurn(s) && (Ordered(HandleKey(s)) <==> FairKey(s))
  {
    hide Inv, Ordered, Fair, InTurn, ServeKey;
    var key, r := s.readyKeys[0], TakeReady(s);
    TakeReadyInv(s);
    SameOrdered(s, r);
    if key in r.objects && !r.objects[key].OtherType? {
      ServeKeyOrdered(r, key);
      FirstComeFirstServed(r, key);
    }
  }

  lemma {:induction false} HandleOrdered(s: State)
    requires Inv(s) && Ordered(s) && AllFair(s)
    ensures Ordered(Handle(s)) && AllInTurn(s)
    decreases s.blocked, |s.readyKeys|
  {
    hide Inv, Ordered, FairKey, KeyInTurn, HandleKey;
    if s.readyKeys != [] {
      HandleKeyOrdered(s);
      HandleOrdered(HandleKey(s));
    }
  }

  lemma StepOrdered(s: State, step: Step)
    requires Inv(s) && Ordered(s) && Enabled(s, step) && (step.ServeReady? ==> AllFair(s))
    ensures Ordered(Next(s, step)) && (step.ServeReady? ==> AllInTurn(s))
  {
    hide Inv, Ordered, AllFair, AllInTurn, Block, Unblock, Handle;
    match step
    case Connect(c) => ConnectOrdered(s, c);
    case WaitFor(c, kind, keys, target, fromHead) => BlockOrdered(s, c, kind, keys, target, fromHead);
    case GiveUp(c) => UnblockOrdered(s, c);
    case ServeReady => HandleOrdered(s);
    case _ => SameOrdered(s, Next(s, step));
  }

  // --------------------------------------------------------- one kind per key

  /** The clients that wait for a key all wait for the same kind of object. */
  ghost predicate Uniform(s: State, use: Key -> Kind) {
    forall k, c | c in Waiters(s, k) :: IsOf(s.clients, c, use(k))
  }

  lemma {:induction false} LooksAtAll(s: State, key: Key, l: seq<Client>, m: nat)
    requires key in s.objects && forall c | c in l :: !IsOf(s.clients, c, KindAt(s.objects, key))
    ensures Looked(s, key, l, m) == if s.objects[key].SortedSet? && m == 0 then 0 else |l|
    decreases |l|
  {
    hide IsOf;
    if l != [] { LooksAtAll(s, key, l[1..], m); }
  }

  lemma UniformFair(s: State, key: Key, use: Key -> Kind)
    requires Uniform(s, use) && key in s.objects
    ensures Fair(s, key)
  {
    hide Looked;
    var q := Waiters(s, key);
    assert q[..|q|] == q && q[|q|..] == [] && q[..0] == [];
    forall c | c in q ensures IsOf(s.clients, c, use(key)) {}
    if use(key) != KindAt(s.objects, key) {
      LooksAtAll(s, key, q, |ItemsAt(s.objects, key)|);
    } else {
      var j := LookedAt(s, key, |q|);
      assert forall c | c in q[..j] :: c in q;
    }
  }

  /** Clients that leave a queue leave the rest as it was. */
  ghost predicate FewerWaiters(s: State, t: State) {
    forall k, c {:trigger c in Waiters(t, k)} | c in Waiters(t, k) :: c in Waiters(s, k) && SameClient(s, t, c)
  }

  lemma FewerUniform(s: State, t: State, use: Key -> Kind)
    requires Uniform(s, use) && FewerWaiters(s, t)
    ensures Uniform(t, use)
  {
    forall k, c | c in Waiters(t, k) ensures IsOf(t.clients, c, use(k)) {
      assert c in Waiters(s, k) && IsOf(s.clients, c, use(k));
    }
  }

  lemma UnblockFewer(s: State, c: Client)
    requires Inv(s) && IsBlocked(s, c)
    ensures FewerWaiters(s, Unblock(s, c))
  {
    hide Counters, Coupled, Distinct;
    var t := Unblock(s, c);
    forall k, x | x in Waiters(t, k) ensures x in Waiters(s, k) && x != c {
      if k in s.clients[c].keys { WithoutDistinct(s.blocking[k], c); }
    }
  }

  lemma FewerStill(s: State, t: State, u: State)
    requires FewerWaiters(s, t) && FewerWaiters(t, u)
    ensures FewerWaiters(s, u)
  {
    forall k, c | c in Waiters(u, k) ensures c in Waiters(s, k) && SameClient(s, u, c) {
      assert c in Waiters(t, k);
    }
  }

  lemma ServeOneFewer(s: State, key: Key, c: Client)
    requires Inv(s) && IsBlocked(s, c) && ItemsAt(s.objects, key) != []
    ensures FewerWaiters(s, ServeOne(s, key, c))
  {
    hide FewerWaiters, Removed, Index, Coupled, Counters;
    var a, t := s.(objects := map[]), ServeOne(s, key, c);
    var u := Unblock(a, c);
    AsMany(s, a);
    UnblockFewer(a, c);
    AsMany(u, t);
    FewerStill(s, a, u);
    FewerStill(s, u, t);
  }

  lemma RotateFewer(s: State, key: Key)
    requires Waiters(s, key) != []
    ensures FewerWaiters(s, Rotate(s, key))
  {
    var t, q := Rotate(s, key), Waiters(s, key);
    assert Waiters(t, key) == q[1..] + [q[0]];
    forall k, x | x in Waiters(t, k) ensures x in Waiters(s, k) && SameClient(s, t, x) {
      if k == key { assert x in q[1..] || x == q[0]; } else { assert Waiters(t, k) == Waiters(s, k); }
    }
  }

  lemma {:induction false} LoopFewer(s: State, key: Key, n: nat)
    requires Serving(s, key) && n <= |Waiters(s, key)|
    ensures FewerWaiters(s, ServeLoop(s, key, n))
    decreases n
  {
    hide Inv, ServeOne, FewerWaiters;
    if n > 0 && !(s.objects[key].SortedSet? && s.objects[key].items == []) {
      var c := Waiters(s, key)[0];
      HeadIsBlocked(s, key);
      if s.clients[c].kind != KindAt(s.objects, key) {
        RotateInv(s, key);
        RotateFewer(s, key);
        LoopFewer(Rotate(s, key), key, n - 1);
        FewerStill(s, Rotate(s, key), ServeLoop(s, key, n));
      } else if ItemsAt(s.objects, key) != [] {
        ServeOneInv(s, key, c);
        HeadServed(s, key);
        ServeOneFewer(s, key, c);
        LoopFewer(ServeOne(s, key, c), key, n - 1);
        FewerStill(s, ServeOne(s, key, c), ServeLoop(s, key, n));
      } else {
        AsMany(s, s);
      }
    } else {
      AsMany(s, s);
    }
  }

  lemma AsMany(s: State, t: State)
    requires t.blocking == s.blocking && t.clients == s.clients
    ensures FewerWaiters(s, t)
  {
    forall k, x | x in Waiters(t, k) ensures x in Waiters(s, k) {}
  }

  lemma HandleKeyFewer(s: State)
    requires Inv(s) && s.readyKeys != []
    ensures FewerWaiters(s, HandleKey(s))
  {
    hide Inv, ServeLoop, FewerWaiters;
    var key, r := s.readyKeys[0], TakeReady(s);
    TakeReadyInv(s);
    AsMany(s, r);
    if key in r.objects && !r.objects[key].OtherType? {
      var t := ServeLoop(r, key, |Waiters(r, key)|);
      LoopFewer(r, key, |Waiters(r, key)|);
      AsMany(t, DropEmpty(t, key));
      FewerStill(s, r, t);
      FewerStill(s, t, DropEmpty(t, key));
    }
  }

  /** Handling is fair as long as every key is used for one kind of object. */
  lemma {:induction false} UniformHandle(s: State, use: Key -> Kind)
    requires Inv(s) && Uniform(s, use)
    ensures AllFair(s) && Uniform(Handle(s), use)
    decreases s.blocked, |s.readyKeys|
  {
    hide Inv, Uniform, Fair, HandleKey, FewerWaiters;
    if s.readyKeys != [] {
      var key, r := s.readyKeys[0], TakeReady(s);
      AsMany(s, r);
      FewerUniform(s, r, use);
      if key in r.objects { UniformFair(r, key, use); }
      HandleKeyFewer(s);
      FewerUniform(s, HandleKey(s), use);
      UniformHandle(HandleKey(s), use);
    }
  }

  predicate Uses(step: Step, use: Key -> Kind) {
    step.WaitFor? ==> forall k | k in step.keys :: step.kind == use(k)
  }

  lemma BlockUniform(s: State, step: Step, use: Key -> Kind)
    requires Inv(s) && Uniform(s, use) && step.WaitFor? && Enabled(s, step) && Uses(step, use)
    ensures Uniform(Next(s, step), use)
  {
    hide Inv, AddKeys;
    var t, c := Next(s, step), step.c;
    AddKeysClients(s, c, step.keys);
    forall k, x | x in Waiters(t, k) ensures IsOf(t.clients, x, use(k)) {
      AddKeysQueue(s, c, step.keys, k);
      NotWaiting(s, c, k);
      assert Waiters(t, k) == Waiters(AddKeys(s, c, step.keys), k);
      if x != c { assert x in Waiters(s, k) && IsOf(s.clients, x, use(k)); }
    }
  }

  lemma AddKeysClients(s: State, c: Client, keys: seq<Key>)
    requires Inv(s) && c in s.clients
    ensures forall x | x in AddKeys(s, c, keys).clients && x != c :: SameClient(s, AddKeys(s, c, keys), x)
    ensures forall x | x in s.clients :: x in AddKeys(s, c, keys).clients
  {
    hide Counters, Coupled, TwoWay;
    AddKeysTwoWay(s, c, keys);
  }

  lemma StepUniform(s: State, step: Step, use: Key -> Kind)
    requires Inv(s) && Uniform(s, use) && Enabled(s, step) && Uses(step, use)
    ensures Uniform(Next(s, step), use) && (step.ServeReady? ==> AllFair(s))
  {
    hide Inv, Uniform, FewerWaiters, AllFair, Block, Unblock, Handle;
    var t := Next(s, step);
    match step
    case Connect(c) => ConnectUniform(s, c, use);
    case WaitFor(c, kind, keys, target, fromHead) => BlockUniform(s, step, use);
    case GiveUp(c) => UnblockFewer(s, c); FewerUniform(s, t, use);
    case ServeReady => UniformHandle(s, use);
    case _ => AsMany(s, t); FewerUniform(s, t, use);
  }

  lemma ConnectUniform(s: State, c: Client, use: Key -> Kind)
    requires Inv(s) && Uniform(s, use) && c !in s.clients
    ensures Uniform(Connected(s, c), use)
  {
    var t := Connected(s, c);
    forall k, x | x in Waiters(t, k) ensures IsOf(t.clients, x, use(k)) {
      assert x in Waiters(s, k) && IsOf(s.clients, x, use(k));
    }
  }

  ghost predicate RunInTurn(s: State, steps: seq<Step>)
    requires CanRun(s, steps)
    decreases |steps|
  {
    steps == [] || ((steps[0].ServeReady? ==> AllInTurn(s)) && RunInTurn(Next(s, steps[0]), steps[1..]))
  }

  ghost predicate RunFair(s: State, steps: seq<Step>)
    requires CanRun(s, steps)
    decreases |steps|
  {
    steps == [] || ((steps[0].ServeReady? ==> AllFair(s)) && RunFair(Next(s, steps[0]), steps[1..]))
  }

  /** In a run in which every served key is fair, clients are always served in the order in which they
      blocked. */
  lemma {:induction false} FairRunInTurn(s: State, steps: seq<Step>)
    requires Inv(s) && Ordered(s) && CanRun(s, steps) && RunFair(s, steps)
    ensures RunInTurn(s, steps) && Ordered(End(s, steps))
    decreases |steps|
  {
    hide Inv, Ordered, Enabled, Next, AllInTurn, AllFair;
    if steps != [] {
      StepInv(s, steps[0]);
      StepOrdered(s, steps[0]);
      FairRunInTurn(Next(s, steps[0]), steps[1..]);
    }
  }

  /** A run is fair as long as every key is used for one kind of object. */
  lemma {:induction false} OneUseFair(s: State, steps: seq<Step>, use: Key -> Kind)
    requires Inv(s) && Uniform(s, use) && CanRun(s, steps)
    requires forall i | 0 <= i < |steps| :: Uses(steps[i], use)
    ensures RunFair(s, steps)
    decreases |steps|
  {
    hide Inv, Uniform, Enabled, Next, AllFair, Uses;
    if steps != [] {
      StepInv(s, steps[0]);
      StepUniform(s, steps[0], use);
      OneUseFair(Next(s, steps[0]), steps[1..], use);
    }
  }

  lemma InitOrdered(use: Key -> Kind)
    ensures Inv(Init()) && Ordered(Init()) && Uniform(Init(), use)
  {
    InitInv();
  }

  /** A key that is used for one kind of object serves its clients in blocking order in every run. */
  lemma OneUseInTurn(steps: seq<Step>, use: Key -> Kind)
    requires CanRun(Init(), steps) && forall i | 0 <= i < |steps| :: Uses(steps[i], use)
    ensures RunInTurn(Init(), steps) && Ordered(End(Init(), steps))
  {
    hide Inv, Ordered, Uniform, CanRun, End, RunFair, RunInTurn, Uses;
    InitOrdered(use);
    OneUseFair(Init(), steps, use);
    FairRunInTurn(Init(), steps);
  }

  // ---------------------------------------------------------- what a waiter gets

  /** Client c waits as before, or has been woken; whoever was woken still is. */
  ghost predicate Kept(s: State, t: State, c: Client) {
    && (forall x | x in s.unblocked :: x in t.unblocked)
    && (c in s.clients ==>
          && c in t.clients
          && (t.clients[c] == s.clients[c] || (t.clients[c] == Idle(s.clients[c]) && c in t.unblocked)))
  }

  lemma KeptStill(s: State, t: State, u: State, c: Client)
    requires Kept(s, t, c) && Kept(t, u, c)
    ensures Kept(s, u, c)
  {
  }

  lemma UnblockKept(s: State, x: Client, c: Client)
    requires Inv(s) && IsBlocked(s, x)
    ensures Kept(s, Unblock(s, x), c)
  {
    hide Index, Counters, Removed;
    assert x in s.flagged ==> x in s.unblocked;
  }

  lemma ServeOneKept(s: State, key: Key, x: Client, c: Client)
    requires Inv(s) && IsBlocked(s, x) && ItemsAt(s.objects, key) != []
    ensures Kept(s, ServeOne(s, key, x), c)
  {
    hide Index, Counters, Removed, Coupled;
    var a, t := s.(objects := map[]), ServeOne(s, key, x);
    UnblockKept(a, x, c);
    assert Unblock(a, x).clients == t.clients && Unblock(a, x).unblocked == t.unblocked;
  }

  lemma {:induction false} LoopKept(s: State, key: Key, n: nat, c: Client)
    requires Serving(s, key) && n <= |Waiters(s, key)|
    ensures Kept(s, ServeLoop(s, key, n), c)
    decreases n
  {
    hide Inv, ServeOne;
    if n > 0 && !(s.objects[key].SortedSet? && s.objects[key].items == []) {
      var x := Waiters(s, key)[0];
      HeadIsBlocked(s, key);
      if s.clients[x].kind != KindAt(s.objects, key) {
        RotateInv(s, key);
        LoopKept(Rotate(s, key), key, n - 1, c);
      } else if ItemsAt(s.objects, key) != [] {
        ServeOneInv(s, key, x);
        HeadServed(s, key);
        ServeOneKept(s, key, x, c);
        LoopKept(ServeOne(s, key, x), key, n - 1, c);
        KeptStill(s, ServeOne(s, key, x), ServeLoop(s, key, n), c);
      }
    }
  }

  lemma {:induction false} HandleKept(s: State, c: Client)
    requires Inv(s)
    ensures Kept(s, Handle(s), c)
    decreases s.blocked, |s.readyKeys|
  {
    hide Inv, ServeLoop;
    if s.readyKeys != [] {
      var key, r := s.readyKeys[0], TakeReady(s);
      TakeReadyInv(s);
      if key in r.objects && !r.objects[key].OtherType? { LoopKept(r, key, |Waiters(r, key)|, c); }
      HandleKept(HandleKey(s), c);
      KeptStill(s, HandleKey(s), Handle(s), c);
    }
  }

  /** No step changes what a client waits for except by waking it, and then it is queued to run again. */
  lemma StepKept(s: State, step: Step, c: Client)
    requires Inv(s) && Enabled(s, step) && c in s.clients && !step.Reprocess? && (step.WaitFor? ==> step.c != c)
    ensures Kept(s, Next(s, step), c)
  {
    hide Inv, Handle, AddKeys, Unblock;
    match step
    case WaitFor(x, kind, keys, target, fromHead) => AddKeysClients(s, x, keys); AddKeysQueues(s, x, keys);
    case GiveUp(x) => UnblockKept(s, x, c);
    case ServeReady => HandleKept(s, c);
    case _ =>
  }

  lemma {:induction false} AddKeysQueues(s: State, c: Client, keys: seq<Key>)
    requires c in s.clients
    ensures AddKeys(s, c, keys).unblocked == s.unblocked
    ensures forall x | x in s.clients :: x in AddKeys(s, c, keys).clients
    decreases |keys|
  {
    if keys != [] { AddKeysQueues(AddKey(s, c, keys[0]), c, keys[1..]); }
  }

  /** A client that is still blocked waits for what it asked for, whatever happened since. */
  lemma {:induction false} WaitsAsAsked(s: State, steps: seq<Step>, c: Client)
    requires Inv(s) && CanRun(s, steps) && c in s.clients
    requires forall i | 0 <= i < |steps| :: steps[i].WaitFor? ==> steps[i].c != c
    ensures var t := End(s, steps);
            && Inv(t) && c in t.clients
            && (t.clients[c] == s.clients[c] || t.clients[c] == Idle(s.clients[c]))
    decreases |steps|
  {
    hide Inv, Enabled, Next;
    if steps != [] {
      var n := Next(s, steps[0]);
      StepInv(s, steps[0]);
      if steps[0].Reprocess? { ReprocessClients(s); } else { StepKept(s, steps[0], c); }
      WaitsAsAsked(n, steps[1..], c);
    }
  }

  lemma ReprocessClients(s: State)
    requires Enabled(s, Reprocess)
    ensures Next(s, Reprocess).clients == s.clients
  {
  }

  /** What serving client c at a key comes to: its element is popped from the end it asked for and is its
      reply, or moves to the head of its target; a target of another type leaves everything in place.
      Either way the client is woken. */
  ghost predicate ServedAsAsked(s: State, key: Key, c: Client, target: Option<Key>, fromHead: bool)
    requires IsBlocked(s, c) && ItemsAt(s.objects, key) != []
  {
    var t, items := ServeOne(s, key, c), s.objects[key].items;
    var v := if fromHead then items[0] else items[|items| - 1];
    && c in t.unblocked && c in t.clients && t.clients[c].kind.NotBlocked? && t.clients[c].keys == {}
    && |t.replies| == |s.replies| + 1
    && var reply := t.replies[|s.replies|];
    && reply.client == c && reply.key == key
    && if target.None? then reply.outcome == Got(v)
       else if target.value in s.objects && !s.objects[target.value].List? then
         reply.outcome == WrongType && t.objects == s.objects
       else
         && reply.outcome == Moved(v, target.value) && target.value in t.objects
         && t.objects[target.value].List? && t.objects[target.value].items != []
         && t.objects[target.value].items[0] == v
  }

  /** Over any run: a client that blocked for lists or sorted sets and is still blocked when one has an
      element for it is served as it asked when it blocked. Only a list can have a target. */
  lemma BlockedThenServed(s: State, step: Step, steps: seq<Step>, key: Key)
    requires Inv(s) && step.WaitFor? && Enabled(s, step) && CanRun(Next(s, step), steps)
    requires forall i | 0 <= i < |steps| :: steps[i].WaitFor? ==> steps[i].c != step.c
    requires var t := End(Next(s, step), steps);
             IsBlocked(t, step.c) && ItemsAt(t.objects, key) != [] && KindAt(t.objects, key) == step.kind
    ensures var t := End(Next(s, step), steps);
            ServedAsAsked(t, key, step.c, if step.kind.OnList? then step.target else None, step.fromHead)
  {
    hide Inv, CanRun, End, ServeOne, AddKeys;
    var a, c := Next(s, step), step.c;
    StepInv(s, step);
    WaitsAsAsked(a, steps, c);
    var t := End(a, steps);
    assert t.clients[c].target == step.target && t.clients[c].fromHead == step.fromHead;
    ServeOneEffect(t, key, c);
    ServeOneWakes(t, key, c);
  }

  lemma ServeOneWakes(s: State, key: Key, c: Client)
    requires Inv(s) && IsBlocked(s, c) && ItemsAt(s.objects, key) != []
    ensures c in ServeOne(s, key, c).unblocked
  {
    hide Index, Counters, Removed;
  }

  // --------------------------------------------------------- two kinds per key

  predicate IsIdle(s: State, c: Client) {
    c in s.clients && s.clients[c].keys == {} && s.clients[c].kind.NotBlocked?
  }

  function Four(): State {
    Connected(Connected(Connected(Connected(Init(), 1), 2), 3), 4)
  }

  lemma FourConnect()
    ensures var steps := [Connect(1), Connect(2), Connect(3), Connect(4)];
            CanRun(Init(), steps) && End(Init(), steps) == Four()
    ensures Four().objects == map[] && Four().blocking == map[] && Four().byKind == Init().byKind
    ensures IsIdle(Four(), 1) && IsIdle(Four(), 2) && IsIdle(Four(), 3) && IsIdle(Four(), 4)
  {
    hide CanRun, End;
    var a := Connected(Init(), 1);
    var b := Connected(a, 2);
    var c := Connected(b, 3);
    Traced([Init(), a, b, c, Four()], [Connect(1), Connect(2), Connect(3), Connect(4)]);
  }

  function MixedOf(s: State): State
    requires OnList in s.byKind && OnZset in s.byKind
  {
    BlockOne(BlockOne(BlockOne(BlockOne(s, 1, OnList, "k"), 2, OnZset, "k"), 3, OnZset, "k"), 4, OnList, "k")
  }

  lemma FourBlock(s: State)
    requires s.objects == map[] && OnList in s.byKind && OnZset in s.byKind
    requires IsIdle(s, 1) && IsIdle(s, 2) && IsIdle(s, 3) && IsIdle(s, 4)
    ensures var steps := [WaitFor(1, OnList, ["k"], None, true), WaitFor(2, OnZset, ["k"], None, true),
                          WaitFor(3, OnZset, ["k"], None, true), WaitFor(4, OnList, ["k"], None, true)];
            CanRun(s, steps) && End(s, steps) == MixedOf(s)
  {
    hide CanRun, End, Enabled, Next;
    var e := BlockOne(s, 1, OnList, "k");
    var f := BlockOne(e, 2, OnZset, "k");
    var g := BlockOne(f, 3, OnZset, "k");
    BlocksOne(s, 1, OnList, "k");
    BlocksOne(e, 2, OnZset, "k");
    BlocksOne(f, 3, OnZset, "k");
    BlocksOne(g, 4, OnList, "k");
    Traced([s, e, f, g, MixedOf(s)],
      [WaitFor(1, OnList, ["k"], None, true), WaitFor(2, OnZset, ["k"], None, true),
       WaitFor(3, OnZset, ["k"], None, true), WaitFor(4, OnList, ["k"], None, true)]);
  }

  lemma {:induction false} RunAppend(s: State, a: seq<Step>, b: seq<Step>)
    requires CanRun(s, a) && CanRun(End(s, a), b)
    ensures CanRun(s, a + b) && End(s, a + b) == End(End(s, a), b)
    decreases |a|
  {
    hide Enabled, Next;
    if a == [] {
      assert a + b == b;
    } else {
      assert (a + b)[1..] == a[1..] + b;
      RunAppend(Next(s, a[0]), a[1..], b);
    }
  }

  /** Serving a sorted set makes no key ready. */
  lemma {:induction false} SortedSetReady(s: State, key: Key, n: nat)
    requires Serving(s, key) && n <= |Waiters(s, key)| && s.objects[key].SortedSet?
    ensures ServeLoop(s, key, n).readyKeys == s.readyKeys
    decreases n
  {
    hide Inv, Removed;
    if n > 0 && s.objects[key].items != [] {
      var c := Waiters(s, key)[0];
      HeadIsBlocked(s, key);
      if s.clients[c].kind != KindAt(s.objects, key) {
        RotateInv(s, key);
        SortedSetReady(Rotate(s, key), key, n - 1);
      } else {
        ServeOneInv(s, key, c);
        HeadServed(s, key);
        SortedSetReady(ServeOne(s, key, c), key, n - 1);
      }
    }
  }

  lemma {:induction false} RunInv(s: State, steps: seq<Step>)
    requires Inv(s) && CanRun(s, steps)
    ensures Inv(End(s, steps))
    decreases |steps|
  {
    hide Inv, Enabled, Next;
    if steps != [] {
      StepInv(s, steps[0]);
      RunInv(Next(s, steps[0]), steps[1..]);
    }
  }

  /** One element for two clients that wait for a sorted set, between two that wait for a list. */
  lemma MixedServed(s: State)
    requires Serving(s, "k") && s.objects["k"] == SortedSet(["v"]) && Waiters(s, "k") == [1, 2, 3, 4]
    requires IsOf(s.clients, 1, OnList) && IsOf(s.clients, 4, OnList)
    requires IsOf(s.clients, 2, OnZset) && IsOf(s.clients, 3, OnZset)
    ensures var t := ServeLoop(s, "k", 4);
            Waiters(t, "k") == [3, 4, 1] && SameClient(s, t, 1) && SameClient(s, t, 4)
  {
    hide Inv, ServeLoop, Served;
    LoopQueue(s, "k", 4);
    var q: seq<Client> := [1, 2, 3, 4];
    assert q[..4] == q && q[1..] == [2, 3, 4] && q[1..][1..] == [3, 4];
    assert Looked(s, "k", q[1..][1..], 0) == 0;
    assert Looked(s, "k", q[1..], 1) == 1;
    assert LookedAt(s, "k", 4) == 2;
    assert q[..2] == [1, 2] && q[..2][1..] == [2] && q[..2][1..][1..] == [] && q[2..] == [3, 4];
    assert Others(s.clients, q[..2][1..], OnZset) == [];
    assert Others(s.clients, q[..2], OnZset) == [1];
  }

  lemma MixedState()
    ensures var m := MixedOf(Four());
            && m.objects == map[] && m.readyKeys == [] && m.readySet == {} && Waiters(m, "k") == [1, 2, 3, 4]
            && IsOf(m.clients, 1, OnList) && IsOf(m.clients, 2, OnZset) && IsOf(m.clients, 3, OnZset)
            && IsOf(m.clients, 4, OnList) && m.clients[1].since < m.clients[4].since
  {
    hide Four, BlockOne;
    FourState();
    var s := Four();
    BlockedOne(s, 1, OnList, "k");
    var e := BlockOne(s, 1, OnList, "k");
    BlockedOne(e, 2, OnZset, "k");
    var f := BlockOne(e, 2, OnZset, "k");
    BlockedOne(f, 3, OnZset, "k");
    var g := BlockOne(f, 3, OnZset, "k");
    BlockedOne(g, 4, OnList, "k");
  }

  lemma BlockedOne(s: State, c: Client, kind: Kind, k: Key)
    requires kind in s.byKind
    ensures var t := BlockOne(s, c, kind, k);
            && t.objects == s.objects && t.readyKeys == s.readyKeys && t.readySet == s.readySet
            && Waiters(t, k) == Waiters(s, k) + [c] && t.clock == s.clock + 1
            && (OnList in s.byKind ==> OnList in t.byKind) && (OnZset in s.byKind ==> OnZset in t.byKind)
            && t.clients == s.clients[c := Waiter(kind, {k}, None, true, s.clock)]
  {
  }

  lemma FourState()
    ensures var s := Four();
            && s.objects == map[] && s.blocking == map[] && s.readyKeys == [] && s.readySet == {}
            && s.byKind == Init().byKind
  {
  }

  function MixedSteps(): seq<Step> {
    [Connect(1), Connect(2), Connect(3), Connect(4)] +
    [WaitFor(1, OnList, ["k"], None, true), WaitFor(2, OnZset, ["k"], None, true),
     WaitFor(3, OnZset, ["k"], None, true), WaitFor(4, OnList, ["k"], None, true)]
  }

  lemma MixedRuns()
    ensures CanRun(Init(), MixedSteps()) && End(Init(), MixedSteps()) == MixedOf(Four()) && Inv(MixedOf(Four()))
  {
    hide CanRun, End, MixedOf, Inv;
    FourConnect();
    FourBlock(Four());
    RunAppend(Init(), [Connect(1), Connect(2), Connect(3), Connect(4)],
      [WaitFor(1, OnList, ["k"], None, true), WaitFor(2, OnZset, ["k"], None, true),
       WaitFor(3, OnZset, ["k"], None, true), WaitFor(4, OnList, ["k"], None, true)]);
    InitInv();
    RunInv(Init(), MixedSteps());
  }

  /** Clients 1 and 4 wait for a list at a key and 2 and 3 for a sorted set, in the order of their
      numbers. Then one element is added to a sorted set: client 4 is now before client 1. */
  lemma MixedOvertakes()
    ensures var steps := MixedSteps() + [SetKey("k", SortedSet(["v"])), ServeReady];
            CanRun(Init(), steps) &&
            var t := End(Init(), steps);
            && Waiters(t, "k") == [3, 4, 1] && !Ordered(t) && IsOf(t.clients, 1, OnList) && IsOf(t.clients, 4, OnList)
            && t.clients[1].since < t.clients[4].since
  {
    hide CanRun, End, MixedOf, Inv, Four, ServeLoop, MixedSteps, InOrder;
    FourState();
    MixedRuns();
    MixedState();
    var m := MixedOf(Four());
    var p := SetObject(m, "k", SortedSet(["v"]));
    StepInv(m, SetKey("k", SortedSet(["v"])));
    TakeReadyInv(p);
    var r := TakeReady(p);
    assert Waiters(r, "k") == Waiters(m, "k") && r.readyKeys == [];
    MixedServed(r);
    SortedSetReady(r, "k", 4);
    var t := HandleKey(p);
    assert t.readyKeys == [] && Handle(p) == t;
    Traced([m, p, t], [SetKey("k", SortedSet(["v"])), ServeReady]);
    RunAppend(Init(), MixedSteps(), [SetKey("k", SortedSet(["v"])), ServeReady]);
    Overtaken(t, "k", [3], 4, [], 1);
  }

  lemma Overtaken(s: State, k: Key, a: seq<Client>, x: Client, b: seq<Client>, y: Client)
    requires Waiters(s, k) == a + ([x] + (b + [y])) && IsOf(s.clients, x, OnList) && IsOf(s.clients, y, OnList)
    requires s.clients[x].since > s.clients[y].since
    ensures !Ordered(s)
  {
    hide InOrder;
    if Ordered(s) {
      OrderedAt(s, k, OnList);
      Joined(s.clients, a, [x] + (b + [y]), OnList);
      Joined(s.clients, [x], b + [y], OnList);
    }
  }
}
