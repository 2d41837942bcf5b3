/** Clients blocked on keys: the two-way index between clients and keys, the queue of ready keys,
    and serving clients that wait for a list or a sorted set, which can make further keys ready. */
module Blocked {
  import opened Wrappers
  import opened Sequences

  type Client = nat
  type Key = string      // a database and a key in it
  type Value = string

  /** A sorted set is the sequence of its elements by score. */
  datatype Obj = List(items: seq<Value>) | SortedSet(items: seq<Value>) | OtherType

  datatype Kind = NotBlocked | OnList | OnZset | OnStream

  /** What a client waits for; fromHead tells BLPOP and BZPOPMIN from BRPOP, BRPOPLPUSH and BZPOPMAX.
      since is the logical time when it blocked: nothing the server does depends on it. */
  datatype Waiter = Waiter(kind: Kind, keys: set<Key>, target: Option<Key>, fromHead: bool, since: nat)

  datatype Outcome = Got(value: Value) | Moved(value: Value, to: Key) | WrongType
  datatype Reply = Reply(client: Client, key: Key, outcome: Outcome)

  datatype State = State(
    objects: map<Key, Obj>, clients: map<Client, Waiter>, blocking: map<Key, seq<Client>>,
    readyKeys: seq<Key>, readySet: set<Key>, blocked: int, byKind: map<Kind, int>,
    unblocked: seq<Client>, flagged: set<Client>, replies: seq<Reply>, clock: nat)

  // --------------------------------------------------------------- invariant

  /** A client lists a key exactly when the key lists the client. */
  ghost predicate TwoWay(clients: map<Client, Waiter>, blocking: map<Key, seq<Client>>) {
    && (forall k, c | k in blocking && c in blocking[k] :: c in clients && k in clients[c].keys)
    && (forall c, k | c in clients && k in clients[c].keys :: k in blocking && c in blocking[k])
    && (forall k | k in blocking :: blocking[k] != [] && Distinct(blocking[k]))
  }

  ghost predicate Index(clients: map<Client, Waiter>, blocking: map<Key, seq<Client>>) {
    && TwoWay(clients, blocking)
    && (forall c | c in clients :: clients[c].kind.NotBlocked? <==> clients[c].keys == {})
  }

  function Of(clients: map<Client, Waiter>, kind: Kind): set<Client> {
    set c | c in clients && clients[c].kind == kind
  }

  function Waiting(clients: map<Client, Waiter>): set<Client> {
    set c | c in clients && !clients[c].kind.NotBlocked?
  }

  ghost predicate Counters(clients: map<Client, Waiter>, blocked: int, byKind: map<Kind, int>) {
    && blocked == |Waiting(clients)|
    && forall t: Kind | !t.NotBlocked? :: t in byKind && byKind[t] == |Of(clients, t)|
  }

  /** A queue without repetitions, and the set of its members that keeps it so. */
  predicate Coupled<T(==)>(queue: seq<T>, members: set<T>) {
    Distinct(queue) && (forall x | x in queue :: x in members) && (forall x | x in members :: x in queue)
  }

  ghost predicate Inv(s: State) {
    && Index(s.clients, s.blocking) && Counters(s.clients, s.blocked, s.byKind)
    && Coupled(s.readyKeys, s.readySet) && Coupled(s.unblocked, s.flagged)
  }

  // -------------------------------------------------------------- operations

  /** The lists of some keys without a client; a list that becomes empty goes away. */
  function Removed(b: map<Key, seq<Client>>, c: Client, keys: set<Key>): map<Key, seq<Client>> {
    map k | k in b && (k !in keys || Without(b[k], c) != []) :: if k in keys then Without(b[k], c) else b[k]
  }

  function Requeue(s: State, c: Client): State {
    if c in s.flagged then s else s.(flagged := s.flagged + {c}, unblocked := s.unblocked + [c])
  }

  predicate IsBlocked(s: State, c: Client) {
    c in s.clients && !s.clients[c].kind.NotBlocked? && s.clients[c].kind in s.byKind
  }

  function Idle(w: Waiter): Waiter {
    w.(kind := NotBlocked, keys := {}, target := None)
  }

  function Unblock(s: State, c: Client): State
    requires IsBlocked(s, c)
  {
    var w := s.clients[c];
    Requeue(s.(clients := s.clients[c := Idle(w)],
               blocking := Removed(s.blocking, c, w.keys),
               blocked := s.blocked - 1,
               byKind := s.byKind[w.kind := s.byKind[w.kind] - 1]), c)
  }

  function Signal(s: State, k: Key): State {
    if k !in s.blocking || k in s.readySet then s
    else s.(readyKeys := s.readyKeys + [k], readySet := s.readySet + {k})
  }

  function AddKey(s: State, c: Client, k: Key): State
    requires c in s.clients
  {
    var w := s.clients[c];
    if k in w.keys then s
    else s.(clients := s.clients[c := w.(keys := w.keys + {k})],
            blocking := s.blocking[k := (if k in s.blocking then s.blocking[k] else []) + [c]])
  }

  function AddKeys(s: State, c: Client, keys: seq<Key>): (t: State)
    requires c in s.clients
    ensures c in t.clients
    decreases |keys|
  {
    if keys == [] then s else AddKeys(AddKey(s, c, keys[0]), c, keys[1..])
  }

  function Block(s: State, c: Client, kind: Kind, keys: seq<Key>, target: Option<Key>, fromHead: bool): State
    requires c in s.clients && kind in s.byKind
  {
    var t := AddKeys(s, c, keys);
    t.(clients := t.clients[c := Waiter(kind, t.clients[c].keys, target, fromHead, s.clock)],
       blocked := s.blocked + 1, byKind := s.byKind[kind := s.byKind[kind] + 1], clock := s.clock + 1)
  }

  // ------------------------------------------------------ operations keep it

  lemma RemovedTwoWay(clients: map<Client, Waiter>, blocking: map<Key, seq<Client>>, c: Client, w: Waiter)
    requires TwoWay(clients, blocking) && c in clients && w.keys == {}
    ensures TwoWay(clients[c := w], Removed(blocking, c, clients[c].keys))
  {
    hide Distinct, Without;
    var after := Removed(blocking, c, clients[c].keys);
    forall k | k in blocking ensures Distinct(Without(blocking[k], c)) && c !in Without(blocking[k], c) {
      WithoutDistinct(blocking[k], c);
    }
    forall k, x | k in after && x in after[k] ensures x != c && x in clients && k in clients[x].keys {
      assert x in blocking[k];
    }
  }

  lemma RemovedIndex(clients: map<Client, Waiter>, blocking: map<Key, seq<Client>>, c: Client)
    requires Index(clients, blocking) && c in clients
    ensures Index(clients[c := Idle(clients[c])], Removed(blocking, c, clients[c].keys))
  {
    hide TwoWay;
    RemovedTwoWay(clients, blocking, c, Idle(clients[c]));
  }

  /** How one client's new kind changes a count. */
  lemma OfUpdate(clients: map<Client, Waiter>, c: Client, w: Waiter, k: Kind)
    requires c in clients && clients[c].kind != w.kind
    ensures |Of(clients[c := w], k)| ==
            |Of(clients, k)| + (if k == w.kind then 1 else 0) - (if k == clients[c].kind then 1 else 0)
  {
    if k == w.kind {
      assert Of(clients[c := w], k) == Of(clients, k) + {c};
    } else if k == clients[c].kind {
      assert Of(clients[c := w], k) == Of(clients, k) - {c};
    } else {
      assert Of(clients[c := w], k) == Of(clients, k);
    }
  }

  lemma RemovedCounters(clients: map<Client, Waiter>, blocked: int, byKind: map<Kind, int>, c: Client)
    requires Counters(clients, blocked, byKind) && c in clients && !clients[c].kind.NotBlocked?
    ensures var k := clients[c].kind;
            blocked > 0 && Counters(clients[c := Idle(clients[c])], blocked - 1, byKind[k := byKind[k] - 1])
  {
    hide Of;
    var w := Idle(clients[c]);
    assert Waiting(clients[c := w]) == Waiting(clients) - {c} && c in Waiting(clients);
    forall k: Kind ensures |Of(clients[c := w], k)| ==
        |Of(clients, k)| + (if k == w.kind then 1 else 0) - (if k == clients[c].kind then 1 else 0) {
      OfUpdate(clients, c, w, k);
    }
  }

  lemma CoupledMore<T>(queue: seq<T>, members: set<T>, x: T)
    requires Coupled(queue, members) && x !in members
    ensures Coupled(queue + [x], members + {x})
  {
  }

  lemma UnblockInv(s: State, c: Client)
    requires Inv(s) && IsBlocked(s, c)
    ensures Inv(Unblock(s, c)) && 0 <= Unblock(s, c).blocked < s.blocked
  {
    hide Index, Counters, Coupled, Removed;
    RemovedIndex(s.clients, s.blocking, c);
    RemovedCounters(s.clients, s.blocked, s.byKind, c);
    if c !in s.flagged { CoupledMore(s.unblocked, s.flagged, c); }
  }

  lemma SignalInv(s: State, k: Key)
    requires Inv(s)
    ensures Inv(Signal(s, k))
  {
    hide Index, Counters, Coupled;
    if k !in s.readySet { CoupledMore(s.readyKeys, s.readySet, k); }
  }

  // ------------------------------------------------------------------ serving

  function ItemsAt(objects: map<Key, Obj>, k: Key): seq<Value> {
    if k in objects && !objects[k].OtherType? then objects[k].items else []
  }

  /** The clients that an object can serve. */
  function KindOf(o: Obj): Kind {
    if o.List? then OnList else if o.SortedSet? then OnZset else NotBlocked
  }

  function KindAt(objects: map<Key, Obj>, k: Key): Kind {
    if k in objects then KindOf(objects[k]) else NotBlocked
  }

  function Popped(items: seq<Value>, fromHead: bool): Value
    requires items != []
  {
    if fromHead then items[0] else items[|items| - 1]
  }

  function Left(items: seq<Value>, fromHead: bool): seq<Value>
    requires items != []
  {
    if fromHead then items[1..] else items[..|items| - 1]
  }

  function PutBack(v: Value, rest: seq<Value>, fromHead: bool): seq<Value> {
    if fromHead then [v] + rest else rest + [v]
  }

  /** A client with a target gets nothing itself: its element moves to the list at the target. */
  function TargetFor(s: State, key: Key, c: Client): Option<Key>
    requires c in s.clients
  {
    if KindAt(s.objects, key).OnList? then s.clients[c].target else None
  }

  /** Pop a value for a waiter and hand it over, undoing the pop if the target is not a list. */
  function ServeOne(s: State, key: Key, c: Client): State
    requires IsBlocked(s, c) && ItemsAt(s.objects, key) != []
  {
    var w, items, target := s.clients[c], s.objects[key].items, TargetFor(s, key, c);
    var v, rest := Popped(items, w.fromHead), Left(items, w.fromHead);
    var t := Unblock(s.(objects := s.objects[key := s.objects[key].(items := rest)]), c);
    if target.None? then t.(replies := t.replies + [Reply(c, key, Got(v))])
    else
      var d := target.value;
      if d in t.objects && !t.objects[d].List? then
        t.(objects := t.objects[key := List(PutBack(v, rest, w.fromHead))],
           replies := t.replies + [Reply(c, key, WrongType)])
      else
        var u := if d in t.objects then t else Signal(t, d);
        u.(objects := u.objects[d := List([v] + ItemsAt(u.objects, d))],
           replies := u.replies + [Reply(c, key, Moved(v, d))])
  }

  function Rotate(s: State, key: Key): State
    requires key in s.blocking && s.blocking[key] != []
  {
    s.(blocking := s.blocking[key := s.blocking[key][1..] + [s.blocking[key][0]]])
  }

  function Waiters(s: State, key: Key): seq<Client> {
    if key in s.blocking then s.blocking[key] else []
  }

  ghost predicate Serving(s: State, key: Key) {
    Inv(s) && key in s.objects && !s.objects[key].OtherType?
  }

  lemma ServeOneInv(s: State, key: Key, c: Client)
    requires Serving(s, key) && IsBlocked(s, c) && ItemsAt(s.objects, key) != []
    ensures var t := ServeOne(s, key, c);
            Serving(t, key) && t.blocked < s.blocked && KindAt(t.objects, key) == KindAt(s.objects, key)
  {
    hide Index, Counters, Coupled, Unblock;
    var rest := Left(s.objects[key].items, s.clients[c].fromHead);
    var a := s.(objects := s.objects[key := s.objects[key].(items := rest)]);
    UnblockInv(a, c);
    UnblockObjects(a, c);
    if TargetFor(s, key, c).Some? { SignalInv(Unblock(a, c), TargetFor(s, key, c).value); }
  }

  lemma UnblockObjects(s: State, c: Client)
    requires IsBlocked(s, c)
    ensures Unblock(s, c).objects == s.objects && Unblock(s, c).replies == s.replies
  {
  }

  lemma RotateInv(s: State, key: Key)
    requires Serving(s, key) && Waiters(s, key) != []
    ensures Serving(Rotate(s, key), key)
  {
    hide Counters, Coupled;
    var l := s.blocking[key];
    assert forall c :: c in l <==> c in l[1..] + [l[0]];
  }

  lemma HeadIsBlocked(s: State, key: Key)
    requires Inv(s) && Waiters(s, key) != []
    ensures IsBlocked(s, Waiters(s, key)[0])
  {
    hide Of, Waiting, Distinct, Coupled;
    assert s.blocking[key][0] in s.blocking[key];
  }

  /** How the list of waiters changes when its head is served. */
  lemma HeadServed(s: State, key: Key)
    requires Serving(s, key) && Waiters(s, key) != [] && ItemsAt(s.objects, key) != []
    requires IsBlocked(s, Waiters(s, key)[0])
    ensures Waiters(ServeOne(s, key, Waiters(s, key)[0]), key) == Waiters(s, key)[1..]
  {
    hide Counters, Coupled, Distinct;
    var c := s.blocking[key][0];
    assert c in s.blocking[key];
    assert Without(s.blocking[key], c) == s.blocking[key][1..];
  }

  /** The loop over the waiters of a key: n of them are still to be looked at. Only the loop for
      sorted sets looks for elements first. */
  ghost function ServeLoop(s: State, key: Key, n: nat): (t: State)
    requires Serving(s, key) && n <= |Waiters(s, key)|
    ensures Serving(t, key) && t.blocked <= s.blocked && KindAt(t.objects, key) == KindAt(s.objects, key)
    ensures t.blocked == s.blocked ==> t.readyKeys == s.readyKeys && t.readySet == s.readySet
    decreases n
  {
    if n == 0 || (s.objects[key].SortedSet? && s.objects[key].items == []) then s
    else
      var c := Waiters(s, key)[0];
      HeadIsBlocked(s, key);
      if s.clients[c].kind != KindAt(s.objects, key) then
        RotateInv(s, key);
        ServeLoop(Rotate(s, key), key, n - 1)
      else if ItemsAt(s.objects, key) == [] then s
      else
        ServeOneInv(s, key, c);
        HeadServed(s, key);
        ServeLoop(ServeOne(s, key, c), key, n - 1)
  }

  /** An emptied object is deleted. */
  function DropEmpty(s: State, key: Key): State {
    if ItemsAt(s.objects, key) == [] then s.(objects := s.objects - {key}) else s
  }

  ghost function ServeKey(s: State, key: Key): (t: State)
    requires Serving(s, key)
    ensures Inv(t) && t.blocked <= s.blocked
    ensures t.blocked == s.blocked ==> t.readyKeys == s.readyKeys && t.readySet == s.readySet
  {
    var t := ServeLoop(s, key, |Waiters(s, key)|);
    // An empty sorted set, which no command leaves behind, is not looked at.
    if s.objects[key].SortedSet? && s.objects[key].items == [] then t else DropEmpty(t, key)
  }

  /** Take the first ready key and serve it. */
  function TakeReady(s: State): State
    requires s.readyKeys != []
  {
    s.(readyKeys := s.readyKeys[1..], readySet := s.readySet - {s.readyKeys[0]})
  }

  lemma TakeReadyInv(s: State)
    requires Inv(s) && s.readyKeys != []
    ensures Inv(TakeReady(s)) && TakeReady(s).blocked >= 0
  {
    hide Index;
  }

  ghost function HandleKey(s: State): (t: State)
    requires Inv(s) && s.readyKeys != []
    ensures Inv(t) && 0 <= t.blocked <= s.blocked && (t.blocked == s.blocked ==> |t.readyKeys| < |s.readyKeys|)
  {
    var key, r := s.readyKeys[0], TakeReady(s);
    TakeReadyInv(s);
    if key in r.objects && !r.objects[key].OtherType? then ServeKey(r, key) else r
  }

  /** Serve ready keys until there are none; serving may add new ones, but only by unblocking a client. */
  ghost function Handle(s: State): (t: State)
    requires Inv(s)
    ensures Inv(t) && t.readyKeys == [] && t.readySet == {}
    decreases s.blocked, |s.readyKeys|
  {
    if s.readyKeys == [] then s else Handle(HandleKey(s))
  }

  // ----------------------------------------------------------- no lost wakeup

  predicate WaitingFor(s: State, k: Key, kind: Kind) {
    k in s.blocking && exists c | c in s.blocking[k] :: c in s.clients && s.clients[c].kind == kind
  }

  /** Every key that has both elements and a client waiting for one is queued; objects at other keys
      than the one being served are not empty. */
  ghost predicate Awake(s: State, except: Option<Key>) {
    && (forall k | except != Some(k) && ItemsAt(s.objects, k) != [] && WaitingFor(s, k, KindAt(s.objects, k)) ::
          k in s.readySet)
    && (forall k | except != Some(k) && k in s.objects && !s.objects[k].OtherType? :: s.objects[k].items != [])
  }

  lemma UnblockWaits(s: State, c: Client, k: Key, kind: Kind)
    requires IsBlocked(s, c) && !kind.NotBlocked? && WaitingFor(Unblock(s, c), k, kind)
    ensures WaitingFor(s, k, kind)
  {
    var t := Unblock(s, c);
    var x :| x in t.blocking[k] && x in t.clients && t.clients[x].kind == kind;
    assert x in s.blocking[k] && x != c;
  }

  /** Serving keeps keys ready, and makes a new list ready if a client waits for it. */
  lemma ServeOneReady(s: State, key: Key, c: Client)
    requires IsBlocked(s, c) && ItemsAt(s.objects, key) != []
    ensures var t := ServeOne(s, key, c);
            && s.readySet <= t.readySet
            && forall k | k in t.objects && k !in s.objects && k in t.blocking :: k in t.readySet
  {
    hide Removed;
  }

  lemma ServeOneAwake(s: State, key: Key, c: Client)
    requires IsBlocked(s, c) && ItemsAt(s.objects, key) != [] && Awake(s, Some(key))
    ensures Awake(ServeOne(s, key, c), Some(key))
  {
    hide WaitingFor, ServeOne;
    var t := ServeOne(s, key, c);
    ServeOneReady(s, key, c);
    ServeOneEffect(s, key, c);
    forall k | k != key && ItemsAt(t.objects, k) != [] && WaitingFor(t, k, KindAt(t.objects, k))
      ensures k in t.readySet
    {
      ServeOneWaits(s, key, c, k, KindAt(t.objects, k));
    }
  }

  lemma ServeOneWaits(s: State, key: Key, c: Client, k: Key, kind: Kind)
    requires IsBlocked(s, c) && ItemsAt(s.objects, key) != []
    requires !kind.NotBlocked? && WaitingFor(ServeOne(s, key, c), k, kind)
    ensures WaitingFor(s, k, kind) && k in ServeOne(s, key, c).blocking
  {
    hide Removed;
    var t := ServeOne(s, key, c);
    var a := s.(objects := map[]);
    assert Unblock(a, c).blocking == t.blocking && Unblock(a, c).clients == t.clients;
    UnblockWaits(a, c, k, kind);
  }

  lemma RotateWaits(s: State, key: Key, k: Key, kind: Kind)
    requires Waiters(s, key) != [] && WaitingFor(Rotate(s, key), k, kind)
    ensures WaitingFor(s, k, kind)
  {
    var t := Rotate(s, key);
    var x :| x in t.blocking[k] && x in t.clients && t.clients[x].kind == kind;
    assert x in s.blocking[k];
  }

  /** The loop leaves other keys awake; n counts down over clients of which those after n have been
      looked at, so that in the end no waiter is left or no element is. */
  lemma {:induction false} LoopAwake(s: State, key: Key, n: nat)
    requires Serving(s, key) && n <= |Waiters(s, key)| && Awake(s, Some(key))
    requires forall i | n <= i < |Waiters(s, key)| :: NotFor(s, Waiters(s, key)[i], KindAt(s.objects, key))
    ensures var t := ServeLoop(s, key, n);
            Awake(t, Some(key)) && (ItemsAt(t.objects, key) == [] || !WaitingFor(t, key, KindAt(t.objects, key)))
    decreases n
  {
    hide Inv, ServeOne, KindAt;
    if n > 0 && ItemsAt(s.objects, key) != [] {
      var c, kind := Waiters(s, key)[0], KindAt(s.objects, key);
      HeadIsBlocked(s, key);
      if s.clients[c].kind != kind {
        RotateInv(s, key);
        RotateAwake(s, key);
        LoopAwake(Rotate(s, key), key, n - 1);
      } else {
        ServeOneInv(s, key, c);
        HeadServed(s, key);
        ServeOneAwake(s, key, c);
        var t := ServeOne(s, key, c);
        forall i | n - 1 <= i < |Waiters(t, key)| ensures NotFor(t, Waiters(t, key)[i], kind) {
          assert Waiters(t, key)[i] == Waiters(s, key)[i + 1];
          ServeOneKinds(s, key, c, Waiters(s, key)[i + 1], kind);
        }
        LoopAwake(t, key, n - 1);
      }
    } else if n > 0 {
      NoItems(s, key, n);
    }
  }

  predicate NotFor(s: State, c: Client, kind: Kind) {
    c in s.clients ==> s.clients[c].kind != kind
  }

  lemma ServeOneKinds(s: State, key: Key, c: Client, x: Client, kind: Kind)
    requires IsBlocked(s, c) && ItemsAt(s.objects, key) != [] && NotFor(s, x, kind) && !kind.NotBlocked?
    ensures NotFor(ServeOne(s, key, c), x, kind)
  {
    hide Removed;
  }

  /** Without elements the loop at most rotates. */
  lemma {:induction false} NoItems(s: State, key: Key, n: nat)
    requires Serving(s, key) && n <= |Waiters(s, key)| && s.objects[key].items == []
    ensures var t := ServeLoop(s, key, n);
            t.objects == s.objects && (Awake(s, Some(key)) ==> Awake(t, Some(key)))
    decreases n
  {
    hide Inv, ServeOne, WaitingFor;
    if n > 0 && s.objects[key].List? {
      HeadIsBlocked(s, key);
      if !s.clients[Waiters(s, key)[0]].kind.OnList? {
        RotateInv(s, key);
        if Awake(s, Some(key)) { RotateAwake(s, key); }
        NoItems(Rotate(s, key), key, n - 1);
      }
    }
  }

  lemma RotateAwake(s: State, key: Key)
    requires Waiters(s, key) != [] && Awake(s, Some(key))
    ensures Awake(Rotate(s, key), Some(key))
  {
    hide WaitingFor;
    forall k, kind | WaitingFor(Rotate(s, key), k, kind) ensures WaitingFor(s, k, kind) {
      RotateWaits(s, key, k, kind);
    }
  }

  lemma ServeKeyAwake(s: State, key: Key)
    requires Serving(s, key) && Awake(s, Some(key)) && s.objects[key].items != []
    ensures Awake(ServeKey(s, key), None)
  {
    hide Inv, ServeLoop, WaitingFor;
    LoopAwake(s, key, |Waiters(s, key)|);
    DropEmptyAwake(ServeLoop(s, key, |Waiters(s, key)|), key);
  }

  lemma DropEmptyAwake(s: State, key: Key)
    requires Awake(s, Some(key)) && (ItemsAt(s.objects, key) == [] || !WaitingFor(s, key, KindAt(s.objects, key)))
    ensures Awake(DropEmpty(s, key), None)
  {
    var t := DropEmpty(s, key);
    assert forall k, kind :: WaitingFor(t, k, kind) == WaitingFor(s, k, kind);
  }

  lemma HandleKeyAwake(s: State)
    requires Inv(s) && s.readyKeys != [] && Awake(s, None)
    ensures Awake(HandleKey(s), None)
  {
    hide Index, Counters, Coupled, ServeKey;
    var key, r := s.readyKeys[0], TakeReady(s);
    TakeReadyInv(s);
    assert forall k, kind :: WaitingFor(r, k, kind) == WaitingFor(s, k, kind);
    if key in r.objects && !r.objects[key].OtherType? { ServeKeyAwake(r, key); }
  }

  /** No wakeup is lost: when handling ends, no key has both an element and a client waiting for one. */
  lemma {:induction false} NoLostWakeup(s: State)
    requires Inv(s) && Awake(s, None)
    ensures var t := Handle(s);
            Awake(t, None) && forall k | ItemsAt(t.objects, k) != [] :: !WaitingFor(t, k, KindAt(t.objects, k))
    decreases s.blocked, |s.readyKeys|
  {
    hide Index, Coupled, HandleKey, WaitingFor, KindAt;
    if s.readyKeys != [] {
      HandleKeyAwake(s);
      NoLostWakeup(HandleKey(s));
    }
  }

  // ------------------------------------------------------------- conservation

  /** All elements of the lists at some keys. */
  function Elems(objects: map<Key, Obj>, keys: seq<Key>): multiset<Value>
    decreases |keys|
  {
    if keys == [] then multiset{} else multiset(ItemsAt(objects, keys[0])) + Elems(objects, keys[1..])
  }

  /** The elements handed to clients that keep them. */
  function Delivered(replies: seq<Reply>): multiset<Value>
    decreases |replies|
  {
    if replies == [] then multiset{}
    else
      var last := replies[|replies| - 1];
      Delivered(replies[..|replies| - 1]) + if last.outcome.Got? then multiset{last.outcome.value} else multiset{}
  }

  lemma DeliveredMore(replies: seq<Reply>, r: Reply)
    ensures Delivered(replies + [r]) ==
            Delivered(replies) + if r.outcome.Got? then multiset{r.outcome.value} else multiset{}
  {
    assert (replies + [r])[..|replies|] == replies;
  }

  lemma {:induction false} ElemsElsewhere(a: map<Key, Obj>, b: map<Key, Obj>, keys: seq<Key>)
    requires forall i | 0 <= i < |keys| :: ItemsAt(a, keys[i]) == ItemsAt(b, keys[i])
    ensures Elems(a, keys) == Elems(b, keys)
    decreases |keys|
  {
    hide ItemsAt;
    if keys != [] { ElemsElsewhere(a, b, keys[1..]); }
  }

  lemma {:induction false} ElemsUpdate(objects: map<Key, Obj>, keys: seq<Key>, k: Key, o: Obj)
    requires Distinct(keys) && k in keys && !o.OtherType?
    ensures Elems(objects[k := o], keys) + multiset(ItemsAt(objects, k)) == Elems(objects, keys) + multiset(o.items)
    decreases |keys|
  {
    hide Elems;
    var after, rest := objects[k := o], keys[1..];
    ElemsHead(objects, keys);
    ElemsHead(after, keys);
    if keys[0] == k {
      assert k !in rest;
      ElemsElsewhere(objects, after, rest);
    } else {
      ElemsUpdate(objects, rest, k, o);
      assert ItemsAt(after, keys[0]) == ItemsAt(objects, keys[0]);
      AddBoth(multiset(ItemsAt(objects, keys[0])), Elems(after, rest), multiset(ItemsAt(objects, k)),
        Elems(objects, rest), multiset(o.items));
    }
  }

  lemma ElemsHead(objects: map<Key, Obj>, keys: seq<Key>)
    requires keys != []
    ensures Elems(objects, keys) == multiset(ItemsAt(objects, keys[0])) + Elems(objects, keys[1..])
  {
  }

  lemma AddBoth(h: multiset<Value>, a: multiset<Value>, b: multiset<Value>, c: multiset<Value>, d: multiset<Value>)
    requires a + b == c + d
    ensures (h + a) + b == (h + c) + d
  {
    assert (h + a) + b == h + (a + b) && (h + c) + d == h + (c + d);
  }

  /** Every key that can hold an element. */
  predicate Covers(s: State, keys: seq<Key>) {
    && Distinct(keys) && (forall k | k in s.objects :: k in keys)
    && (forall c | c in s.clients && s.clients[c].target.Some? :: s.clients[c].target.value in keys)
  }

  function Total(s: State, keys: seq<Key>): multiset<Value> {
    Elems(s.objects, keys) + Delivered(s.replies)
  }

  lemma PopSplits(items: seq<Value>, fromHead: bool)
    requires items != []
    ensures var v, rest := Popped(items, fromHead), Left(items, fromHead);
            multiset(items) == multiset(rest) + multiset{v} && items == PutBack(v, rest, fromHead)
  {
    var last := |items| - 1;
    assert items == [items[0]] + items[1..] && items == items[..last] + [items[last]];
  }

  lemma Cancel(a: multiset<Value>, b: multiset<Value>, c: multiset<Value>)
    requires a + c == b + c
    ensures a == b
  {
    forall x ensures a[x] == b[x] { assert (a + c)[x] == (b + c)[x]; }
  }

  lemma PopElems(objects: map<Key, Obj>, keys: seq<Key>, k: Key, fromHead: bool)
    requires Distinct(keys) && k in keys && ItemsAt(objects, k) != []
    ensures var items := ItemsAt(objects, k);
            Elems(objects[k := objects[k].(items := Left(items, fromHead))], keys) + multiset{Popped(items, fromHead)}
            == Elems(objects, keys)
  {
    hide Elems, Distinct;
    var items := ItemsAt(objects, k);
    var rest, v := Left(items, fromHead), Popped(items, fromHead);
    var after := Elems(objects[k := objects[k].(items := rest)], keys);
    ElemsUpdate(objects, keys, k, objects[k].(items := rest));
    PopSplits(items, fromHead);
    assert after + multiset{v} + multiset(rest) == after + (multiset(rest) + multiset{v});
    Cancel(after + multiset{v}, Elems(objects, keys), multiset(rest));
  }

  lemma PushElems(objects: map<Key, Obj>, keys: seq<Key>, k: Key, v: Value)
    requires Distinct(keys) && k in keys
    ensures Elems(objects[k := List([v] + ItemsAt(objects, k))], keys) == Elems(objects, keys) + multiset{v}
  {
    hide Elems, Distinct;
    var to := ItemsAt(objects, k);
    ElemsUpdate(objects, keys, k, List([v] + to));
    assert multiset([v] + to) == multiset{v} + multiset(to);
    var before := Elems(objects, keys);
    assert before + (multiset{v} + multiset(to)) == before + multiset{v} + multiset(to);
    Cancel(Elems(objects[k := List([v] + to)], keys), before + multiset{v}, multiset(to));
  }

  /** What serving does to the objects, and what it replies. */
  lemma ServeOneEffect(s: State, key: Key, c: Client)
    requires IsBlocked(s, c) && ItemsAt(s.objects, key) != []
    ensures var t, w, items := ServeOne(s, key, c), s.clients[c], ItemsAt(s.objects, key);
            var v, target := Popped(items, w.fromHead), TargetFor(s, key, c);
            var popped := s.objects[key := s.objects[key].(items := Left(items, w.fromHead))];
            if target.None? then t.objects == popped && t.replies == s.replies + [Reply(c, key, Got(v))]
            else
              var d := target.value;
              if d in popped && !popped[d].List? then
                t.objects == s.objects && t.replies == s.replies + [Reply(c, key, WrongType)]
              else
                && t.objects == popped[d := List([v] + ItemsAt(popped, d))]
                && t.replies == s.replies + [Reply(c, key, Moved(v, d))]
    ensures ServeOne(s, key, c).clients == s.clients[c := Idle(s.clients[c])] && ServeOne(s, key, c).clock == s.clock
  {
    hide Removed;
    PopSplits(ItemsAt(s.objects, key), s.clients[c].fromHead);
  }

  /** Every popped element is delivered, moved to the target, or put back where it was. */
  lemma ServeOneConserves(s: State, key: Key, c: Client, keys: seq<Key>)
    requires IsBlocked(s, c) && ItemsAt(s.objects, key) != [] && Covers(s, keys)
    ensures Total(ServeOne(s, key, c), keys) == Total(s, keys) && Covers(ServeOne(s, key, c), keys)
  {
    hide Elems, Delivered, Distinct, ServeOne, Popped, Left;
    ServeOneEffect(s, key, c);
    var t, w, items, target := ServeOne(s, key, c), s.clients[c], ItemsAt(s.objects, key), TargetFor(s, key, c);
    var popped := s.objects[key := s.objects[key].(items := Left(items, w.fromHead))];
    PopElems(s.objects, keys, key, w.fromHead);
    DeliveredMore(s.replies, t.replies[|s.replies|]);
    if target.Some? && !(target.value in popped && !popped[target.value].List?) {
      PushElems(popped, keys, target.value, Popped(items, w.fromHead));
    }
  }

  lemma {:induction false} LoopConserves(s: State, key: Key, n: nat, keys: seq<Key>)
    requires Serving(s, key) && n <= |Waiters(s, key)| && Covers(s, keys)
    ensures Total(ServeLoop(s, key, n), keys) == Total(s, keys) && Covers(ServeLoop(s, key, n), keys)
    decreases n
  {
    hide Inv, ServeOne, Total, ItemsAt;
    if n > 0 && !(s.objects[key].SortedSet? && s.objects[key].items == []) {
      var c := Waiters(s, key)[0];
      HeadIsBlocked(s, key);
      if s.clients[c].kind != KindAt(s.objects, key) {
        RotateInv(s, key);
        RotateConserves(s, key, keys);
        LoopConserves(Rotate(s, key), key, n - 1, keys);
      } else if ItemsAt(s.objects, key) != [] {
        ServeOneInv(s, key, c);
        HeadServed(s, key);
        ServeOneConserves(s, key, c, keys);
        LoopConserves(ServeOne(s, key, c), key, n - 1, keys);
      }
    }
  }

  lemma RotateConserves(s: State, key: Key, keys: seq<Key>)
    requires Waiters(s, key) != [] && Covers(s, keys)
    ensures Total(Rotate(s, key), keys) == Total(s, keys) && Covers(Rotate(s, key), keys)
  {
  }

  lemma HandleKeyConserves(s: State, keys: seq<Key>)
    requires Inv(s) && s.readyKeys != [] && Covers(s, keys)
    ensures Total(HandleKey(s), keys) == Total(s, keys) && Covers(HandleKey(s), keys)
  {
    hide Inv, ServeLoop, DropEmpty, Total, Covers;
    var key, r := s.readyKeys[0], TakeReady(s);
    TakeReadyInv(s);
    SameConserves(s, r, keys);
    if key in r.objects && !r.objects[key].OtherType? {
      var n := |Waiters(r, key)|;
      LoopConserves(r, key, n, keys);
      DropConserves(ServeLoop(r, key, n), key, keys);
    }
  }

  lemma SameConserves(s: State, t: State, keys: seq<Key>)
    requires Covers(s, keys) && t.objects == s.objects && t.clients == s.clients && t.replies == s.replies
    ensures Total(t, keys) == Total(s, keys) && Covers(t, keys)
  {
  }

  lemma DropConserves(s: State, key: Key, keys: seq<Key>)
    requires Covers(s, keys)
    ensures Total(DropEmpty(s, key), keys) == Total(s, keys) && Covers(DropEmpty(s, key), keys)
  {
    hide Elems, Distinct;
    ElemsElsewhere(s.objects, DropEmpty(s, key).objects, keys);
  }

  /** Handling ready keys creates and loses no element. */
  lemma {:induction false} HandleConserves(s: State, keys: seq<Key>)
    requires Inv(s) && Covers(s, keys)
    ensures Total(Handle(s), keys) == Total(s, keys)
    decreases s.blocked, |s.readyKeys|
  {
    hide Inv, HandleKey, Total, Covers;
    if s.readyKeys != [] {
      HandleKeyConserves(s, keys);
      HandleConserves(HandleKey(s), keys);
    }
  }

  // ----------------------------------------------------------------- blocking

  lemma AddKeyTwoWay(s: State, c: Client, k: Key)
    requires c in s.clients && TwoWay(s.clients, s.blocking)
    ensures var t := AddKey(s, c, k);
            && TwoWay(t.clients, t.blocking)
            && t.clients == s.clients[c := s.clients[c].(keys := s.clients[c].keys + {k})]
            && t == s.(clients := t.clients, blocking := t.blocking)
            && (forall x | x != k :: Waiters(t, x) == Waiters(s, x))
            && (Waiters(t, k) == Waiters(s, k) || Waiters(t, k) == Waiters(s, k) + [c])
  {
    hide Distinct;
    if k in s.clients[c].keys {
      assert s.clients[c].keys + {k} == s.clients[c].keys;
    } else {
      assert c !in Waiters(s, k);
      AppendDistinct(Waiters(s, k), c);
    }
  }

  lemma AppendDistinct(l: seq<Client>, c: Client)
    requires c !in l && (l == [] || Distinct(l))
    ensures Distinct(l + [c])
  {
  }

  lemma {:induction false} AddKeysTwoWay(s: State, c: Client, keys: seq<Key>)
    requires c in s.clients && TwoWay(s.clients, s.blocking)
    ensures var t := AddKeys(s, c, keys);
            && TwoWay(t.clients, t.blocking)
            && t.clients == s.clients[c := s.clients[c].(keys := s.clients[c].keys + Elements(keys))]
            && t == s.(clients := t.clients, blocking := t.blocking)
            && (forall x | x !in keys :: Waiters(t, x) == Waiters(s, x))
            && (forall x, y | y in Waiters(t, x) && y != c :: y in Waiters(s, x))
    decreases |keys|
  {
    hide TwoWay, Waiters;
    if keys != [] {
      AddKeyTwoWay(s, c, keys[0]);
      AddKeysTwoWay(AddKey(s, c, keys[0]), c, keys[1..]);
      assert s.clients[c].keys + {keys[0]} + Elements(keys[1..]) == s.clients[c].keys + Elements(keys);
    } else {
      assert s.clients[c].keys + Elements(keys) == s.clients[c].keys;
      assert s.clients == s.clients[c := s.clients[c].(keys := s.clients[c].keys + Elements(keys))];
    }
  }

  predicate CanBlock(s: State, c: Client, kind: Kind, keys: seq<Key>) {
    c in s.clients && s.clients[c].kind.NotBlocked? && !kind.NotBlocked? && keys != []
  }

  lemma BlockInv(s: State, c: Client, kind: Kind, keys: seq<Key>, target: Option<Key>, fromHead: bool)
    requires Inv(s) && CanBlock(s, c, kind, keys)
    ensures kind in s.byKind && Inv(Block(s, c, kind, keys, target, fromHead))
  {
    hide TwoWay, Coupled;
    var t := AddKeys(s, c, keys);
    AddKeysTwoWay(s, c, keys);
    assert keys[0] in Elements(keys);
    assert s.clients[c].keys == {} && {} + Elements(keys) == Elements(keys);
    var w := Waiter(kind, t.clients[c].keys, target, fromHead, s.clock);
    TwoWayKeys(t.clients, t.blocking, c, w);
    BlockCounters(s.clients, s.blocked, s.byKind, c, w);
    assert t.clients[c := w] == s.clients[c := w];
  }

  lemma TwoWayKeys(clients: map<Client, Waiter>, blocking: map<Key, seq<Client>>, c: Client, w: Waiter)
    requires TwoWay(clients, blocking) && c in clients && w.keys == clients[c].keys
    ensures TwoWay(clients[c := w], blocking)
  {
  }

  lemma BlockCounters(clients: map<Client, Waiter>, blocked: int, byKind: map<Kind, int>, c: Client, w: Waiter)
    requires Counters(clients, blocked, byKind) && c in clients && clients[c].kind.NotBlocked? && !w.kind.NotBlocked?
    ensures Counters(clients[c := w], blocked + 1, byKind[w.kind := byKind[w.kind] + 1])
  {
    hide Of;
    assert Waiting(clients[c := w]) == Waiting(clients) + {c};
    forall k: Kind ensures |Of(clients[c := w], k)| ==
        |Of(clients, k)| + (if k == w.kind then 1 else 0) - (if k == clients[c].kind then 1 else 0) {
      OfUpdate(clients, c, w, k);
    }
  }

  lemma NotWaiting(s: State, c: Client, k: Key)
    requires Inv(s) && c in s.clients && s.clients[c].kind.NotBlocked?
    ensures c !in Waiters(s, k)
  {
    hide Counters, Coupled;
  }

  lemma BlockAwake(s: State, c: Client, kind: Kind, keys: seq<Key>, target: Option<Key>, fromHead: bool)
    requires Inv(s) && CanBlock(s, c, kind, keys) && Awake(s, None)
    requires kind.OnStream? || forall k | k in keys :: k !in s.objects
    ensures kind in s.byKind && Awake(Block(s, c, kind, keys, target, fromHead), None)
  {
    hide TwoWay, Coupled;
    var t := Block(s, c, kind, keys, target, fromHead);
    AddKeysTwoWay(s, c, keys);
    forall k | ItemsAt(t.objects, k) != [] && WaitingFor(t, k, KindAt(t.objects, k))
      ensures WaitingFor(s, k, KindAt(s.objects, k))
    {
      var x :| x in t.blocking[k] && x in t.clients && t.clients[x].kind == KindAt(t.objects, k);
      assert x in Waiters(AddKeys(s, c, keys), k);
      NotWaiting(s, c, k);
      assert x != c && x in Waiters(s, k);
    }
  }
}
