/** The order in which blocked clients are served. Serving a key moves the waiters of other kinds to
    the end of its queue, so that first come, first served holds for a queue only under a condition. */
module BlockedOrder {
  import opened Wrappers
  import opened Sequences
  import opened Blocked

  predicate IsOf(clients: map<Client, Waiter>, c: Client, kind: Kind) {
    c in clients && clients[c].kind == kind
  }

  /** The clients among l that wait for an object of a kind, in the same order. */
  function Only(clients: map<Client, Waiter>, l: seq<Client>, kind: Kind): (r: seq<Client>)
    ensures forall x | x in r :: x in l && IsOf(clients, x, kind)
    decreases |l|
  {
    if l == [] then [] else (if IsOf(clients, l[0], kind) then [l[0]] else []) + Only(clients, l[1..], kind)
  }

  /** The other clients among l, in the same order. */
  function Others(clients: map<Client, Waiter>, l: seq<Client>, kind: Kind): (r: seq<Client>)
    ensures forall x | x in r :: x in l && !IsOf(clients, x, kind)
    ensures forall x | x in l && !IsOf(clients, x, kind) :: x in r
    decreases |l|
  {
    if l == [] then [] else (if IsOf(clients, l[0], kind) then [] else [l[0]]) + Others(clients, l[1..], kind)
  }

  /** Whether serving a client makes the object smaller: not if the element moves back to the same
      list, nor if the target is not a list. */
  predicate Consumes(s: State, key: Key, c: Client)
    requires c in s.clients
  {
    var target := TargetFor(s, key, c);
    target.Some? ==> target.value != key && (target.value in s.objects ==> s.objects[target.value].List?)
  }

  /** How many of the clients l, the first waiters of a key, are looked at when the key has m elements. */
  function Looked(s: State, key: Key, l: seq<Client>, m: nat): (j: nat)
    requires key in s.objects
    ensures j <= |l|
    decreases |l|
  {
    if l == [] || (s.objects[key].SortedSet? && m == 0) then 0
    else if !IsOf(s.clients, l[0], KindAt(s.objects, key)) then 1 + Looked(s, key, l[1..], m)
    else if m == 0 then 0
    else 1 + Looked(s, key, l[1..], if Consumes(s, key, l[0]) then m - 1 else m)
  }

  function Served(replies: seq<Reply>): seq<Client> {
    seq(|replies|, i requires 0 <= i < |replies| => replies[i].client)
  }

  // ------------------------------------------------------------ exact queues

  lemma {:induction false} SameLook(s: State, t: State, key: Key, l: seq<Client>, m: nat)
    requires key in s.objects && key in t.objects && KindOf(s.objects[key]) == KindOf(t.objects[key])
    requires forall x | x in l :: x in s.clients && x in t.clients && s.clients[x].kind == t.clients[x].kind
    requires forall x | x in l :: Consumes(s, key, x) == Consumes(t, key, x)
    ensures Looked(s, key, l, m) == Looked(t, key, l, m)
    decreases |l|
  {
    hide Consumes;
    if l != [] {
      var kind := KindAt(s.objects, key);
      if m > 0 && IsOf(s.clients, l[0], kind) && Consumes(s, key, l[0]) { SameLook(s, t, key, l[1..], m - 1); }
      SameLook(s, t, key, l[1..], m);
    }
  }

  lemma {:induction false} SameOnly(a: map<Client, Waiter>, b: map<Client, Waiter>, l: seq<Client>, kind: Kind)
    requires forall x | x in l :: IsOf(a, x, kind) == IsOf(b, x, kind)
    ensures Only(a, l, kind) == Only(b, l, kind) && Others(a, l, kind) == Others(b, l, kind)
    decreases |l|
  {
    hide IsOf;
    if l != [] {
      assert forall x | x in l[1..] :: x in l;
      SameOnly(a, b, l[1..], kind);
    }
  }

  lemma ServeOneLook(s: State, key: Key, c: Client, l: seq<Client>, m: nat)
    requires Serving(s, key) && IsBlocked(s, c) && ItemsAt(s.objects, key) != [] && c !in l
    requires forall x | x in l :: x in s.clients
    ensures var t, kind := ServeOne(s, key, c), KindAt(s.objects, key);
            && key in t.objects && Looked(t, key, l, m) == Looked(s, key, l, m)
            && Only(t.clients, l, kind) == Only(s.clients, l, kind)
            && Others(t.clients, l, kind) == Others(s.clients, l, kind)
  {
    hide ServeOne, Inv, Only, Others, Looked;
    var t := ServeOne(s, key, c);
    ServeOneEffect(s, key, c);
    SameOnly(s.clients, t.clients, l, KindAt(s.objects, key));
    SameLook(s, t, key, l, m);
  }

  lemma WaitersAreClients(s: State, key: Key, x: Client)
    requires Inv(s) && x in Waiters(s, key)
    ensures IsBlocked(s, x)
  {
    hide Of, Waiting, Distinct, Coupled;
  }

  lemma HeadOnce(s: State, key: Key)
    requires Inv(s) && Waiters(s, key) != []
    ensures Waiters(s, key)[0] !in Waiters(s, key)[1..]
  {
    hide Counters, Coupled;
  }

  /** The first j waiters have been looked at: those of the right kind were served in turn, the others
      moved behind the waiters not looked at. */
  ghost predicate Passed(s: State, key: Key, j: nat, t: State)
    requires j <= |Waiters(s, key)|
  {
    var q, kind := Waiters(s, key), KindAt(s.objects, key);
    && Waiters(t, key) == q[j..] + Others(s.clients, q[..j], kind)
    && Served(t.replies) == Served(s.replies) + Only(s.clients, q[..j], kind)
    && (forall x | x !in q[..j] || !IsOf(s.clients, x, kind) :: SameClient(s, t, x))
  }

  predicate SameClient(s: State, t: State, x: Client) {
    (x in t.clients <==> x in s.clients) && (x in t.clients ==> t.clients[x] == s.clients[x])
  }

  function LookedAt(s: State, key: Key, n: nat): (j: nat)
    requires key in s.objects && n <= |Waiters(s, key)|
    ensures j <= n
  {
    Looked(s, key, Waiters(s, key)[..n], |ItemsAt(s.objects, key)|)
  }

  lemma RotateLook(s: State, key: Key, n: nat)
    requires key in s.objects && 0 < n <= |Waiters(s, key)|
    requires !IsOf(s.clients, Waiters(s, key)[0], KindAt(s.objects, key))
    requires !(s.objects[key].SortedSet? && ItemsAt(s.objects, key) == [])
    ensures LookedAt(s, key, n) == 1 + LookedAt(Rotate(s, key), key, n - 1)
  {
    hide IsOf, Consumes;
    var q := Waiters(s, key);
    assert (q[1..] + [q[0]])[..n - 1] == q[..n][1..];
    RotatedLook(s, key, q[..n][1..], |ItemsAt(s.objects, key)|);
  }

  lemma {:induction false} RotatedLook(s: State, key: Key, l: seq<Client>, m: nat)
    requires Waiters(s, key) != [] && key in s.objects
    ensures Looked(Rotate(s, key), key, l, m) == Looked(s, key, l, m)
    decreases |l|
  {
    if l != [] {
      if m > 0 { RotatedLook(s, key, l[1..], m - 1); }
      RotatedLook(s, key, l[1..], m);
    }
  }

  lemma Unfold(clients: map<Client, Waiter>, q: seq<Client>, i: nat, kind: Kind)
    requires i < |q|
    ensures var l := q[1..][..i];
            && q[..1 + i] == [q[0]] + l
            && Only(clients, q[..1 + i], kind) ==
               (if IsOf(clients, q[0], kind) then [q[0]] else []) + Only(clients, l, kind)
            && Others(clients, q[..1 + i], kind) ==
               (if IsOf(clients, q[0], kind) then [] else [q[0]]) + Others(clients, l, kind)
  {
    hide IsOf;
    assert q[..1 + i][1..] == q[1..][..i];
  }

  lemma RotatePasses(s: State, key: Key, i: nat, t: State)
    requires i < |Waiters(s, key)|
    requires !IsOf(s.clients, Waiters(s, key)[0], KindAt(s.objects, key))
    requires Passed(Rotate(s, key), key, i, t)
    ensures Passed(s, key, 1 + i, t)
  {
    hide Served, Only, Others, IsOf, KindAt, SameClient;
    var q, kind, r := Waiters(s, key), KindAt(s.objects, key), Rotate(s, key);
    var p := Waiters(r, key);
    Unfold(s.clients, q, i, kind);
    assert p == q[1..] + [q[0]] && p[..i] == q[1..][..i] && p[i..] == q[1 + i..] + [q[0]];
    var l := Others(s.clients, p[..i], kind);
    assert q[1 + i..] + [q[0]] + l == q[1 + i..] + ([q[0]] + l);
    assert forall x :: SameClient(r, t, x) ==> SameClient(s, t, x) by { SameRotated(s, key, t); }
  }

  lemma SameRotated(s: State, key: Key, t: State)
    requires Waiters(s, key) != []
    ensures forall x :: SameClient(Rotate(s, key), t, x) ==> SameClient(s, t, x)
  {
  }

  lemma ServeLook(s: State, key: Key, n: nat)
    requires Serving(s, key) && 0 < n <= |Waiters(s, key)| && ItemsAt(s.objects, key) != []
    requires IsBlocked(s, Waiters(s, key)[0]) && IsOf(s.clients, Waiters(s, key)[0], KindAt(s.objects, key))
    requires Waiters(ServeOne(s, key, Waiters(s, key)[0]), key) == Waiters(s, key)[1..]
    ensures var r := ServeOne(s, key, Waiters(s, key)[0]);
            key in r.objects && LookedAt(s, key, n) == 1 + LookedAt(r, key, n - 1)
  {
    hide Inv, Served, ServeOne, Consumes, IsOf, ItemsAt, KindAt;
    var q := Waiters(s, key);
    var c, l := q[0], q[1..][..n - 1];
    var r := ServeOne(s, key, c);
    assert q[..n][1..] == l && q[..n][0] == c;
    HeadOnce(s, key);
    forall x | x in l ensures x in s.clients && x != c { WaitersAreClients(s, key, x); }
    ServedOne(s, key, c);
    ServeOneLook(s, key, c, l, |ItemsAt(r.objects, key)|);
  }

  lemma ServePasses(s: State, key: Key, i: nat, t: State)
    requires Serving(s, key) && i < |Waiters(s, key)| && ItemsAt(s.objects, key) != []
    requires IsBlocked(s, Waiters(s, key)[0]) && IsOf(s.clients, Waiters(s, key)[0], KindAt(s.objects, key))
    requires var r := ServeOne(s, key, Waiters(s, key)[0]);
             Waiters(r, key) == Waiters(s, key)[1..] && Passed(r, key, i, t)
    ensures Passed(s, key, 1 + i, t)
  {
    hide Inv, Served, Only, Others, ServeOne, Consumes, KindAt, ItemsAt;
    var q, kind := Waiters(s, key), KindAt(s.objects, key);
    var c, l := q[0], q[1..][..i];
    var r := ServeOne(s, key, c);
    Unfold(s.clients, q, i, kind);
    HeadOnce(s, key);
    forall x | x in l ensures x in s.clients && x != c { WaitersAreClients(s, key, x); }
    ServedOne(s, key, c);
    ServeOneLook(s, key, c, l, 0);
    assert q[1..][i..] == q[1 + i..];
    var served := Only(s.clients, l, kind);
    assert Served(s.replies) + [c] + served == Served(s.replies) + ([c] + served);
    forall x | x !in q[..1 + i] || !IsOf(s.clients, x, kind) ensures SameClient(s, t, x) {
      ServeOneEffect(s, key, c);
      assert x != c;
    }
  }

  /** One reply, and one element fewer exactly if the client consumes one. */
  lemma ServedOne(s: State, key: Key, c: Client)
    requires Serving(s, key) && IsBlocked(s, c) && ItemsAt(s.objects, key) != []
    ensures var t, m := ServeOne(s, key, c), |ItemsAt(s.objects, key)|;
            && Served(t.replies) == Served(s.replies) + [c] && KindAt(t.objects, key) == KindAt(s.objects, key)
            && |ItemsAt(t.objects, key)| == if Consumes(s, key, c) then m - 1 else m
  {
    hide ServeOne, Inv;
    ServeOneEffect(s, key, c);
  }

  /** The loop looks at a number of waiters that is known beforehand, and stops early only when no
      element is left. */
  lemma {:induction false} LoopQueue(s: State, key: Key, n: nat)
    requires Serving(s, key) && n <= |Waiters(s, key)|
    ensures var j, t := LookedAt(s, key, n), ServeLoop(s, key, n);
            Passed(s, key, j, t) && (j < n ==> ItemsAt(t.objects, key) == [])
    decreases n
  {
    hide Inv, ServeOne, Passed, LookedAt;
    if n == 0 || (s.objects[key].SortedSet? && s.objects[key].items == []) {
      LoopStops(s, key, n);
    } else {
      var c := Waiters(s, key)[0];
      HeadIsBlocked(s, key);
      if s.clients[c].kind != KindAt(s.objects, key) {
        RotateInv(s, key);
        LoopQueue(Rotate(s, key), key, n - 1);
        RotateLook(s, key, n);
        RotatePasses(s, key, LookedAt(Rotate(s, key), key, n - 1), ServeLoop(s, key, n));
      } else if ItemsAt(s.objects, key) == [] {
        LoopStops(s, key, n);
      } else {
        ServeOneInv(s, key, c);
        HeadServed(s, key);
        LoopQueue(ServeOne(s, key, c), key, n - 1);
        ServeLook(s, key, n);
        ServePasses(s, key, LookedAt(ServeOne(s, key, c), key, n - 1), ServeLoop(s, key, n));
      }
    }
  }

  lemma LoopStops(s: State, key: Key, n: nat)
    requires key in s.objects && n <= |Waiters(s, key)|
    requires n > 0 ==> ItemsAt(s.objects, key) == []
    requires n > 0 && !s.objects[key].SortedSet? ==> IsOf(s.clients, Waiters(s, key)[0], KindAt(s.objects, key))
    ensures LookedAt(s, key, n) == 0 && Passed(s, key, 0, s)
  {
    var q := Waiters(s, key);
    assert n > 0 ==> q[..n][0] == q[0];
    assert q[0..] == q && q[..0] == [];
  }

  // ---------------------------------------------------------- blocking order

  ghost predicate Before(clients: map<Client, Waiter>, a: seq<Client>, b: seq<Client>, kind: Kind) {
    forall x, y | x in a && y in b && IsOf(clients, x, kind) && IsOf(clients, y, kind) ::
      clients[x].since < clients[y].since
  }

  /** The clients of a kind stand in l in the order in which they blocked. */
  ghost predicate InOrder(clients: map<Client, Waiter>, l: seq<Client>, kind: Kind)
    decreases |l|
  {
    l == [] || (InOrder(clients, l[1..], kind) && Before(clients, [l[0]], l[1..], kind))
  }

  /** Every queue holds the clients of every kind in the order in which they blocked. */
  ghost predicate Ordered(s: State) {
    && (forall k, kind: Kind | !kind.NotBlocked? :: InOrder(s.clients, Waiters(s, k), kind))
    && (forall c | c in s.clients :: s.clients[c].since < s.clock)
  }

  lemma BeforeBoth(clients: map<Client, Waiter>, a: seq<Client>, b: seq<Client>, c: seq<Client>, kind: Kind)
    ensures Before(clients, a, b + c, kind) <==> Before(clients, a, b, kind) && Before(clients, a, c, kind)
  {
    hide IsOf;
    if Before(clients, a, b + c, kind) {
      assert forall x | x in b || x in c :: x in b + c;
    }
  }

  lemma BothBefore(clients: map<Client, Waiter>, a: seq<Client>, b: seq<Client>, c: seq<Client>, kind: Kind)
    ensures Before(clients, a + b, c, kind) <==> Before(clients, a, c, kind) && Before(clients, b, c, kind)
  {
    hide IsOf;
    if Before(clients, a + b, c, kind) {
      assert forall x | x in a || x in b :: x in a + b;
    }
  }

  lemma {:induction false} Joined(clients: map<Client, Waiter>, a: seq<Client>, b: seq<Client>, kind: Kind)
    ensures InOrder(clients, a + b, kind) <==>
            InOrder(clients, a, kind) && InOrder(clients, b, kind) && Before(clients, a, b, kind)
    decreases |a|
  {
    hide Before;
    if a == [] {
      assert a + b == b;
      NothingBefore(clients, b, kind);
    } else {
      assert (a + b)[1..] == a[1..] + b && a == [a[0]] + a[1..];
      Joined(clients, a[1..], b, kind);
      BeforeBoth(clients, [a[0]], a[1..], b, kind);
      BothBefore(clients, [a[0]], a[1..], b, kind);
    }
  }

  lemma OrderedAt(s: State, k: Key, kind: Kind)
    requires Ordered(s) && !kind.NotBlocked?
    ensures InOrder(s.clients, Waiters(s, k), kind)
  {
  }

  lemma NothingBefore(clients: map<Client, Waiter>, b: seq<Client>, kind: Kind)
    ensures Before(clients, [], b, kind)
  {
  }

  /** Fewer clients of a kind, with the same times, are still in order. */
  lemma {:induction false} FewerInOrder(a: map<Client, Waiter>, b: map<Client, Waiter>, l: seq<Client>, kind: Kind)
    requires forall x | x in l && IsOf(b, x, kind) :: IsOf(a, x, kind) && a[x].since == b[x].since
    requires InOrder(a, l, kind)
    ensures InOrder(b, l, kind)
    decreases |l|
  {
    hide IsOf;
    if l != [] { FewerInOrder(a, b, l[1..], kind); }
  }

  lemma {:induction false} WithoutInOrder(clients: map<Client, Waiter>, l: seq<Client>, c: Client, kind: Kind)
    requires InOrder(clients, l, kind)
    ensures InOrder(clients, Without(l, c), kind)
    decreases |l|
  {
    hide IsOf;
    if l != [] && l[0] != c {
      WithoutInOrder(clients, l[1..], c, kind);
      assert Without(l, c)[1..] == Without(l[1..], c);
    }
  }

  lemma {:induction false} OthersInOrder(clients: map<Client, Waiter>, l: seq<Client>, t: Kind, kind: Kind)
    requires InOrder(clients, l, kind)
    ensures InOrder(clients, Others(clients, l, t), kind)
    decreases |l|
  {
    hide IsOf;
    if l != [] {
      OthersInOrder(clients, l[1..], t, kind);
      var rest := Others(clients, l[1..], t);
      assert Others(clients, l, t) == if IsOf(clients, l[0], t) then rest else [l[0]] + rest;
      assert ([l[0]] + rest)[1..] == rest;
    }
  }

  lemma {:induction false} OnlyInOrder(clients: map<Client, Waiter>, l: seq<Client>, kind: Kind)
    requires InOrder(clients, l, kind)
    ensures InOrder(clients, Only(clients, l, kind), kind)
    decreases |l|
  {
    if l != [] {
      OnlyInOrder(clients, l[1..], kind);
      var rest := Only(clients, l[1..], kind);
      assert Only(clients, l, kind) == if IsOf(clients, l[0], kind) then [l[0]] + rest else rest;
      assert ([l[0]] + rest)[1..] == rest;
    }
  }

  lemma UnblockInOrder(s: State, c: Client, k: Key, kind: Kind)
    requires IsBlocked(s, c) && !kind.NotBlocked? && InOrder(s.clients, Waiters(s, k), kind)
    ensures InOrder(Unblock(s, c).clients, Waiters(Unblock(s, c), k), kind)
  {
    hide InOrder;
    var t := Unblock(s, c);
    WithoutInOrder(s.clients, Waiters(s, k), c, kind);
    FewerInOrder(s.clients, t.clients, Waiters(s, k), kind);
    FewerInOrder(s.clients, t.clients, Without(Waiters(s, k), c), kind);
    NothingInOrder(t.clients, kind);
  }

  lemma NothingInOrder(clients: map<Client, Waiter>, kind: Kind)
    ensures InOrder(clients, [], kind)
  {
  }

  lemma ServeOneInOrder(s: State, key: Key, c: Client, k: Key, kind: Kind)
    requires IsBlocked(s, c) && ItemsAt(s.objects, key) != []
    requires !kind.NotBlocked? && InOrder(s.clients, Waiters(s, k), kind)
    ensures var t := ServeOne(s, key, c);
            InOrder(t.clients, Waiters(t, k), kind)
  {
    hide Removed, InOrder;
    var a, t := s.(objects := map[]), ServeOne(s, key, c);
    assert Unblock(a, c).blocking == t.blocking && Unblock(a, c).clients == t.clients;
    UnblockInOrder(a, c, k, kind);
  }

  lemma {:induction false} LoopInOrder(s: State, key: Key, n: nat, k: Key, kind: Kind)
    requires Serving(s, key) && n <= |Waiters(s, key)|
    requires k != key && !kind.NotBlocked? && InOrder(s.clients, Waiters(s, k), kind)
    ensures InOrder(ServeLoop(s, key, n).clients, Waiters(ServeLoop(s, key, n), k), kind)
    decreases n
  {
    hide Inv, ServeOne, InOrder;
    if n > 0 && !(s.objects[key].SortedSet? && s.objects[key].items == []) {
      var c := Waiters(s, key)[0];
      HeadIsBlocked(s, key);
      if s.clients[c].kind != KindAt(s.objects, key) {
        RotateInv(s, key);
        LoopInOrder(Rotate(s, key), key, n - 1, k, kind);
      } else if ItemsAt(s.objects, key) != [] {
        ServeOneInv(s, key, c);
        HeadServed(s, key);
        ServeOneInOrder(s, key, c, k, kind);
        LoopInOrder(ServeOne(s, key, c), key, n - 1, k, kind);
      }
    }
  }

  // ------------------------------------------------------- the exact condition

  predicate Has(clients: map<Client, Waiter>, l: seq<Client>, kind: Kind) {
    exists x | x in l :: IsOf(clients, x, kind)
  }

  /** Clients of another kind than the object are not on both sides of the last client looked at. */
  ghost predicate Fair(s: State, key: Key)
    requires key in s.objects
  {
    var q := Waiters(s, key);
    var j := LookedAt(s, key, |q|);
    forall kind: Kind | !kind.NotBlocked? && kind != KindAt(s.objects, key) ::
      !(Has(s.clients, q[..j], kind) && Has(s.clients, q[j..], kind))
  }

  /** The queue p + r becomes r followed by the clients of p that are not served. */
  lemma SplitInOrder(clients: map<Client, Waiter>, p: seq<Client>, r: seq<Client>, t: Kind, kind: Kind)
    requires InOrder(clients, p + r, kind)
    ensures InOrder(clients, r + Others(clients, p, t), kind) <==>
            kind == t || !(Has(clients, p, kind) && Has(clients, r, kind))
  {
    hide InOrder, Others;
    Joined(clients, p, r, kind);
    OthersInOrder(clients, p, t, kind);
    Joined(clients, r, Others(clients, p, t), kind);
    if kind != t && Has(clients, p, kind) && Has(clients, r, kind) {
      var x :| x in p && IsOf(clients, x, kind);
      var y :| y in r && IsOf(clients, y, kind);
      assert clients[x].since < clients[y].since && x in Others(clients, p, t);
    }
  }

  lemma PassedInOrder(s: State, key: Key, j: nat, t: State, kind: Kind)
    requires Inv(s) && !kind.NotBlocked? && j <= |Waiters(s, key)| && Passed(s, key, j, t)
    requires InOrder(s.clients, Waiters(s, key), kind)
    ensures var q := Waiters(s, key);
            InOrder(t.clients, Waiters(t, key), kind) <==>
            kind == KindAt(s.objects, key) || !(Has(s.clients, q[..j], kind) && Has(s.clients, q[j..], kind))
  {
    hide Inv, InOrder, Has;
    var q, l := Waiters(s, key), Waiters(t, key);
    assert q == q[..j] + q[j..];
    SplitInOrder(s.clients, q[..j], q[j..], KindAt(s.objects, key), kind);
    forall x | x in l ensures SameClient(s, t, x) { PassedSame(s, key, j, t, x); }
    if InOrder(s.clients, l, kind) { FewerInOrder(s.clients, t.clients, l, kind); }
    if InOrder(t.clients, l, kind) { FewerInOrder(t.clients, s.clients, l, kind); }
  }

  lemma PassedSame(s: State, key: Key, j: nat, t: State, x: Client)
    requires Inv(s) && j <= |Waiters(s, key)| && Passed(s, key, j, t) && x in Waiters(t, key)
    ensures SameClient(s, t, x) && x in Waiters(s, key)
    ensures x in Waiters(s, key)[j..] || !IsOf(s.clients, x, KindAt(s.objects, key))
  {
    hide Counters, Coupled, Served, SameClient, IsOf;
    var q := Waiters(s, key);
    assert Distinct(q);
    assert x in q[j..] ==> x !in q[..j];
  }

  /** Serving a key leaves all queues in blocking order if and only if it is fair. */
  lemma ServeKeyOrdered(s: State, key: Key)
    requires Serving(s, key) && Ordered(s)
    ensures Ordered(ServeKey(s, key)) <==> Fair(s, key)
  {
    hide Inv, InOrder, ServeLoop, LookedAt, Passed, Has, KindAt;
    var n := |Waiters(s, key)|;
    var j, t := LookedAt(s, key, n), ServeLoop(s, key, n);
    LoopQueue(s, key, n);
    forall kind: Kind | !kind.NotBlocked?
      ensures InOrder(t.clients, Waiters(t, key), kind) <==>
              kind == KindAt(s.objects, key) ||
              !(Has(s.clients, Waiters(s, key)[..j], kind) && Has(s.clients, Waiters(s, key)[j..], kind))
    {
      PassedInOrder(s, key, j, t, kind);
    }
    forall k, kind: Kind | k != key && !kind.NotBlocked? ensures InOrder(t.clients, Waiters(t, k), kind) {
      LoopInOrder(s, key, n, k, kind);
    }
    LoopClock(s, key, n);
    assert forall k :: Waiters(DropEmpty(t, key), k) == Waiters(t, k);
  }

  lemma {:induction false} LoopClock(s: State, key: Key, n: nat)
    requires Serving(s, key) && n <= |Waiters(s, key)|
    ensures var t := ServeLoop(s, key, n);
            && t.clock == s.clock
            && forall c | c in t.clients :: c in s.clients && t.clients[c].since == s.clients[c].since
    decreases n
  {
    hide Inv, ServeOne, ItemsAt;
    if n > 0 && !(s.objects[key].SortedSet? && s.objects[key].items == []) {
      var c := Waiters(s, key)[0];
      HeadIsBlocked(s, key);
      if s.clients[c].kind != KindAt(s.objects, key) {
        RotateInv(s, key);
        LoopClock(Rotate(s, key), key, n - 1);
      } else if ItemsAt(s.objects, key) != [] {
        ServeOneInv(s, key, c);
        HeadServed(s, key);
        ServeOneEffect(s, key, c);
        LoopClock(ServeOne(s, key, c), key, n - 1);
      }
    }
  }

  /** First come, first served: the clients that get a reply blocked before every client of the same
      kind that goes on waiting, get it in blocking order, and others go on waiting only if no element
      is left. */
  ghost predicate InTurn(s: State, key: Key)
    requires Serving(s, key)
  {
    var t, kind := ServeLoop(s, key, |Waiters(s, key)|), KindAt(s.objects, key);
    && Served(s.replies) <= Served(t.replies)
    && var served := Served(t.replies)[|s.replies|..];
    && InOrder(s.clients, served, kind) && Before(s.clients, served, Waiters(t, key), kind)
    && (forall x | x in served :: x in Waiters(s, key) && IsOf(s.clients, x, kind) && x !in Waiters(t, key))
    && (Has(t.clients, Waiters(t, key), kind) ==> ItemsAt(t.objects, key) == [])
  }

  lemma FirstComeFirstServed(s: State, key: Key)
    requires Serving(s, key) && Ordered(s)
    ensures InTurn(s, key)
  {
    hide Inv, InOrder, ServeLoop, LookedAt, Only, Others;
    var q, n, kind := Waiters(s, key), |Waiters(s, key)|, KindAt(s.objects, key);
    var j, t := LookedAt(s, key, n), ServeLoop(s, key, n);
    LoopQueue(s, key, n);
    var served := Only(s.clients, q[..j], kind);
    assert q == q[..j] + q[j..] && served == Served(t.replies)[|s.replies|..];
    OrderedAt(s, key, kind);
    Joined(s.clients, q[..j], q[j..], kind);
    OnlyInOrder(s.clients, q[..j], kind);
    forall x | x in Waiters(t, key)
      ensures SameClient(s, t, x) && x !in served && (IsOf(s.clients, x, kind) ==> x in q[j..])
    {
      PassedSame(s, key, j, t, x);
      if x in q[j..] { NotBoth(s, key, j, x); }
    }
  }

  lemma NotBoth(s: State, key: Key, j: nat, x: Client)
    requires Inv(s) && j <= |Waiters(s, key)| && x in Waiters(s, key)[j..]
    ensures x !in Waiters(s, key)[..j]
  {
    hide Counters, Coupled;
    assert Distinct(Waiters(s, key));
  }
}
