/** The server's side of blocking operations: fields changed in place, and the serving loops. */
module BlockedServer {
  import opened Wrappers
  import opened Sequences
  import opened Blocked
  import BlockedRuns

  class Server {
    var objects: map<Key, Obj>
    var clients: map<Client, Waiter>
    var blocking: map<Key, seq<Client>>
    var current: seq<Key>          // the list of ready keys being worked on
    var readyKeys: seq<Key>        // keys signalled meanwhile
    var readySet: set<Key>
    var blocked: int
    var byKind: map<Kind, int>
    var unblocked: seq<Client>
    var flagged: set<Client>
    var replies: seq<Reply>
    var clock: nat                 // logical time, which nothing below depends on

    ghost function View(): State reads this {
      Blocked.State.State(objects, clients, blocking, current + readyKeys, readySet, blocked, byKind,
                          unblocked, flagged, replies, clock)
    }

    constructor ()
      ensures View() == BlockedRuns.Init() && current == []
    {
      objects, clients, blocking, current, readyKeys, readySet := map[], map[], map[], [], [], {};
      blocked, byKind := 0, map[OnList := 0, OnZset := 0, OnStream := 0];
      unblocked, flagged, replies, clock := [], {}, [], 0;
    }

    method QueueClientForReprocessing(c: Client)
      modifies this
      ensures View() == Requeue(old(View()), c) && current == old(current)
    {
      if c !in flagged {
        flagged := flagged + {c};
        unblocked := unblocked + [c];
      }
    }

    method RemoveWaiter(c: Client, k: Key)
      requires k in blocking
      modifies `blocking
      ensures var l := Without(old(blocking)[k], c);
              blocking == if l == [] then old(blocking) - {k} else old(blocking)[k := l]
    {
      var l := Without(blocking[k], c);
      if l == [] {
        blocking := blocking - {k};
      } else {
        blocking := blocking[k := l];
      }
    }

    /** Take a client off the list of every key it waits for; those lists exist. */
    method UnblockClientWaitingData(c: Client)
      requires IsBlocked(View(), c) && Index(clients, blocking)
      modifies this
      ensures current == old(current)
      ensures View() == old(View()).(
        clients := old(clients)[c := old(clients)[c].(keys := {}, target := None)],
        blocking := Removed(old(blocking), c, old(clients)[c].keys))
    {
      hide Distinct;
      var left := clients[c].keys;
      assert left != {};
      RemovedNothing(blocking, c);
      while left != {}
        invariant left <= old(clients)[c].keys
        invariant View() == old(View()).(blocking := Removed(old(blocking), c, old(clients)[c].keys - left))
        invariant current == old(current)
        decreases |left|
      {
        var k :| k in left;
        RemovedMore(old(blocking), c, old(clients)[c].keys - left, k);
        assert old(clients)[c].keys - left + {k} == old(clients)[c].keys - (left - {k});
        assert k in blocking;
        RemoveWaiter(c, k);
        left := left - {k};
      }
      assert old(clients)[c].keys - {} == old(clients)[c].keys;
      clients := clients[c := clients[c].(keys := {}, target := None)];
    }

    method UnblockClient(c: Client)
      requires IsBlocked(View(), c) && Index(clients, blocking)
      modifies this
      ensures View() == Unblock(old(View()), c) && current == old(current)
    {
      hide Removed, TwoWay;
      UnblockClientWaitingData(c);
      var kind := clients[c].kind;
      blocked := blocked - 1;
      byKind := byKind[kind := byKind[kind] - 1];
      clients := clients[c := clients[c].(kind := NotBlocked)];
      assert clients == old(clients)[c := Idle(old(clients)[c])];
      QueueClientForReprocessing(c);
    }

    method SignalKeyAsReady(k: Key)
      modifies this
      ensures View() == Signal(old(View()), k) && current == old(current)
    {
      if k !in blocking { return; }
      if k in readySet { return; }
      assert current + (readyKeys + [k]) == current + readyKeys + [k];
      readyKeys := readyKeys + [k];
      readySet := readySet + {k};
    }

    method BlockForKey(c: Client, k: Key)
      requires c in clients
      modifies this
      ensures View() == AddKey(old(View()), c, k) && current == old(current) && c in clients
    {
      var w := clients[c];
      if k !in w.keys {
        clients := clients[c := w.(keys := w.keys + {k})];
        var l := if k in blocking then blocking[k] else [];
        blocking := blocking[k := l + [c]];
      }
    }

    method BlockForKeys(c: Client, kind: Kind, keys: seq<Key>, target: Option<Key>, fromHead: bool)
      requires c in clients && kind in byKind
      modifies this
      ensures View() == Block(old(View()), c, kind, keys, target, fromHead) && current == old(current)
    {
      hide TwoWay;
      var j := 0;
      while j < |keys|
        invariant 0 <= j <= |keys| && c in clients && current == old(current)
        invariant byKind == old(byKind) && blocked == old(blocked) && clock == old(clock)
        invariant AddKeys(View(), c, keys[j..]) == AddKeys(old(View()), c, keys)
      {
        assert keys[j..][1..] == keys[j + 1..];
        BlockForKey(c, keys[j]);
        j := j + 1;
      }
      assert keys[j..] == [];
      clients := clients[c := Waiter(kind, clients[c].keys, target, fromHead, clock)];
      clock := clock + 1;
      blocked := blocked + 1;
      byKind := byKind[kind := byKind[kind] + 1];
    }

    /** Give a popped value to a client; false if its target has another type. */
    method ServeClientBlockedOnList(c: Client, key: Key, target: Option<Key>, value: Value) returns (ok: bool)
      modifies this
      ensures current == old(current)
      ensures var s := old(View());
              if target.None? then ok && View() == s.(replies := s.replies + [Reply(c, key, Got(value))])
              else
                var d := target.value;
                if d in s.objects && !s.objects[d].List? then
                  !ok && View() == s.(replies := s.replies + [Reply(c, key, WrongType)])
                else
                  var u := if d in s.objects then s else Signal(s, d);
                  ok && View() == u.(objects := u.objects[d := List([value] + ItemsAt(u.objects, d))],
                                      replies := u.replies + [Reply(c, key, Moved(value, d))])
    {
      if target.None? {
        replies := replies + [Reply(c, key, Got(value))];
        return true;
      }
      var d := target.value;
      if d in objects && !objects[d].List? {
        replies := replies + [Reply(c, key, WrongType)];
        return false;
      }
      if d !in objects {
        SignalKeyAsReady(d);
        objects := objects[d := List([])];
      }
      objects := objects[d := List([value] + objects[d].items)];
      replies := replies + [Reply(c, key, Moved(value, d))];
      return true;
    }

    method ServeReceiver(key: Key, c: Client)
      requires IsBlocked(View(), c) && Index(clients, blocking) && ItemsAt(objects, key) != [] && objects[key].List?
      modifies this
      ensures View() == ServeOne(old(View()), key, c) && current == old(current)
    {
      hide Unblock, Index;
      var target, fromHead, items := clients[c].target, clients[c].fromHead, objects[key].items;
      var last := |items| - 1;
      var value := if fromHead then items[0] else items[last];
      var rest := if fromHead then items[1..] else items[..last];
      objects := objects[key := List(rest)];
      UnblockObjects(View(), c);
      UnblockClient(c);
      var ok := ServeClientBlockedOnList(c, key, target, value);
      if !ok {
        objects := objects[key := List(if fromHead then [value] + rest else rest + [value])];
      }
    }

    method ServeClientsBlockedOnListKey(key: Key)
      requires Serving(View(), key) && objects[key].List?
      modifies this
      ensures View() == ServeKey(old(View()), key) && current == old(current)
    {
      hide Index, Counters, Coupled, ServeOne;
      if key in blocking {
        var n := |blocking[key]|;
        while n > 0
          invariant n >= 0 && Serving(View(), key) && n <= |Waiters(View(), key)| && current == old(current)
          invariant objects[key].List?
          invariant ServeLoop(View(), key, n) == ServeLoop(old(View()), key, |Waiters(old(View()), key)|)
          decreases n
        {
          n := n - 1;
          var c := blocking[key][0];
          HeadIsBlocked(View(), key);
          if !clients[c].kind.OnList? {
            RotateInv(View(), key);
            blocking := blocking[key := blocking[key][1..] + [blocking[key][0]]];
            continue;
          }
          if objects[key].items == [] { break; }
          ServeOneInv(View(), key, c);
          HeadServed(View(), key);
          ServeReceiver(key, c);
        }
      }
      if objects[key].items == [] { objects := objects - {key}; }
    }

    /** Pop the first or the last element; an emptied sorted set is deleted. */
    method GenericZpop(c: Client, key: Key, fromHead: bool)
      requires key in objects && objects[key].SortedSet? && objects[key].items != []
      modifies this
      ensures current == old(current)
      ensures View() == DropEmpty(old(View()).(
        objects := old(objects)[key := SortedSet(Left(old(objects)[key].items, fromHead))],
        replies := old(replies) + [Reply(c, key, Got(Popped(old(objects)[key].items, fromHead)))]), key)
    {
      var items := objects[key].items;
      var last := |items| - 1;
      var value := if fromHead then items[0] else items[last];
      objects := objects[key := SortedSet(if fromHead then items[1..] else items[..last])];
      replies := replies + [Reply(c, key, Got(value))];
      if objects[key].items == [] { objects := objects - {key}; }
    }

    method ServeZsetReceiver(key: Key, c: Client)
      requires IsBlocked(View(), c) && Index(clients, blocking) && ItemsAt(objects, key) != []
      requires objects[key].SortedSet?
      modifies this
      ensures View() == DropEmpty(ServeOne(old(View()), key, c), key) && current == old(current)
    {
      hide Unblock, Index;
      var fromHead := clients[c].fromHead;
      ghost var rest := SortedSet(Left(objects[key].items, fromHead));
      UnblockElsewhere(View(), c, objects[key := rest]);
      UnblockObjects(View(), c);
      UnblockClient(c);
      GenericZpop(c, key, fromHead);
    }

    /** The loop ends when the sorted set, which its last pop has deleted, has no element left. */
    method ServeClientsBlockedOnSortedSetKey(key: Key)
      requires Serving(View(), key) && objects[key].SortedSet?
      modifies this
      ensures View() == ServeKey(old(View()), key) && current == old(current)
    {
      hide Index, Counters, Coupled, ServeOne;
      ghost var s := View();
      var zcard := |objects[key].items|;
      ghost var empty := zcard == 0;
      if key in blocking {
        var n := |blocking[key]|;
        while n > 0 && zcard > 0
          invariant n >= 0 && Serving(s, key) && s.objects[key].SortedSet? && n <= |Waiters(s, key)|
          invariant View() == (if empty then s else DropEmpty(s, key)) && (empty ==> zcard == 0)
          invariant zcard == |s.objects[key].items| && current == old(current)
          invariant ServeLoop(s, key, n) == ServeLoop(old(View()), key, |Waiters(old(View()), key)|)
          decreases n
        {
          n := n - 1;
          var c := blocking[key][0];
          HeadIsBlocked(s, key);
          if !clients[c].kind.OnZset? {
            RotateInv(s, key);
            blocking := blocking[key := blocking[key][1..] + [blocking[key][0]]];
            s := Rotate(s, key);
            continue;
          }
          ServeOneInv(s, key, c);
          HeadServed(s, key);
          ZsetServed(s, key, c);
          ServeZsetReceiver(key, c);
          s := ServeOne(s, key, c);
          zcard := zcard - 1;
        }
      }
    }

    /** The first key of the current list. */
    method HandleFirst()
      requires Inv(View()) && current != []
      modifies this
      ensures View() == HandleKey(old(View())) && current == old(current)[1..]
    {
      hide Inv, ServeKey;
      var key := current[0];
      TakeReadyInv(View());
      assert (current + readyKeys)[1..] == current[1..] + readyKeys && (current + readyKeys)[0] == key;
      readySet := readySet - {key};
      current := current[1..];
      if key in objects {
        if objects[key].List? {
          ServeClientsBlockedOnListKey(key);
        } else if objects[key].SortedSet? {
          ServeClientsBlockedOnSortedSetKey(key);
        }
      }
    }

    method HandleClientsBlockedOnKeys()
      requires Inv(View()) && current == []
      modifies this
      ensures View() == Handle(old(View())) && current == []
    {
      hide Index, Coupled, HandleKey;
      while readyKeys != []
        invariant Inv(View()) && current == [] && Handle(View()) == Handle(old(View()))
        decreases blocked, |readyKeys|
      {
        assert [] + readyKeys == readyKeys && readyKeys + [] == readyKeys;
        current, readyKeys := readyKeys, [];
        ghost var blocked0, ready0 := blocked, |current|;
        while current != []
          invariant Inv(View()) && Handle(View()) == Handle(old(View()))
          invariant 0 <= blocked <= blocked0
          invariant blocked == blocked0 ==> |current| + |readyKeys| <= ready0
          invariant blocked == blocked0 && current == [] ==> |readyKeys| < ready0
          decreases blocked, |current| + |readyKeys|
        {
          HandleFirst();
        }
        assert [] + readyKeys == readyKeys;
      }
    }
  }

  lemma UnblockElsewhere(s: State, c: Client, objects: map<Key, Obj>)
    requires IsBlocked(s, c)
    ensures Unblock(s.(objects := objects), c) == Unblock(s, c).(objects := objects)
  {
  }

  lemma ZsetServed(s: State, key: Key, c: Client)
    requires IsBlocked(s, c) && ItemsAt(s.objects, key) != [] && s.objects[key].SortedSet?
    ensures var t := ServeOne(s, key, c);
            key in t.objects && t.objects[key].SortedSet? && |t.objects[key].items| == |s.objects[key].items| - 1
  {
    hide Unblock;
    UnblockObjects(s.(objects := s.objects[key := SortedSet(Left(s.objects[key].items, s.clients[c].fromHead))]), c);
  }

  lemma RemovedNothing(b: map<Key, seq<Client>>, c: Client)
    ensures Removed(b, c, {}) == b
  {
  }

  lemma RemovedMore(b: map<Key, seq<Client>>, c: Client, keys: set<Key>, k: Key)
    requires k !in keys
    ensures var r := Removed(b, c, keys);
            && (k in r <==> k in b) && (k in r ==> r[k] == b[k])
            && Removed(b, c, keys + {k}) ==
               if k !in b then r else if Without(b[k], c) == [] then r - {k} else r[k := Without(b[k], c)]
  {
  }
}
