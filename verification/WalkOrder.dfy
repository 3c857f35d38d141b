/**
  The order of the breadth-first walk: a library comes before another one if it was come across earlier, first by the place
  of the library that needs it and then by its place among the children of that library.
 */
module WalkOrder {
  import opened Basics
  import opened Soinfo
  import opened Walk

  /** Child `child` of the library that was visited as number `parent`. */
  datatype Key = Key(parent: nat, child: nat)
  {
    predicate Less(other: Key) {
      parent < other.parent || (parent == other.parent && child < other.child)
    }
  }

  /** Library `v` is come across there. */
  ghost predicate FoundAt(g: map<Lib, seq<Lib>>, visited: seq<Lib>, open: set<Lib>, v: Lib, key: Key)
  {
    && key.parent < |visited| && visited[key.parent] in open && visited[key.parent] in g
    && key.child < |g[visited[key.parent]]| && g[visited[key.parent]][key.child] == v
  }

  ghost predicate Rising(keys: seq<Key>)
  {
    forall i, j :: 0 <= i < j < |keys| ==> keys[i].Less(keys[j])
  }

  /** Where a child was come across is still in the queue, or is not before where it was first come across. */
  ghost predicate Noted(visited: seq<Lib>, keys: seq<Key>, vkeys: seq<Key>, v: Lib, key: Key)
  {
    key in keys || exists i :: 0 < i < |visited| && i < |vkeys| && visited[i] == v && !key.Less(vkeys[i])
  }

  /** Places rise through the visited libraries, and on through the queue. The root, which nobody has to need, is a case of
      its own. */
  ghost predicate AllRising(keys: seq<Key>, vkeys: seq<Key>)
  {
    && Rising(keys) && (forall i, j :: 0 < i < j < |vkeys| ==> vkeys[i].Less(vkeys[j]))
    && (forall i, k :: 0 < i < |vkeys| && 0 <= k < |keys| ==> vkeys[i].Less(keys[k]))
  }

  ghost predicate QueueFound(g: map<Lib, seq<Lib>>, visited: seq<Lib>, open: set<Lib>, queue: seq<Lib>, keys: seq<Key>)
  {
    |keys| == |queue| && forall k :: 0 <= k < |queue| ==> FoundAt(g, visited, open, queue[k], keys[k])
  }

  ghost predicate VisitedFound(g: map<Lib, seq<Lib>>, visited: seq<Lib>, open: set<Lib>, vkeys: seq<Key>)
  {
    |vkeys| == |visited| && forall i :: 0 < i < |visited| ==> FoundAt(g, visited, open, visited[i], vkeys[i])
  }

  ghost predicate AllNoted(g: map<Lib, seq<Lib>>, root: Lib, visited: seq<Lib>, open: set<Lib>, keys: seq<Key>, vkeys: seq<Key>)
  {
    forall v, key :: FoundAt(g, visited, open, v, key) && v != root ==> Noted(visited, keys, vkeys, v, key)
  }

  /** The visited libraries and the queue, with the places where they were first come across. */
  ghost predicate Keyed(g: map<Lib, seq<Lib>>, root: Lib, visited: seq<Lib>, open: set<Lib>, queue: seq<Lib>, keys: seq<Key>, vkeys: seq<Key>)
  {
    && visited != [] && visited[0] == root && AllRising(keys, vkeys)
    && QueueFound(g, visited, open, queue, keys) && VisitedFound(g, visited, open, vkeys) && AllNoted(g, root, visited, open, keys, vkeys)
  }

  lemma FoundStays(g: map<Lib, seq<Lib>>, visited: seq<Lib>, open: set<Lib>, si: Lib, open': set<Lib>, v: Lib, key: Key)
    requires open' == open || open' == open + {si}
    requires si !in visited
    ensures FoundAt(g, visited, open, v, key) ==> FoundAt(g, visited + [si], open', v, key)
    ensures FoundAt(g, visited + [si], open', v, key) && key.parent < |visited| ==> FoundAt(g, visited, open, v, key)
  {
  }

  lemma PassedOver(g: map<Lib, seq<Lib>>, root: Lib, visited: seq<Lib>, open: set<Lib>, queue: seq<Lib>, keys: seq<Key>, vkeys: seq<Key>)
    requires Keyed(g, root, visited, open, queue, keys, vkeys) && queue != [] && queue[0] in visited
    ensures Keyed(g, root, visited, open, queue[1..], keys[1..], vkeys)
  {
    forall v, key | FoundAt(g, visited, open, v, key) && v != root ensures Noted(visited, keys[1..], vkeys, v, key) {
      assert Noted(visited, keys, vkeys, v, key);
      if key in keys && key !in keys[1..] {
        assert key == keys[0] && v == queue[0];
        var i :| 0 <= i < |visited| && visited[i] == v;
        assert vkeys[i].Less(keys[0]);
      }
    }
  }

  /** The places of the children of a library that is visited as number `n`. */
  ghost function ChildKeys(n: nat, count: nat): (r: seq<Key>)
    ensures |r| == count && forall b :: 0 <= b < count ==> r[b] == Key(n, b)
  {
    seq(count, b requires 0 <= b < count => Key(n, b))
  }

  /** What a library that is visited adds to the queue. */
  ghost function Children(g: map<Lib, seq<Lib>>, si: Lib, opens: bool): seq<Lib>
  {
    if opens && si in g then g[si] else []
  }

  lemma StillRising(keys: seq<Key>, n: nat, count: nat)
    requires Rising(keys) && forall k :: 0 <= k < |keys| ==> keys[k].parent < n
    ensures Rising(keys + ChildKeys(n, count))
  {
  }

  /** The queue after a library was taken from it. */
  lemma QueueAfter(g: map<Lib, seq<Lib>>, visited: seq<Lib>, open: set<Lib>, queue: seq<Lib>, keys: seq<Key>, opens: bool, open': set<Lib>)
    requires QueueFound(g, visited, open, queue, keys) && queue != [] && queue[0] !in visited && queue[0] in g
    requires open' == if opens then open + {queue[0]} else open
    ensures QueueFound(g, visited + [queue[0]], open', queue[1..] + Children(g, queue[0], opens),
                       keys[1..] + ChildKeys(|visited|, |Children(g, queue[0], opens)|))
  {
    var si := queue[0];
    var rest, ks := queue[1..] + Children(g, si, opens), keys[1..] + ChildKeys(|visited|, |Children(g, si, opens)|);
    forall k | 0 <= k < |rest| ensures FoundAt(g, visited + [si], open', rest[k], ks[k]) {
      if k < |queue| - 1 {
        FoundStays(g, visited, open, si, open', queue[k + 1], keys[k + 1]);
      }
    }
  }

  lemma VisitedAfter(g: map<Lib, seq<Lib>>, visited: seq<Lib>, open: set<Lib>, vkeys: seq<Key>, si: Lib, key: Key, open': set<Lib>)
    requires VisitedFound(g, visited, open, vkeys) && FoundAt(g, visited, open, si, key) && si !in visited
    requires open' == open || open' == open + {si}
    ensures VisitedFound(g, visited + [si], open', vkeys + [key])
  {
    var longer, vs := visited + [si], vkeys + [key];
    forall i | 0 < i < |longer| ensures FoundAt(g, longer, open', longer[i], vs[i]) {
      FoundStays(g, visited, open, si, open', longer[i], vs[i]);
    }
  }

  /** What was noted stays noted. */
  lemma OldNoted(visited: seq<Lib>, keys: seq<Key>, vkeys: seq<Key>, si: Lib, added: seq<Key>, v: Lib, key: Key)
    requires keys != [] && |vkeys| == |visited| && visited != [] && Noted(visited, keys, vkeys, v, key) && (key == keys[0] ==> v == si)
    ensures Noted(visited + [si], keys[1..] + added, vkeys + [keys[0]], v, key)
  {
    var longer, ks, vs := visited + [si], keys[1..] + added, vkeys + [keys[0]];
    if key in keys {
      if key == keys[0] {
        assert longer[|visited|] == v && vs[|visited|] == key;
      } else {
        var k :| 0 <= k < |keys| && keys[k] == key;
        assert ks[k - 1] == key;
      }
    } else {
      var i :| 0 < i < |visited| && i < |vkeys| && visited[i] == v && !key.Less(vkeys[i]);
      assert longer[i] == v && vs[i] == vkeys[i];
    }
  }

  lemma NewNoted(visited: seq<Lib>, keys: seq<Key>, vkeys: seq<Key>, si: Lib, count: nat, v: Lib, key: Key)
    requires keys != [] && key.parent == |visited| && key.child < count
    ensures Noted(visited + [si], keys[1..] + ChildKeys(|visited|, count), vkeys + [keys[0]], v, key)
  {
    assert ChildKeys(|visited|, count)[key.child] == key;
    assert (keys[1..] + ChildKeys(|visited|, count))[|keys| - 1 + key.child] == key;
  }

  lemma NotedAfter(g: map<Lib, seq<Lib>>, root: Lib, visited: seq<Lib>, open: set<Lib>, queue: seq<Lib>, keys: seq<Key>, vkeys: seq<Key>,
                   opens: bool, open': set<Lib>)
    requires AllNoted(g, root, visited, open, keys, vkeys) && QueueFound(g, visited, open, queue, keys) && |vkeys| == |visited| && visited != []
    requires queue != [] && queue[0] !in visited && queue[0] in g
    requires open <= Elems(visited) && open' == if opens then open + {queue[0]} else open
    ensures AllNoted(g, root, visited + [queue[0]], open', keys[1..] + ChildKeys(|visited|, |Children(g, queue[0], opens)|), vkeys + [keys[0]])
  {
    var si, count := queue[0], |Children(g, queue[0], opens)|;
    forall v, key | FoundAt(g, visited + [si], open', v, key) && v != root
      ensures Noted(visited + [si], keys[1..] + ChildKeys(|visited|, count), vkeys + [keys[0]], v, key)
    {
      if key.parent < |visited| {
        FoundStays(g, visited, open, si, open', v, key);
        assert Noted(visited, keys, vkeys, v, key);
        OldNoted(visited, keys, vkeys, si, ChildKeys(|visited|, count), v, key);
      } else {
        assert (visited + [si])[key.parent] == si && si !in open;
        NewNoted(visited, keys, vkeys, si, count, v, key);
      }
    }
  }

  lemma RisingAfter(n: nat, keys: seq<Key>, vkeys: seq<Key>, count: nat)
    requires keys != [] && AllRising(keys, vkeys)
    requires (forall k :: 0 <= k < |keys| ==> keys[k].parent < n) && forall i :: 0 < i < |vkeys| ==> vkeys[i].parent < n
    ensures AllRising(keys[1..] + ChildKeys(n, count), vkeys + [keys[0]])
  {
    StillRising(keys[1..], n, count);
  }

  lemma Taken(g: map<Lib, seq<Lib>>, root: Lib, visited: seq<Lib>, open: set<Lib>, queue: seq<Lib>, keys: seq<Key>, vkeys: seq<Key>,
              opens: bool, open': set<Lib>)
    requires Keyed(g, root, visited, open, queue, keys, vkeys) && queue != [] && queue[0] !in visited && queue[0] in g
    requires open <= Elems(visited) && open' == if opens then open + {queue[0]} else open
    ensures Keyed(g, root, visited + [queue[0]], open', queue[1..] + Children(g, queue[0], opens),
                  keys[1..] + ChildKeys(|visited|, |Children(g, queue[0], opens)|), vkeys + [keys[0]])
  {
    RisingAfter(|visited|, keys, vkeys, |Children(g, queue[0], opens)|);
    QueueAfter(g, visited, open, queue, keys, opens, open');
    VisitedAfter(g, visited, open, vkeys, queue[0], keys[0], open');
    NotedAfter(g, root, visited, open, queue, keys, vkeys, opens, open');
  }

  // ---------------------------------------------------------------------------------
  // The walk
  // ---------------------------------------------------------------------------------

  lemma OpenedAfter(visited: seq<Lib>, act: Visitor, open: set<Lib>, si: Lib, open': set<Lib>)
    requires Opened(visited, act, open) && si !in visited && open' == if act(visited, si) == Continue then open + {si} else open
    ensures Opened(visited + [si], act, open')
  {
    var longer := visited + [si];
    forall i | 0 <= i < |longer| ensures longer[i] in open' <==> act(longer[..i], longer[i]) == Continue {
      assert longer[..i] == if i < |visited| then visited[..i] else visited;
    }
  }

  lemma {:induction false} KeysFrom(g: map<Lib, seq<Lib>>, root: Lib, queue: seq<Lib>, visited: seq<Lib>, act: Visitor, open: set<Lib>,
                                    keys: seq<Key>, vkeys: seq<Key>)
    returns (open': set<Lib>, vkeys': seq<Key>)
    requires Closed(g) && (forall q :: q in queue ==> q in g) && Opened(visited, act, open) && Keyed(g, root, visited, open, queue, keys, vkeys)
    ensures WalkFrom(g, queue, visited, act).1 ==>
              Opened(WalkFrom(g, queue, visited, act).0, act, open') && Keyed(g, root, WalkFrom(g, queue, visited, act).0, open', [], [], vkeys')
    decreases g.Keys - Elems(visited), |queue|
  {
    open', vkeys' := open, vkeys;
    if queue == [] {
      assert keys == [];
    } else if queue[0] in visited {
      PassedOver(g, root, visited, open, queue, keys, vkeys);
      open', vkeys' := KeysFrom(g, root, queue[1..], visited, act, open, keys[1..], vkeys);
    } else if act(visited, queue[0]) != Stop {
      var si, opens := queue[0], act(visited, queue[0]) == Continue;
      Shrinks(g, visited, si);
      open' := if opens then open + {si} else open;
      OpenedAfter(visited, act, open, si, open');
      Taken(g, root, visited, open, queue, keys, vkeys, opens, open');
      assert queue[1..] + Children(g, si, opens) == if opens then queue[1..] + g[si] else queue[1..];
      open', vkeys' := KeysFrom(g, root, queue[1..] + Children(g, si, opens), visited + [si], act, open',
                                keys[1..] + ChildKeys(|visited|, |Children(g, si, opens)|), vkeys + [keys[0]]);
    }
  }

  lemma RootKeyed(g: map<Lib, seq<Lib>>, root: Lib, opens: bool, open: set<Lib>)
    requires root in g && open == if opens then {root} else {}
    ensures Keyed(g, root, [root], open, Children(g, root, opens), ChildKeys(0, |Children(g, root, opens)|), [Key(0, 0)])
  {
    var keys := ChildKeys(0, |Children(g, root, opens)|);
    forall v, key | FoundAt(g, [root], open, v, key) && v != root ensures Noted([root], keys, [Key(0, 0)], v, key) {
      assert keys[key.child] == key;
    }
  }

  /** `a` is come across before `b` ever is. */
  ghost predicate FoundBefore(g: map<Lib, seq<Lib>>, order: seq<Lib>, open: set<Lib>, a: Lib, b: Lib)
  {
    exists key: Key :: FoundAt(g, order, open, a, key) && forall other: Key :: FoundAt(g, order, open, b, other) ==> key.Less(other)
  }

  lemma OrderOfKeys(g: map<Lib, seq<Lib>>, root: Lib, order: seq<Lib>, open: set<Lib>, vkeys: seq<Key>, i: nat, j: nat)
    requires Keyed(g, root, order, open, [], [], vkeys) && Distinct(order) && 0 < i < j < |order|
    ensures FoundBefore(g, order, open, order[i], order[j])
  {
    assert FoundAt(g, order, open, order[i], vkeys[i]);
    assert vkeys[i].Less(vkeys[j]);
    forall other: Key | FoundAt(g, order, open, order[j], other) ensures vkeys[i].Less(other) {
      NotEarlier(g, root, order, open, vkeys, j, other);
      Between(vkeys[i], vkeys[j], other);
    }
  }

  lemma NotEarlier(g: map<Lib, seq<Lib>>, root: Lib, order: seq<Lib>, open: set<Lib>, vkeys: seq<Key>, j: nat, other: Key)
    requires order != [] && order[0] == root && AllNoted(g, root, order, open, [], vkeys) && Distinct(order) && 0 < j < |order|
    requires FoundAt(g, order, open, order[j], other)
    ensures j < |vkeys| && !other.Less(vkeys[j])
  {
    assert order[j] != order[0];
    assert Noted(order, [], vkeys, order[j], other);
    var k :| 0 < k < |order| && k < |vkeys| && order[k] == order[j] && !other.Less(vkeys[k]);
    assert k == j;
  }

  lemma Between(a: Key, b: Key, c: Key)
    requires a.Less(b) && !c.Less(b)
    ensures a.Less(c)
  {
  }

  /** `order` is that of a walk that is never stopped: it starts with the root, visits each library once that is reachable
      through libraries that were not skipped, and no library before one that is come across earlier. */
  ghost predicate IsWalk(g: map<Lib, seq<Lib>>, root: Lib, act: Visitor, order: seq<Lib>, open: set<Lib>)
  {
    && order != [] && order[0] == root && Distinct(order) && Opened(order, act, open)
    && (forall v :: v in order <==> exists p :: Route(g, root, open, p, v))
    && forall i, j :: 0 < i < j < |order| ==> FoundBefore(g, order, open, order[i], order[j])
  }

  /** The visited libraries and the action tell which were opened. */
  lemma OpenedOnce(order: seq<Lib>, act: Visitor, a: set<Lib>, b: set<Lib>)
    requires Opened(order, act, a) && Opened(order, act, b)
    ensures a == b
  {
    forall v ensures v in a <==> v in b {
      if v in order {
        var i :| 0 <= i < |order| && order[i] == v;
      }
    }
  }

  lemma WalkIsWalk(g: map<Lib, seq<Lib>>, root: Lib, act: Visitor) returns (open: set<Lib>)
    requires Closed(g) && root in g && WalkFrom(g, [root], [], act).1
    ensures IsWalk(g, root, act, WalkFrom(g, [root], [], act).0, open)
  {
    open := WalkInOrder(g, root, act);
    var other, _ := WalkIsBreadthFirst(g, root, act);
    OpenedOnce(WalkFrom(g, [root], [], act).0, act, open, other);
  }

  /** A walk that is not stopped visits libraries in the order in which they are come across: one before another if it is a
      child of an earlier library, or an earlier child of the same one. */
  lemma WalkInOrder(g: map<Lib, seq<Lib>>, root: Lib, act: Visitor) returns (open: set<Lib>)
    requires Closed(g) && root in g && WalkFrom(g, [root], [], act).1
    ensures var order := WalkFrom(g, [root], [], act).0;
            && order != [] && order[0] == root && Opened(order, act, open)
            && forall i, j :: 0 < i < j < |order| ==> FoundBefore(g, order, open, order[i], order[j])
  {
    var opens := act([], root) == Continue;
    open := if opens then {root} else {};
    var queue := [root];
    RootKeyed(g, root, opens, open);
    OpenedAfter([], act, {}, root, open);
    Shrinks(g, [], root);
    assert [] + [root] == [root] && queue[1..] + Children(g, root, opens) == Children(g, root, opens);
    assert queue[1..] + g[root] == g[root];
    assert WalkFrom(g, [root], [], act) == WalkFrom(g, Children(g, root, opens), [root], act);
    var vkeys;
    open, vkeys := KeysFrom(g, root, Children(g, root, opens), [root], act, open, ChildKeys(0, |Children(g, root, opens)|), [Key(0, 0)]);
    var _, _ := WalkIsBreadthFirst(g, root, act);
    var order := WalkFrom(g, [root], [], act).0;
    forall i, j | 0 < i < j < |order| ensures FoundBefore(g, order, open, order[i], order[j]) {
      OrderOfKeys(g, root, order, open, vkeys, i, j);
    }
  }
}
