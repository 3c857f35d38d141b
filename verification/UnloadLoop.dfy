/**
  The unload loop on the edges of the dependency graph. Edges are recorded on both sides; the
  loop takes the edges of one library away after the other and keeps the unload list.
 */
module UnloadLoop {
  import opened Basics
  import opened Soinfo
  import opened Peeling

  datatype Edges = Edges(children: map<Lib, seq<Lib>>, parents: map<Lib, seq<Lib>>)
  {
    ghost predicate Valid() {
      && parents.Keys == children.Keys
      && (forall l, c {:trigger c in children[l]} :: l in children && c in children[l] ==> c in children && l in parents[c])
      && (forall l, p {:trigger p in parents[l]} :: l in children && p in parents[l] ==> p in children && l in children[p])
    }

    /** `children.pop_front` on `si`, then `parents.remove` on the child. */
    function Pop(si: Lib): Edges
      requires parents.Keys == children.Keys
      requires si in children && children[si] != [] && children[si][0] in parents
    {
      var c := children[si][0];
      Edges(children[si := children[si][1..]], parents[c := Without(parents[c], si)])
    }
  }

  /** A child that is torn down with `root` rather than put on the external unload list. */
  predicate Candidate(linked: set<Lib>, groupRoot: map<Lib, Lib>, root: Lib, c: Lib)
  {
    c !in linked || (c in groupRoot && groupRoot[c] == root)
  }

  /** The edges that leave the group of `root`, in order. */
  ghost function Outside(linked: set<Lib>, groupRoot: map<Lib, Lib>, root: Lib, libs: seq<Lib>): seq<Lib>
  {
    if libs == [] then []
    else Outside(linked, groupRoot, root, libs[..|libs| - 1])
         + if Candidate(linked, groupRoot, root, libs[|libs| - 1]) then [] else [libs[|libs| - 1]]
  }

  /** The edges of all libraries in `local` that leave the group. */
  ghost function OutsideAll(children: map<Lib, seq<Lib>>, linked: set<Lib>, groupRoot: map<Lib, Lib>, root: Lib, local: seq<Lib>): seq<Lib>
  {
    if local == [] then []
    else
      var l := local[|local| - 1];
      OutsideAll(children, linked, groupRoot, root, local[..|local| - 1])
      + if l in children then Outside(linked, groupRoot, root, children[l]) else []
  }

  /** The dependants of the group are those the edges record. */
  ghost predicate Over(e: Edges, g: Group)
    requires e.Valid()
  {
    && g.Valid() && g.dependants.Keys == e.children.Keys
    && forall l :: l in e.children ==> g.dependants[l] == Elems(e.parents[l])
  }

  /** The edges `e` while the unloader works, compared to those (`e0`) it started from: the libraries in
      `gone` have given up their children and are nobody's parents any more. Only for `si` some edges
      may be left: those to the libraries in `done` have been taken away so far. */
  ghost predicate Peeled(e0: Edges, e: Edges, gone: set<Lib>, si: Lib, done: set<Lib>)
    requires e0.Valid()
  {
    && e.children.Keys == e0.children.Keys && e.parents.Keys == e0.children.Keys
    && si in e0.children && si in gone
    && (forall c :: c in e0.children[si] <==> c in done || c in e.children[si])
    && (forall l :: l in e0.children && l != si ==> e.children[l] == if l in gone then [] else e0.children[l])
    && (forall c, p {:trigger p in e.parents[c]} {:trigger p in e0.parents[c]} :: c in e0.children ==>
          (p in e.parents[c] <==> p in e0.parents[c] && (p !in gone || (p == si && c !in done))))
  }

  lemma PeeledFirst(e: Edges, root: Lib)
    requires e.Valid() && root in e.children
    ensures Peeled(e, e, {root}, root, {})
  {
  }

  lemma PeeledPop(e0: Edges, e: Edges, gone: set<Lib>, si: Lib, done: set<Lib>, c: Lib)
    requires e0.Valid() && Peeled(e0, e, gone, si, done)
    requires e.children[si] != [] && e.children[si][0] == c
    ensures c in e0.children && c in e0.children[si] && si in e0.parents[c]
    ensures Peeled(e0, e.Pop(si), gone, si, done + {c})
  {
    var cs := e.children[si];
    assert forall x :: x in cs <==> x == c || x in cs[1..];
    assert c in e0.children[si];
  }

  /** When the last edge of `si` is gone the unloader is between two libraries again. */
  lemma PeeledNext(e0: Edges, e: Edges, gone: set<Lib>, si: Lib, done: set<Lib>, next: Lib)
    requires e0.Valid() && Peeled(e0, e, gone, si, done)
    requires e.children[si] == []
    requires next in e0.children && next !in gone
    ensures Peeled(e0, e, gone + {next}, next, {})
  {
    forall c, p | c in e0.children
      ensures p in e.parents[c] <==> p in e0.parents[c] && (p !in gone + {next} || (p == next && c !in {}))
    {
      if p in e0.parents[c] && p == si {
        assert c in e0.children[si];
        assert c in done;
      }
    }
    assert forall l :: l in e0.children && l != next ==> e.children[l] == if l in gone + {next} then [] else e0.children[l];
  }

  lemma EmptyMeansGone(before: seq<Lib>, after: seq<Lib>, gone: set<Lib>)
    requires forall p :: p in after <==> p in before && p !in gone
    ensures after == [] <==> Elems(before) <= gone
  {
    if after != [] {
      assert after[0] in after;
    }
  }

  /** Where the unload loop stands: `local` has been taken, the edges of its last library `si` are gone as
      far as `done`, and `todo` is the unload list. */
  ghost predicate Unloading(e0: Edges, g: Group, e: Edges, local: seq<Lib>, todo: seq<Lib>, si: Lib, done: set<Lib>)
    requires e0.Valid()
  {
    && Over(e0, g)
    && PeelPrefix(g, local)
    && Peeled(e0, e, Elems(local), si, done)
    && Waiting(g, Elems(local), todo, si, done)
  }

  lemma FirstLib(e: Edges, g: Group)
    requires e.Valid() && Over(e, g)
    ensures Unloading(e, g, e, [g.root], [], g.root, {})
  {
    assert Elems([g.root]) == {g.root};
    PeeledFirst(e, g.root);
    forall c | Ready(g, {g.root}, c) ensures g.root in g.dependants[c] {
      var p :| p in g.dependants[c];
    }
  }

  /** One turn of the inner loop: the first edge of `si` is taken away, and its target goes on the unload
      list if it is a member of the group and that was its last dependant. */
  lemma EdgeStep(e0: Edges, g: Group, e: Edges, local: seq<Lib>, todo: seq<Lib>, si: Lib, done: set<Lib>, c: Lib)
    requires e0.Valid() && Unloading(e0, g, e, local, todo, si, done)
    requires e.children[si] != [] && e.children[si][0] == c
    ensures c in e.parents && c in e0.children[si]
    ensures Unloading(e0, g, e.Pop(si), local,
                      if c !in local && c in g.members && e.Pop(si).parents[c] == [] then todo + [c] else todo, si, done + {c})
  {
    PeeledPop(e0, e, Elems(local), si, done, c);
    PopEdgeWaits(g, Elems(local), todo, si, done, c);
    EmptyMeansGone(e0.parents[c], Without(e.parents[c], si), Elems(local));
  }

  /** The next library on the unload list is taken. */
  lemma LibStep(e0: Edges, g: Group, e: Edges, local: seq<Lib>, todo: seq<Lib>, si: Lib, done: set<Lib>)
    requires e0.Valid() && Unloading(e0, g, e, local, todo, si, done)
    requires e.children[si] == [] && todo != [] && todo[0] !in local
    ensures Unloading(e0, g, e, local + [todo[0]], todo[1..], todo[0], {})
  {
    var next := todo[0];
    AllEdgesDone(e0, g, e, Elems(local), si, done);
    assert next in todo;
    assert Elems(local + [next]) == Elems(local) + {next};
    PeeledNext(e0, e, Elems(local), si, done, next);
    WaitingNext(g, Elems(local), todo, si, done);
    PeelExtends(g, local, next);
  }

  lemma AllEdgesDone(e0: Edges, g: Group, e: Edges, gone: set<Lib>, si: Lib, done: set<Lib>)
    requires e0.Valid() && Over(e0, g) && Peeled(e0, e, gone, si, done)
    requires e.children[si] == []
    ensures forall c :: c in g.dependants && si in g.dependants[c] ==> c in done
  {
    forall c | c in g.dependants && si in g.dependants[c] ensures c in done {
      assert si in e0.parents[c];
      assert c in e0.children[si];
    }
  }

  /** A library that is on the list twice is taken once. */
  lemma SkipStep(e0: Edges, g: Group, e: Edges, local: seq<Lib>, todo: seq<Lib>, si: Lib, done: set<Lib>)
    requires e0.Valid() && Unloading(e0, g, e, local, todo, si, done)
    requires todo != [] && todo[0] in local
    ensures Unloading(e0, g, e, local, todo[1..], si, done)
  {
    WaitingSkip(g, Elems(local), todo, si, done);
  }

  /** What the edges are when the loop is done. */
  ghost predicate Severed(e0: Edges, e: Edges, local: seq<Lib>)
    requires e0.Valid()
  {
    && e.children.Keys == e0.children.Keys && e.parents.Keys == e0.children.Keys
    && (forall l :: l in e0.children ==> e.children[l] == if l in local then [] else e0.children[l])
    && (forall c, p {:trigger p in e.parents[c]} {:trigger p in e0.parents[c]} :: c in e0.children ==>
          (p in e.parents[c] <==> p in e0.parents[c] && p !in local))
  }

  /** When the unload list is empty the group has been taken apart. */
  lemma LoopDone(e0: Edges, g: Group, e: Edges, local: seq<Lib>, si: Lib, done: set<Lib>)
    requires e0.Valid() && Unloading(e0, g, e, local, [], si, done)
    requires e.children[si] == []
    ensures PeelOrder(g, local) && Severed(e0, e, local)
  {
    AllEdgesDone(e0, g, e, Elems(local), si, done);
    PeelDone(g, local, si, done);
    forall c, p | c in e0.children ensures p in e.parents[c] <==> p in e0.parents[c] && p !in local {
      if p == si && p in e0.parents[c] {
        assert si in g.dependants[c];
      }
    }
  }

  lemma SeveredIsValid(e0: Edges, e: Edges, local: seq<Lib>)
    requires e0.Valid() && Severed(e0, e, local)
    ensures e.Valid()
  {
  }

  lemma TakeOne(all: seq<Lib>, taken: seq<Lib>, left: seq<Lib>)
    requires all == taken + left && left != []
    ensures all == taken + [left[0]] + left[1..]
  {
  }

  lemma OutsideGrows(linked: set<Lib>, groupRoot: map<Lib, Lib>, root: Lib, libs: seq<Lib>, c: Lib)
    ensures Outside(linked, groupRoot, root, libs + [c]) ==
            Outside(linked, groupRoot, root, libs) + if Candidate(linked, groupRoot, root, c) then [] else [c]
  {
    assert (libs + [c])[..|libs|] == libs;
  }

  lemma OutsideAllGrows(children: map<Lib, seq<Lib>>, linked: set<Lib>, groupRoot: map<Lib, Lib>, root: Lib, local: seq<Lib>, l: Lib)
    requires l in children
    ensures OutsideAll(children, linked, groupRoot, root, local + [l]) ==
            OutsideAll(children, linked, groupRoot, root, local) + Outside(linked, groupRoot, root, children[l])
  {
    assert (local + [l])[..|local|] == local;
  }

  /** One turn of the inner loop. A target outside the group is put aside. */
  method TakeEdge(ghost e0: Edges, ghost g: Group, before: Edges, linked: set<Lib>, groupRoot: map<Lib, Lib>, root: Lib,
                  local: seq<Lib>, waiting: seq<Lib>, si: Lib, ghost done: set<Lib>)
    returns (e: Edges, todo: seq<Lib>, out: seq<Lib>)
    requires e0.Valid() && Unloading(e0, g, before, local, waiting, si, done) && before.children[si] != []
    requires linked <= groupRoot.Keys
    requires forall l :: l in e0.children ==> (l in g.members <==> Candidate(linked, groupRoot, root, l))
    ensures Unloading(e0, g, e, local, todo, si, done + {before.children[si][0]}) && e.children[si] == before.children[si][1..]
    ensures out == if Candidate(linked, groupRoot, root, before.children[si][0]) then [] else [before.children[si][0]]
  {
    var child := before.children[si][0];
    EdgeStep(e0, g, before, local, waiting, si, done, child);
    if child in local {
      PeelMembers(g, local, child);
    }
    e, todo, out := before.Pop(si), waiting, [];
    if child in local {
    } else if child in linked && groupRoot[child] != root {
      out := [child];
    } else if e.parents[child] == [] {
      todo := waiting + [child];
    }
  }

  /** The inner loop: the edges of `si` are taken away one by one. */
  method TakeEdges(ghost e0: Edges, ghost g: Group, before: Edges, linked: set<Lib>, groupRoot: map<Lib, Lib>, root: Lib,
                   local: seq<Lib>, waiting: seq<Lib>, si: Lib)
    returns (e: Edges, todo: seq<Lib>, out: seq<Lib>, ghost done: set<Lib>)
    requires e0.Valid() && Unloading(e0, g, before, local, waiting, si, {})
    requires linked <= groupRoot.Keys
    requires forall l :: l in e0.children ==> (l in g.members <==> Candidate(linked, groupRoot, root, l))
    requires before.children[si] == e0.children[si]
    ensures Unloading(e0, g, e, local, todo, si, done) && e.children[si] == []
    ensures out == Outside(linked, groupRoot, root, e0.children[si])
  {
    e, todo, out, done := before, waiting, [], {};
    ghost var taken := [];
    while e.children[si] != []
      invariant Unloading(e0, g, e, local, todo, si, done)
      invariant e0.children[si] == taken + e.children[si]
      invariant out == Outside(linked, groupRoot, root, taken)
      decreases |e.children[si]|
    {
      ghost var child := e.children[si][0];
      TakeOne(e0.children[si], taken, e.children[si]);
      OutsideGrows(linked, groupRoot, root, taken, child);
      var outside;
      e, todo, outside := TakeEdge(e0, g, e, linked, groupRoot, root, local, todo, si, done);
      out := out + outside;
      taken, done := taken + [child], done + {child};
    }
    assert taken == e0.children[si];
  }

  /** The unload loop stands between two libraries, or has not begun. */
  ghost predicate Between(e0: Edges, g: Group, e: Edges, local: seq<Lib>, todo: seq<Lib>, last: Lib, done: set<Lib>)
    requires e0.Valid()
  {
    if local == [] then todo == [g.root] && e == e0
    else Unloading(e0, g, e, local, todo, last, done) && e.children[last] == []
  }

  lemma Begin(e0: Edges, g: Group, e: Edges, local: seq<Lib>, todo: seq<Lib>, last: Lib, done: set<Lib>)
    requires e0.Valid() && Over(e0, g) && Between(e0, g, e, local, todo, last, done)
    requires todo != [] && todo[0] !in local
    ensures Unloading(e0, g, e, local + [todo[0]], todo[1..], todo[0], {})
    ensures todo[0] in e0.children && e.children[todo[0]] == e0.children[todo[0]]
    ensures todo[0] in Elems(local + [todo[0]]) && todo[0] !in Elems(local) && Elems(local) <= Elems(local + [todo[0]])
  {
    if local == [] {
      FirstLib(e0, g);
      assert local + [todo[0]] == [g.root];
    } else {
      LibStep(e0, g, e, local, todo, last, done);
    }
  }

  /** The unload loop of `soinfo_unload_impl`: takes the group of `root` apart. `local` are the libraries to be
      unloaded, in the order in which their destructors run, and `ext` the external unload list. */
  method TakeApart(e0: Edges, linked: set<Lib>, groupRoot: map<Lib, Lib>, root: Lib, ghost g: Group)
    returns (e: Edges, local: seq<Lib>, ext: seq<Lib>)
    requires e0.Valid() && Over(e0, g) && g.root == root
    requires linked <= groupRoot.Keys
    requires forall l :: l in e0.children ==> (l in g.members <==> Candidate(linked, groupRoot, root, l))
    ensures PeelOrder(g, local)
    ensures Severed(e0, e, local)
    ensures ext == OutsideAll(e0.children, linked, groupRoot, root, local)
  {
    e := e0;
    var todo := [root];
    local, ext := [], [];
    ghost var last, done := root, {};
    while todo != []
      invariant Between(e0, g, e, local, todo, last, done)
      invariant todo == [] ==> local != []
      invariant ext == OutsideAll(e0.children, linked, groupRoot, root, local)
      decreases e0.children.Keys - Elems(local), |todo|
    {
      var si := todo[0];
      if si in local {
        SkipStep(e0, g, e, local, todo, last, done);
        todo := todo[1..];
      } else {
        Begin(e0, g, e, local, todo, last, done);
        OutsideAllGrows(e0.children, linked, groupRoot, root, local, si);
        local := local + [si];
        last := si;
        var out: seq<Lib>;
        e, todo, out, done := TakeEdges(e0, g, e, linked, groupRoot, root, local, todo[1..], si);
        ext := ext + out;
      }
    }
    LoopDone(e0, g, e, local, last, done);
  }
}
