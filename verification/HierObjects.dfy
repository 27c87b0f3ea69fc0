/** The hierarchical resource as the program keeps it: tree elements that are
    changed in place. Every method is tied to the value-level functions. */
module HierObjects {
  import opened Answers
  import opened HierTree
  import opened HierResource
  import opened Records

  /** One level of a resource name. The ghost fields record the subtree this
      element stands for, its father and its distance from the root. */
  class Element {
    var name: string
    var holders: seq<Holder>
    var leaves: seq<Element>
    ghost var tree: Tree
    ghost var father: Element?
    ghost var depth: nat

    constructor (name: string, ghost father: Element?, ghost depth: nat)
      ensures this.name == name && holders == [] && leaves == []
      ensures tree == Node(name, [], []) && this.father == father && this.depth == depth
    {
      this.name, holders, leaves := name, [], [];
      tree, this.father, this.depth := Node(name, [], []), father, depth;
    }

    ghost predicate Linked(nodes: set<Element>)
      reads this, nodes
    {
      && (forall i | 0 <= i < |leaves| ::
            leaves[i] in nodes && leaves[i].father == this && leaves[i].depth == depth + 1)
      && (forall i, j | 0 <= i < j < |leaves| :: leaves[i] != leaves[j])
    }

    /** The recorded subtree agrees with the fields, except at child `k`. */
    ghost predicate MirrorsBut(k: int)
      reads this, leaves
    {
      && tree.name == name && tree.holders == holders && |tree.leaves| == |leaves|
      && forall i | 0 <= i < |leaves| && i != k :: tree.leaves[i] == leaves[i].tree
    }

    ghost predicate Mirrors()
      reads this, leaves
    {
      MirrorsBut(-1)
    }
  }

  ghost predicate AllLinked(nodes: set<Element>)
    reads nodes
  {
    forall e | e in nodes :: e.Linked(nodes)
  }

  ghost predicate AllMirror(nodes: set<Element>, skip: set<Element>)
    requires AllLinked(nodes)
    reads nodes
  {
    forall e | e in nodes && e !in skip :: e.Mirrors()
  }

  // ----- index paths --------------------------------------------------------

  ghost predicate Within(t: Tree, ix: seq<nat>)
    decreases |ix|
  {
    ix == [] || (ix[0] < |t.leaves| && Within(t.leaves[ix[0]], ix[1..]))
  }

  ghost function SubAt(t: Tree, ix: seq<nat>): Tree
    requires Within(t, ix)
    decreases |ix|
  {
    if ix == [] then t else SubAt(t.leaves[ix[0]], ix[1..])
  }

  ghost function PutAt(t: Tree, ix: seq<nat>, s: Tree): Tree
    requires Within(t, ix)
    decreases |ix|
  {
    if ix == [] then s else t.(leaves := t.leaves[ix[0] := PutAt(t.leaves[ix[0]], ix[1..], s)])
  }

  lemma {:induction false} PutBelow(t: Tree, ix: seq<nat>, k: nat)
    requires Within(t, ix) && k < |SubAt(t, ix).leaves|
    ensures Within(t, ix + [k]) && SubAt(t, ix + [k]) == SubAt(t, ix).leaves[k]
    ensures forall s: Tree ::
              PutAt(t, ix + [k], s) == PutAt(t, ix, SubAt(t, ix).(leaves := SubAt(t, ix).leaves[k := s]))
    decreases |ix|
  {
    if ix == [] {
      assert [k][1..] == [];
    } else {
      assert (ix + [k])[1..] == ix[1..] + [k];
      PutBelow(t.leaves[ix[0]], ix[1..], k);
    }
  }

  lemma {:induction false} PutTwice(t: Tree, ix: seq<nat>, a: Tree)
    requires Within(t, ix)
    ensures Within(PutAt(t, ix, a), ix) && SubAt(PutAt(t, ix, a), ix) == a
    ensures forall s: Tree :: PutAt(PutAt(t, ix, a), ix, s) == PutAt(t, ix, s)
    ensures ix != [] ==> PutAt(t, ix, a).name == t.name
    decreases |ix|
  {
    if ix == [] {
    } else {
      PutTwice(t.leaves[ix[0]], ix[1..], a);
      var t' := PutAt(t, ix, a);
      forall s: Tree ensures PutAt(t', ix, s) == PutAt(t, ix, s) {
        var k := ix[0];
        assert t'.leaves[k := PutAt(t'.leaves[k], ix[1..], s)] == t.leaves[k := PutAt(t.leaves[k], ix[1..], s)];
      }
    }
  }

  /** `spine` walks from a tree element down to another along `ix`. */
  ghost predicate Spine(nodes: set<Element>, spine: seq<Element>, ix: seq<nat>)
    reads nodes
  {
    && |spine| == |ix| + 1
    && spine[0] in nodes
    && (forall j | 0 <= j < |spine| :: spine[j] in nodes && spine[j].depth == spine[0].depth + j)
    && forall j | 0 <= j < |ix| :: ix[j] < |spine[j].leaves| && spine[j].leaves[ix[j]] == spine[j + 1]
  }

  /** Record the subtree of child `k` in its father. */
  ghost method Record(nodes: set<Element>, skip: set<Element>, e: Element, k: nat)
    requires AllLinked(nodes) && e in nodes && AllMirror(nodes, skip + {e})
    requires e.father == null || e.father in skip
    requires k < |e.leaves| && e.MirrorsBut(k)
    modifies e`tree
    ensures AllLinked(nodes) && AllMirror(nodes, skip)
    ensures e.tree == old(e.tree).(leaves := old(e.tree).leaves[k := e.leaves[k].tree])
  {
    e.tree := e.tree.(leaves := e.tree.leaves[k := e.leaves[k].tree]);
    forall f | f in nodes ensures f.Linked(nodes) && (f !in skip && f != e ==> f.Mirrors()) {
      assert old(f.Linked(nodes) && (f !in skip && f != e ==> f.Mirrors()));
      assert f !in skip ==> forall i | 0 <= i < |f.leaves| :: f.leaves[i] != e;
    }
  }

  ghost function Stale(spine: seq<Element>, ix: seq<nat>): set<Element>
    requires |spine| == |ix| + 1
  {
    if ix == [] then {} else {spine[|ix| - 1]}
  }

  lemma SpineTail(nodes: set<Element>, skip: set<Element>, spine: seq<Element>, ix: seq<nat>)
    requires AllLinked(nodes) && Spine(nodes, spine, ix) && ix != []
    ensures Spine(nodes, spine[1..], ix[1..]) && spine[1].father == spine[0] && spine[1] == spine[0].leaves[ix[0]]
    ensures skip + Stale(spine, ix) <= skip + {spine[0]} + Stale(spine[1..], ix[1..])
    ensures |ix| > 1 ==> spine[1..][|ix[1..]| - 1] == spine[|ix| - 1] && ix[1..][|ix[1..]| - 1] == ix[|ix| - 1]
  {
    assert spine[0].Linked(nodes);
  }

  /** After the element at the end of a spine got a new subtree, only its
      father is stale; carry the change up to the start of the spine. Elements
      in `skip` are not looked at; the father of the start is one of them. */
  ghost method Refresh(nodes: set<Element>, skip: set<Element>, spine: seq<Element>, ix: seq<nat>)
    requires AllLinked(nodes) && Spine(nodes, spine, ix)
    requires spine[0].father == null || spine[0].father in skip
    requires AllMirror(nodes, skip + Stale(spine, ix))
    requires ix != [] ==> spine[|ix| - 1].MirrorsBut(ix[|ix| - 1])
    requires forall j | 0 <= j < |spine| :: spine[j] !in skip
    modifies nodes`tree
    ensures AllLinked(nodes) && AllMirror(nodes, skip)
    ensures forall e | e in nodes && e.depth <= spine[0].depth && e != spine[0] :: e.tree == old(e.tree)
    ensures old(Within(spine[0].tree, ix)) && spine[0].tree == PutAt(old(spine[0].tree), ix, old(spine[|ix|].tree))
    decreases |ix|
  {
    if ix != [] {
      var top := spine[0];
      SpineTail(nodes, skip, spine, ix);
      Refresh(nodes, skip + {top}, spine[1..], ix[1..]);
      Record(nodes, skip, top, ix[0]);
    }
  }

  lemma {:induction false} SpineSub(nodes: set<Element>, spine: seq<Element>, ix: seq<nat>)
    requires AllLinked(nodes) && Spine(nodes, spine, ix) && AllMirror(nodes, {})
    ensures Within(spine[0].tree, ix) && SubAt(spine[0].tree, ix) == spine[|ix|].tree
    decreases |ix|
  {
    if ix == [] {
    } else {
      SpineSub(nodes, spine[1..], ix[1..]);
    }
  }

  // ----- flom_resource_hier_can_lock ----------------------------------------

  method CheckLock(node: Element, mode: LockMode, path: Path, ghost nodes: set<Element>) returns (can: bool)
    requires node in nodes && AllLinked(nodes) && AllMirror(nodes, {})
    ensures can == HierTree.CanLock(node.tree, mode, path)
    decreases node.tree
  {
    can := true;
    if path != [] && path[0] != node.name { return; }
    var i := 0;
    while i < |node.holders|
      invariant 0 <= i <= |node.holders|
      invariant can ==> HoldersAllow(node.holders[..i], mode)
      invariant !can ==> !HoldersAllow(node.holders, mode)
    {
      can := can && Compatible(node.holders[i].mode, mode);
      if !can { break; }
      i := i + 1;
    }
    if can {
      assert node.holders[..i] == node.holders;
      i := 0;
      while i < |node.leaves|
        invariant 0 <= i <= |node.leaves| && can
        invariant forall j | 0 <= j < i :: HierTree.CanLock(node.tree.leaves[j], mode, Next(path))
      {
        can := CheckLock(node.leaves[i], mode, Next(path), nodes);
        if !can { break; }
        i := i + 1;
      }
    }
  }

  // ----- flom_resource_hier_gc ----------------------------------------------

  method DropLeaf(e: Element, i: nat, ghost nodes: set<Element>, ghost skip: set<Element>)
    requires e in nodes && AllLinked(nodes) && AllMirror(nodes, skip) && e in skip
    requires i < |e.leaves|
    modifies e`leaves
    ensures AllLinked(nodes) && AllMirror(nodes, skip)
    ensures e.leaves == Drop(old(e.leaves), i)
  {
    e.leaves := e.leaves[..i] + e.leaves[i + 1..];
    forall o | o in nodes && o != e ensures o.Linked(nodes) {
      assert old(o.Linked(nodes));
    }
    forall o | o in nodes && o !in skip ensures o.Mirrors() {
      assert old(o.Mirrors());
    }
  }

  lemma GcAllStep(done: seq<Tree>, todo: seq<Tree>)
    requires todo != []
    ensures var c := HierTree.Gc(todo[0]);
            done + GcAll(todo) == (if c.leaves == [] && c.holders == [] then done else done + [c]) + GcAll(todo[1..])
  {
    var c := HierTree.Gc(todo[0]);
    assert done + ([c] + GcAll(todo[1..])) == done + [c] + GcAll(todo[1..]);
  }

  /** Nothing at this level or above has changed, but for one element. */
  twostate predicate OnlyBelow(nodes: set<Element>, e: Element)
    reads nodes
  {
    e in nodes && forall m | m in nodes && m.depth <= e.depth && m != e ::
                    m.leaves == old(m.leaves) && m.tree == old(m.tree)
  }

  /** Collect below an element. Elements in `skip`, the ancestors, are not
      looked at. */
  method Collect(e: Element, ghost nodes: set<Element>, ghost skip: set<Element>)
    requires e in nodes && AllLinked(nodes) && AllMirror(nodes, skip)
    requires e.father == null || e.father in skip
    requires e !in skip && forall s | s in skip :: s.depth < e.depth
    modifies nodes`leaves, nodes`tree
    ensures AllLinked(nodes) && AllMirror(nodes, skip)
    ensures e.tree == HierTree.Gc(old(e.tree))
    ensures OnlyBelow(nodes, e)
    decreases e.tree, 2
  {
    ghost var done := CollectLeaves(e, nodes, skip);
    Settle(e, done, nodes, skip);
  }

  /** Scan the leaves, collect each, drop those that became useless. */
  method CollectLeaves(e: Element, ghost nodes: set<Element>, ghost skip: set<Element>)
    returns (ghost done: seq<Tree>)
    requires e in nodes && AllLinked(nodes) && AllMirror(nodes, skip + {e})
    requires e !in skip && forall s | s in skip :: s.depth < e.depth
    requires e.Mirrors()
    modifies nodes`leaves, nodes`tree
    ensures AllLinked(nodes) && AllMirror(nodes, skip + {e})
    ensures e.tree == old(e.tree) && OnlyBelow(nodes, e)
    ensures StandFirst(e.leaves, |e.leaves|, done) && done == GcAll(e.tree.leaves)
    decreases e.tree, 1
  {
    var i := 0;
    ghost var todo := e.tree.leaves;
    done := [];
    while i < |e.leaves|
      invariant AllLinked(nodes) && AllMirror(nodes, skip + {e})
      invariant e.tree == old(e.tree) && OnlyBelow(nodes, e)
      invariant 0 <= i <= |e.leaves| && StandFirst(e.leaves, i, done) && StandLast(e.leaves, i, todo)
      invariant done + GcAll(todo) == GcAll(e.tree.leaves) && forall t | t in todo :: t in e.tree.leaves
      decreases |todo|
    {
      var kept := CollectChild(e, i, done, todo, nodes, skip);
      GcAllStep(done, todo);
      if kept {
        done := done + [HierTree.Gc(todo[0])];
        i := i + 1;
      }
      todo := todo[1..];
    }
    assert GcAll([]) == [];
  }

  ghost method Settle(e: Element, ts: seq<Tree>, nodes: set<Element>, skip: set<Element>)
    requires e in nodes && AllLinked(nodes) && AllMirror(nodes, skip + {e})
    requires e.father == null || e.father in skip
    requires StandFirst(e.leaves, |e.leaves|, ts)
    modifies e`tree
    ensures AllMirror(nodes, skip) && e.tree == Node(e.name, e.holders, ts)
  {
    e.tree := Node(e.name, e.holders, ts);
    forall f | f in nodes && f !in skip && f != e ensures f.Mirrors() {
      assert forall i | 0 <= i < |f.leaves| :: f.leaves[i] != e;
    }
  }

  /** The first `n` leaves stand for these subtrees. */
  ghost predicate StandFirst(ls: seq<Element>, n: nat, ts: seq<Tree>)
    reads ls
  {
    n <= |ls| && |ts| == n && forall i | 0 <= i < n :: ls[i].tree == ts[i]
  }

  /** The leaves from the `n`-th on stand for these subtrees. */
  ghost predicate StandLast(ls: seq<Element>, n: nat, ts: seq<Tree>)
    reads ls
  {
    n + |ts| == |ls| && forall i | 0 <= i < |ts| :: ls[n + i].tree == ts[i]
  }

  method CollectChild(e: Element, i: nat, ghost done: seq<Tree>, ghost todo: seq<Tree>,
                 ghost nodes: set<Element>, ghost skip: set<Element>) returns (kept: bool)
    requires e in nodes && AllLinked(nodes) && AllMirror(nodes, skip + {e})
    requires e !in skip && forall s | s in skip :: s.depth < e.depth
    requires i < |e.leaves| && StandFirst(e.leaves, i, done) && StandLast(e.leaves, i, todo)
    requires todo[0] in e.tree.leaves
    modifies nodes`leaves, nodes`tree
    ensures AllLinked(nodes) && AllMirror(nodes, skip + {e})
    ensures e.tree == old(e.tree) && OnlyBelow(nodes, e)
    ensures var g := HierTree.Gc(todo[0]); kept == !(g.leaves == [] && g.holders == [])
    ensures kept ==> i < |e.leaves| && StandFirst(e.leaves, i + 1, done + [HierTree.Gc(todo[0])])
                     && StandLast(e.leaves, i + 1, todo[1..])
    ensures !kept ==> i <= |e.leaves| && StandFirst(e.leaves, i, done) && StandLast(e.leaves, i, todo[1..])
    decreases e.tree, 0
  {
    var child := e.leaves[i];
    Collect(child, nodes, skip + {e});
    kept := !(|child.leaves| == 0 && child.holders == []);
    if !kept {
      DropLeaf(e, i, nodes, skip + {e});
    }
  }

  lemma {:induction false} PutSame(t: Tree, ix: seq<nat>)
    requires Within(t, ix)
    ensures PutAt(t, ix, SubAt(t, ix)) == t
    decreases |ix|
  {
    if ix == [] {
    } else {
      PutSame(t.leaves[ix[0]], ix[1..]);
    }
  }

  /** A tree with one more leaf. */
  ghost function Grown(t: Tree, leaf: Tree): Tree {
    t.(leaves := t.leaves + [leaf])
  }

  /** What becomes of an element when the rest of a path is hung below it. */
  ghost function Pending(t: Tree, rest: Path, hs: seq<Holder>): Tree {
    if rest == [] then t.(holders := hs + t.holders) else Grown(t, Chain(rest, hs))
  }

  lemma GraftPending(t: Tree, ix: seq<nat>, rest: Path, hs: seq<Holder>)
    requires Within(t, ix) && rest != []
    ensures var node := SubAt(t, ix);
            var leaf := Node(rest[0], [], []);
            var t' := PutAt(t, ix, Grown(node, leaf));
            && Within(t', ix + [|node.leaves|])
            && SubAt(t', ix + [|node.leaves|]) == leaf
            && PutAt(t', ix + [|node.leaves|], Pending(leaf, rest[1..], hs)) == PutAt(t, ix, Pending(node, rest, hs))
  {
    var node := SubAt(t, ix);
    var leaf := Node(rest[0], [], []);
    var full := Pending(leaf, rest[1..], hs);
    assert full == Chain(rest, hs) by {
      if |rest| == 1 { assert hs + [] == hs; } else { assert [] + [Chain(rest[1..], hs)] == [Chain(rest[1..], hs)]; }
    }
    PutTwice(t, ix, Grown(node, leaf));
    PutBelow(PutAt(t, ix, Grown(node, leaf)), ix, |node.leaves|);
    assert Grown(node, leaf).leaves[|node.leaves| := full] == node.leaves + [full];
  }

  // ----- the resource -------------------------------------------------------

  class Resource {
    var root: Element
    var waitings: seq<Waiter>
    var name: Path
    ghost var nodes: set<Element>

    ghost predicate Valid()
      reads this, nodes
    {
      && root in nodes && root.father == null && root.depth == 0
      && AllLinked(nodes) && AllMirror(nodes, {})
      && SameResource(root.tree, name)
    }

    ghost function View(): Hier
      reads this, nodes
      requires Valid()
    {
      Hier(root.tree, waitings, name)
    }

    /** `spine` leads along `ix` from the root of a valid resource to `node`. */
    ghost predicate Leads(spine: seq<Element>, ix: seq<nat>, node: Element)
      reads this, nodes
    {
      && Valid() && Spine(nodes, spine, ix) && spine[0] == root && spine[|ix|] == node
      && Within(root.tree, ix) && SubAt(root.tree, ix) == node.tree
    }

    lemma LeadsDown(spine: seq<Element>, ix: seq<nat>, node: Element, k: nat)
      returns (spine': seq<Element>, ix': seq<nat>)
      requires Leads(spine, ix, node) && k < |node.leaves|
      ensures ix' == ix + [k] && Leads(spine', ix', node.leaves[k])
    {
      spine', ix' := spine + [node.leaves[k]], ix + [k];
      SpineLonger(nodes, spine, ix, k, node.leaves[k]);
      PutBelow(root.tree, ix, k);
    }

    constructor (name: Path)
      requires name != []
      ensures Valid() && fresh(nodes) && View() == Init(name)
    {
      this.name := name;
      waitings := [];
      var first := new Element(name[0], null, 0);
      root := first;
      nodes := {first};
      new;
      Build();
    }

    /** Grow the only branch of a resource that has just its root. */
    method Build()
      requires Valid() && root.tree == Node(name[0], [], []) && waitings == []
      modifies this`nodes, nodes`leaves, nodes`tree
      ensures Valid() && fresh(nodes - old(nodes)) && View() == Init(name)
    {
      var end, spine, ix := Extend(root, name, 1, [], [root], []);
      PutSame(root.tree, ix);
      assert Pending(end.tree, [], []) == end.tree by { assert [] + end.tree.holders == end.tree.holders; }
      if |name| > 1 {
        assert [] + [Chain(name[1..], [])] == [Chain(name[1..], [])];
      } else {
        assert name[1..] == [];
      }
    }

    /** Replace the holders of one element. */
    method SetHolders(node: Element, hs: seq<Holder>, ghost spine: seq<Element>, ghost ix: seq<nat>)
      requires Valid() && Spine(nodes, spine, ix) && spine[0] == root && spine[|ix|] == node
      modifies nodes`holders, nodes`tree
      ensures Valid()
      ensures old(Within(root.tree, ix))
      ensures root.tree == PutAt(old(root.tree), ix, old(node.tree).(holders := hs))
    {
      SpineSub(nodes, spine, ix);
      ghost var f := if ix == [] then null else spine[|ix| - 1];
      Rehold(node, hs, nodes, f, if ix == [] then 0 else ix[|ix| - 1]);
      Refresh(nodes, {}, spine, ix);
      PutName(old(root.tree), ix, old(node.tree).(holders := hs));
    }

    /** Append an empty element below another. */
    method Graft(node: Element, level: string, ghost spine: seq<Element>, ghost ix: seq<nat>) returns (leaf: Element)
      requires Valid() && Spine(nodes, spine, ix) && spine[0] == root && spine[|ix|] == node
      modifies this`nodes, nodes`leaves, nodes`tree
      ensures fresh(leaf) && nodes == old(nodes) + {leaf} && leaf.tree == Node(level, [], [])
      ensures Valid()
      ensures old(Within(root.tree, ix))
      ensures root.tree == PutAt(old(root.tree), ix, Grown(old(node.tree), Node(level, [], [])))
      ensures Spine(nodes, spine, ix)
      ensures node.leaves == old(node.leaves) + [leaf] && |node.leaves| == |old(node.tree).leaves| + 1
    {
      leaf := Grow(node, level, nodes, spine, ix);
      nodes := nodes + {leaf};
    }

    /** Append the next level of a path; the promised outcome stays the same. */
    method GraftLevel(node: Element, ghost rest: Path, level: string, ghost hs: seq<Holder>,
                      ghost spine: seq<Element>, ghost ix: seq<nat>)
      returns (leaf: Element, ghost spine': seq<Element>, ghost ix': seq<nat>)
      requires Leads(spine, ix, node) && rest != [] && rest[0] == level
      modifies this`nodes, nodes`leaves, nodes`tree
      ensures Leads(spine', ix', leaf) && fresh(nodes - old(nodes)) && old(nodes) <= nodes
      ensures PutAt(root.tree, ix', Pending(leaf.tree, rest[1..], hs))
           == old(PutAt(root.tree, ix, Pending(node.tree, rest, hs)))
    {
      GraftPending(root.tree, ix, rest, hs);
      spine', ix' := spine, ix + [|node.tree.leaves|];
      leaf := Graft(node, level, spine, ix);
      SpineLonger(nodes, spine, ix, |node.leaves| - 1, leaf);
      spine' := spine + [leaf];
    }

    /** Append one element per remaining level, each below the one before. */
    method Extend(start: Element, path: Path, from: nat, ghost hs: seq<Holder>, ghost spine0: seq<Element>,
                  ghost ix0: seq<nat>)
      returns (end: Element, ghost spine: seq<Element>, ghost ix: seq<nat>)
      requires Leads(spine0, ix0, start) && from <= |path|
      modifies this`nodes, nodes`leaves, nodes`tree
      ensures Leads(spine, ix, end) && fresh(nodes - old(nodes)) && old(nodes) <= nodes
      ensures PutAt(root.tree, ix, Pending(end.tree, [], hs))
           == old(PutAt(root.tree, ix0, Pending(start.tree, path[from..], hs)))
    {
      var i := from;
      end, spine, ix := start, spine0, ix0;
      while i < |path|
        invariant from <= i <= |path|
        invariant Leads(spine, ix, end) && fresh(nodes - old(nodes)) && old(nodes) <= nodes
        invariant PutAt(root.tree, ix, Pending(end.tree, path[i..], hs))
               == old(PutAt(root.tree, ix0, Pending(start.tree, path[from..], hs)))
      {
        assert path[i..][1..] == path[i + 1..];
        end, spine, ix := GraftLevel(end, path[i..], path[i], hs, spine, ix);
        i := i + 1;
      }
    }

    // ----- flom_resource_hier_add_locker ------------------------------------

    /** The search along a path: where it stops, what is left of the path, and
        that the left part hung below that element is the whole insertion. */
    method Search(path: Path, ghost h: Holder)
      returns (node: Element, level: nat, nodeIsLeaf: bool, ghost spine: seq<Element>, ghost ix: seq<nat>)
      requires Valid()
      ensures level <= |path| && Leads(spine, ix, node)
      ensures level < |path| ==> nodeIsLeaf
      ensures PutAt(root.tree, ix, Pending(node.tree, path[level..], [h])) == HierTree.AddLocker(root.tree, path, h)
    {
      node, level, nodeIsLeaf := root, 0, true;
      spine, ix := [root], [];
      var continueSearch := true;
      assert path[0..] == path;
      while level < |path|
        invariant Leads(spine, ix, node) && Tracking(root.tree, path, h, level, continueSearch, ix)
      {
        nodeIsLeaf := true;
        if continueSearch && path[level] == node.name {
          var k := FindLeaf(node, path, level);
          nodeIsLeaf := |node.leaves| == 0;
          continueSearch := k < |node.leaves|;
          TrackDown(root.tree, path, h, level, ix);
          if continueSearch {
            spine, ix := LeadsDown(spine, ix, node, k);
            node := node.leaves[k];
          }
        } else {
          break;
        }
        level := level + 1;
      }
      TrackEnd(root.tree, path, h, level, continueSearch, ix);
    }

    method FindLeaf(node: Element, path: Path, level: nat) returns (k: nat)
      requires Valid() && node in nodes && level < |path|
      ensures k <= |node.leaves|
      ensures k == if level + 1 < |path| then Find(node.tree.leaves, path[level + 1]) else |node.leaves|
    {
      k := 0;
      while k < |node.leaves|
        invariant k <= |node.leaves|
        invariant level + 1 < |path| ==> k <= Find(node.tree.leaves, path[level + 1])
      {
        if level + 1 < |path| && path[level + 1] == node.leaves[k].name { break; }
        k := k + 1;
      }
    }

    /** The internal error of the search never happens. */
    method AddLocker(conn: Conn, mode: LockMode, path: Path) returns (ok: bool)
      requires Valid()
      modifies this`nodes, nodes`holders, nodes`leaves, nodes`tree
      ensures ok
      ensures Valid() && fresh(nodes - old(nodes))
      ensures root.tree == HierTree.AddLocker(old(root.tree), path, Holder(mode, conn))
    {
      ghost var h := Holder(mode, conn);
      var node, level, nodeIsLeaf, spine, ix := Search(path, h);
      if level < |path| && nodeIsLeaf {
        node, spine, ix := Extend(node, path, level, [h], spine, ix);
      } else if level < |path| {
        assert false;
      }
      SetHolders(node, [Holder(mode, conn)] + node.holders, spine, ix);
      ok := true;
    }

    // ----- flom_resource_hier_waitings --------------------------------------

    /** A waiter that can have its lock leaves the queue for the tree. */
    method TryWaiter(i: nat) returns (can: bool)
      requires Valid() && i < |waitings|
      modifies this`nodes, this`waitings, nodes`holders, nodes`leaves, nodes`tree
      ensures Valid() && fresh(nodes - old(nodes))
      ensures var w := old(waitings)[i];
              && can == CanLock(old(root.tree), w.mode, w.path)
              && root.tree == (if can then HierTree.AddLocker(old(root.tree), w.path, Holder(w.mode, w.conn))
                               else old(root.tree))
              && waitings == (if can then Drop(old(waitings), i) else old(waitings))
    {
      var w := waitings[i];
      can := CheckLock(root, w.mode, w.path, nodes);
      if can {
        waitings := waitings[..i] + waitings[i + 1..];
        var ok := AddLocker(w.conn, w.mode, w.path);
      }
    }

    method Waitings() returns (granted: seq<Waiter>)
      requires Valid()
      modifies this`nodes, this`waitings, nodes`holders, nodes`leaves, nodes`tree
      ensures Valid() && fresh(nodes - old(nodes))
      ensures Served(root.tree, waitings, granted) == Serve(old(root.tree), old(waitings))
    {
      var i := 0;
      granted := [];
      ghost var k, tree0, queue := 0, root.tree, waitings;
      while i < |waitings|
        invariant Valid() && fresh(nodes - old(nodes))
        invariant Serving(tree0, queue, k, root.tree, waitings, i, granted)
        decreases |queue| - k
      {
        ServingStep(tree0, queue, k, root.tree, waitings, i, granted);
        var w := waitings[i];
        var can := TryWaiter(i);
        if can { granted := granted + [w]; } else { i := i + 1; }
        k := k + 1;
      }
      ServingEnd(tree0, queue, k, root.tree, waitings, i, granted);
    }

    // ----- flom_resource_hier_clean -----------------------------------------

    /** The walk along the resource name, as deep as it exists. */
    method Locate() returns (node: Element, ghost spine: seq<Element>, ghost ix: seq<nat>)
      requires Valid()
      ensures Leads(spine, ix, node) && ix == WalkIx(root.tree, name)
    {
      var level := 0;
      node, spine, ix := root, [root], [];
      assert name[0..] == name;
      while level < |name|
        invariant Leads(spine, ix, node) && Walking(root.tree, name, level, ix)
        invariant level == |name| ==> WalkIx(root.tree, name) == ix
      {
        if name[level] == node.name {
          var k := FindLeaf(node, name, level);
          WalkDown(root.tree, name, level, ix);
          if k < |node.leaves| {
            spine, ix := LeadsDown(spine, ix, node, k);
            node := node.leaves[k];
          } else if level + 1 < |name| {
            break;
          }
        }
        level := level + 1;
      }
    }

    method Clean(conn: Conn) returns (granted: seq<Waiter>)
      requires Valid()
      modifies this`nodes, this`waitings, nodes`holders, nodes`leaves, nodes`tree
      ensures Valid() && fresh(nodes - old(nodes))
      ensures Cleaned(View(), granted) == HierResource.Clean(old(View()), conn)
    {
      granted := Release(conn);
      Collect(root, nodes, {});
    }

    method Release(conn: Conn) returns (granted: seq<Waiter>)
      requires Valid()
      modifies this`nodes, this`waitings, nodes`holders, nodes`leaves, nodes`tree
      ensures Valid() && fresh(nodes - old(nodes))
      ensures Cleaned(View(), granted) == HierResource.Release(old(View()), conn)
    {
      var node, spine, ix := Locate();
      WalkIxMeans(root.tree, name, []);
      var p := FindFirst(node.holders, HolderConn, conn);
      if p < |node.holders| {
        granted := ReleaseHolder(node, p, spine, ix);
      } else {
        granted := [];
        ReleaseWaiter(conn);
      }
    }

    method ReleaseWaiter(conn: Conn)
      requires Valid()
      modifies this`waitings
      ensures Valid()
      ensures waitings == var j := FirstWaiting(old(waitings), conn);
                          if j < |old(waitings)| then Drop(old(waitings), j) else old(waitings)
    {
      waitings := DropFirst(waitings, WaiterConn, conn);
    }

    method ReleaseHolder(node: Element, p: nat, ghost spine: seq<Element>, ghost ix: seq<nat>)
      returns (granted: seq<Waiter>)
      requires Leads(spine, ix, node) && ix == WalkIx(root.tree, name) && p < |node.holders|
      modifies this`nodes, this`waitings, nodes`holders, nodes`leaves, nodes`tree
      ensures Valid() && fresh(nodes - old(nodes))
      ensures Served(root.tree, waitings, granted)
           == Serve(WithHolders(old(root.tree), name, Drop(old(node.tree.holders), p)), old(waitings))
    {
      WalkIxMeans(root.tree, name, Drop(node.holders, p));
      SetHolders(node, node.holders[..p] + node.holders[p + 1..], spine, ix);
      granted := Waitings();
    }

    // ----- flom_resource_hier_inmsg -----------------------------------------

    method Lock(conn: Conn, path: Path, mode: LockMode, wait: bool) returns (rc: Rc)
      requires Valid()
      modifies this`nodes, this`waitings, nodes`holders, nodes`leaves, nodes`tree
      ensures Valid() && fresh(nodes - old(nodes))
      ensures Locked(View(), rc) == HierResource.Lock(old(View()), conn, path, mode, wait)
    {
      var can := CheckLock(root, mode, path, nodes);
      if can {
        var ok := AddLocker(conn, mode, path);
        rc := Ok;
      } else if wait {
        waitings := waitings + [Waiter(conn, mode, path)];
        rc := Enqueued;
      } else {
        rc := Busy;
      }
    }

    method Unlock(conn: Conn, path: Path) returns (valid: bool, granted: seq<Waiter>)
      requires Valid()
      modifies this`nodes, this`waitings, this`name, nodes`holders, nodes`leaves, nodes`tree
      ensures Valid() && fresh(nodes - old(nodes))
      ensures valid == SameResource(old(root.tree), path)
      ensures Cleaned(View(), granted) == HierResource.Unlock(old(View()), conn, path)
    {
      valid, granted := path != [] && path[0] == root.name, [];
      if valid {
        name := path;
        granted := Clean(conn);
      }
    }
  }

  /** State of a pass over `queue` when its first `k` waiters were judged:
      those kept are before index `i` of what is left. */
  ghost predicate Serving(root0: Tree, queue: seq<Waiter>, k: nat, root: Tree, left: seq<Waiter>, i: nat,
                          granted: seq<Waiter>) {
    && k <= |queue| && i <= |left| && left[i..] == queue[k..]
    && Serve(root0, queue[..k]) == Served(root, left[..i], granted)
  }

  lemma ServingStep(root0: Tree, queue: seq<Waiter>, k: nat, root: Tree, left: seq<Waiter>, i: nat,
                    granted: seq<Waiter>)
    requires Serving(root0, queue, k, root, left, i, granted) && i < |left|
    ensures k < |queue|
    ensures var w := left[i];
            if CanLock(root, w.mode, w.path)
            then Serving(root0, queue, k + 1, HierTree.AddLocker(root, w.path, Holder(w.mode, w.conn)),
                         Drop(left, i), i, granted + [w])
            else Serving(root0, queue, k + 1, root, left, i + 1, granted)
  {
    var w := left[i];
    assert w == left[i..][0] == queue[k..][0] == queue[k];
    assert queue[..k + 1] == queue[..k] + [w] && left[..i + 1] == left[..i] + [w];
    assert left[i + 1..] == left[i..][1..] == queue[k..][1..] == queue[k + 1..];
    assert Drop(left, i)[..i] == left[..i] && Drop(left, i)[i..] == left[i + 1..];
    ServeLast(root0, queue[..k], w);
  }

  lemma ServingEnd(root0: Tree, queue: seq<Waiter>, k: nat, root: Tree, left: seq<Waiter>, i: nat,
                   granted: seq<Waiter>)
    requires Serving(root0, queue, k, root, left, i, granted) && i == |left|
    ensures Serve(root0, queue) == Served(root, left, granted)
  {
    assert queue[k..] == [] && queue[..k] == queue && left[..i] == left;
  }

  /** The walk of the clean-up, as indices. */
  ghost function WalkIx(t: Tree, p: Path): seq<nat>
    decreases t
  {
    if |p| >= 2 && Find(t.leaves, p[1]) < |t.leaves|
    then [Find(t.leaves, p[1])] + WalkIx(t.leaves[Find(t.leaves, p[1])], p[1..])
    else []
  }

  lemma {:induction false} WalkIxMeans(t: Tree, p: Path, hs: seq<Holder>)
    ensures Within(t, WalkIx(t, p)) && SubAt(t, WalkIx(t, p)) == Target(t, p)
    ensures PutAt(t, WalkIx(t, p), Target(t, p).(holders := hs)) == WithHolders(t, p, hs)
    decreases t
  {
    if |p| >= 2 && Find(t.leaves, p[1]) < |t.leaves| {
      WalkIxMeans(t.leaves[Find(t.leaves, p[1])], p[1..], hs);
    }
  }

  ghost predicate Walking(t: Tree, name: Path, level: nat, ix: seq<nat>) {
    && level <= |name| && Within(t, ix) && |ix| < |name|
    && (level < |name| ==> |ix| == level && name[level] == SubAt(t, ix).name)
    && (level == |name| ==> |ix| == level - 1)
    && WalkIx(t, name) == ix + WalkIx(SubAt(t, ix), name[|ix|..])
  }

  lemma WalkDown(t: Tree, name: Path, level: nat, ix: seq<nat>)
    requires Walking(t, name, level, ix) && level < |name|
    ensures var leaves := SubAt(t, ix).leaves;
            var k := if level + 1 < |name| then Find(leaves, name[level + 1]) else |leaves|;
            if k < |leaves| then Walking(t, name, level + 1, ix + [k])
            else WalkIx(t, name) == ix && (level + 1 == |name| ==> Walking(t, name, level + 1, ix))
  {
    var node, rest := SubAt(t, ix), name[|ix|..];
    assert rest[1..] == name[level + 1..];
    if level + 1 < |name| && Find(node.leaves, name[level + 1]) < |node.leaves| {
      var k := Find(node.leaves, name[level + 1]);
      PutBelow(t, ix, k);
      WalkIxStep(node, rest, ix);
    }
  }

  lemma WalkIxStep(t: Tree, p: Path, ix: seq<nat>)
    requires |p| >= 2 && Find(t.leaves, p[1]) < |t.leaves|
    ensures var k := Find(t.leaves, p[1]);
            ix + WalkIx(t, p) == ix + [k] + WalkIx(t.leaves[k], p[1..])
  {
    var k := Find(t.leaves, p[1]);
    assert ix + ([k] + WalkIx(t.leaves[k], p[1..])) == ix + [k] + WalkIx(t.leaves[k], p[1..]);
  }

  /** State of the search before level `level`: either the element reached is
      the one to compare, or nothing below it carries the level's name. */
  ghost predicate Tracking(t: Tree, path: Path, h: Holder, level: nat, continueSearch: bool, ix: seq<nat>) {
    && level <= |path| && Within(t, ix)
    && (level > 0 ==> SameResource(t, path))
    && (continueSearch ==> |ix| == level)
    && (continueSearch && level > 0 ==> level < |path| && path[level] == SubAt(t, ix).name)
    && (!continueSearch ==> level > 0 && |ix| == level - 1)
    && (!continueSearch && level < |path| ==> Find(SubAt(t, ix).leaves, path[level]) == |SubAt(t, ix).leaves|)
    && PutAt(t, ix, Add(SubAt(t, ix), path[|ix|..], h)) == Add(t, path, h)
  }

  lemma TrackDown(t: Tree, path: Path, h: Holder, level: nat, ix: seq<nat>)
    requires Tracking(t, path, h, level, true, ix) && level < |path| && path[level] == SubAt(t, ix).name
    ensures var leaves := SubAt(t, ix).leaves;
            var k := if level + 1 < |path| then Find(leaves, path[level + 1]) else |leaves|;
            if k < |leaves| then Tracking(t, path, h, level + 1, true, ix + [k])
            else Tracking(t, path, h, level + 1, false, ix)
  {
    var leaves := SubAt(t, ix).leaves;
    if level + 1 < |path| {
      var k := Find(leaves, path[level + 1]);
      if k < |leaves| {
        PutBelow(t, ix, k);
        assert path[|ix|..][1..] == path[|ix| + 1..];
      }
    }
  }

  lemma TrackEnd(t: Tree, path: Path, h: Holder, level: nat, continueSearch: bool, ix: seq<nat>)
    requires Tracking(t, path, h, level, continueSearch, ix)
    requires level < |path| ==> !(continueSearch && path[level] == SubAt(t, ix).name)
    ensures PutAt(t, ix, Pending(SubAt(t, ix), path[level..], [h])) == AddLocker(t, path, h)
  {
    if level > 0 {
      assert path[|ix|..][1..] == path[level..];
    } else {
      assert path[0..] == path;
    }
  }

  lemma SpineLonger(nodes: set<Element>, spine: seq<Element>, ix: seq<nat>, k: nat, leaf: Element)
    requires Spine(nodes, spine, ix) && AllLinked(nodes) && k < |spine[|ix|].leaves| && leaf == spine[|ix|].leaves[k]
    ensures Spine(nodes, spine + [leaf], ix + [k])
  {
  }

  lemma {:induction false} PutName(t: Tree, ix: seq<nat>, a: Tree)
    requires Within(t, ix) && a.name == SubAt(t, ix).name
    ensures PutAt(t, ix, a).name == t.name
  {
  }

  /** Append an empty element and tell all elements above it. */
  method Grow(node: Element, level: string, ghost nodes: set<Element>, ghost spine: seq<Element>, ghost ix: seq<nat>)
    returns (leaf: Element)
    requires AllLinked(nodes) && AllMirror(nodes, {}) && spine != [] && spine[0].father == null
    requires Spine(nodes, spine, ix) && spine[|ix|] == node
    modifies node`leaves, nodes`tree
    ensures fresh(leaf) && leaf.tree == Node(level, [], []) && leaf.depth == node.depth + 1
    ensures node.leaves == old(node.leaves) + [leaf] && |node.leaves| == |old(node.tree).leaves| + 1
    ensures AllLinked(nodes + {leaf}) && AllMirror(nodes + {leaf}, {}) && Spine(nodes + {leaf}, spine, ix)
    ensures old(Within(spine[0].tree, ix))
    ensures spine[0].tree == PutAt(old(spine[0].tree), ix, Grown(old(node.tree), Node(level, [], [])))
    ensures spine[0].tree.name == old(spine[0].tree.name)
  {
    SpineSub(nodes, spine, ix);
    PutName(spine[0].tree, ix, Grown(node.tree, Node(level, [], [])));
    ghost var f := if ix == [] then null else spine[|ix| - 1];
    leaf := Attach(node, level, nodes, f, if ix == [] then 0 else ix[|ix| - 1]);
    Refresh(nodes + {leaf}, {}, spine, ix);
  }

  /** Give an element the subtree that its fields now stand for. */
  ghost method SetTree(node: Element, t: Tree, nodes: set<Element>, f: Element?, k: nat)
    requires node in nodes && AllLinked(nodes) && AllMirror(nodes, {node})
    requires if f == null then node.father == null else f in nodes && k < |f.leaves| && f.leaves[k] == node
    requires t.name == node.name && t.holders == node.holders && |t.leaves| == |node.leaves|
    requires forall i | 0 <= i < |node.leaves| :: t.leaves[i] == node.leaves[i].tree
    modifies node`tree
    ensures AllLinked(nodes) && AllMirror(nodes, if f == null then {} else {f})
    ensures f != null ==> f.MirrorsBut(k)
    ensures node.tree == t
  {
    node.tree := t;
    forall e | e in nodes ensures e.Linked(nodes) {
      assert old(e.Linked(nodes));
    }
    forall e | e in nodes && e != node && e != f ensures e.Mirrors() {
      assert old(e.Mirrors());
      assert forall i | 0 <= i < |e.leaves| :: e.leaves[i] != node;
    }
  }

  method Rehold(node: Element, hs: seq<Holder>, ghost nodes: set<Element>, ghost f: Element?, ghost k: nat)
    requires node in nodes && AllLinked(nodes) && AllMirror(nodes, {})
    requires if f == null then node.father == null else f in nodes && k < |f.leaves| && f.leaves[k] == node
    modifies node`holders, node`tree
    ensures AllLinked(nodes) && AllMirror(nodes, if f == null then {} else {f})
    ensures f != null ==> f.MirrorsBut(k)
    ensures node.tree == old(node.tree).(holders := hs)
  {
    node.holders := hs;
    forall e | e in nodes ensures e.Linked(nodes) && (e != node ==> e.Mirrors()) {
      assert old(e.Linked(nodes) && e.Mirrors());
    }
    SetTree(node, node.tree.(holders := hs), nodes, f, k);
  }

  method LinkLeaf(node: Element, level: string, ghost nodes: set<Element>) returns (leaf: Element)
    requires node in nodes && AllLinked(nodes) && AllMirror(nodes, {})
    modifies node`leaves
    ensures fresh(leaf) && leaf.tree == Node(level, [], []) && leaf.depth == node.depth + 1
    ensures node.leaves == old(node.leaves) + [leaf]
    ensures AllLinked(nodes + {leaf}) && AllMirror(nodes + {leaf}, {node})
  {
    leaf := new Element(level, node, node.depth + 1);
    label made:
    node.leaves := node.leaves + [leaf];
    assert node.Linked(nodes + {leaf}) by { assert old@made(node.Linked(nodes)); }
    assert leaf.Linked(nodes + {leaf}) && leaf.Mirrors();
    forall e | e in nodes && e != node ensures e.Linked(nodes + {leaf}) {
      assert old@made(e.Linked(nodes));
    }
    forall e | e in nodes && e != node ensures e.Mirrors() {
      assert old@made(e.Mirrors());
    }
  }

  method Attach(node: Element, level: string, ghost nodes: set<Element>, ghost f: Element?, ghost k: nat)
    returns (leaf: Element)
    requires node in nodes && AllLinked(nodes) && AllMirror(nodes, {})
    requires f == null ==> node.father == null
    requires f != null ==> f in nodes && f != node && k < |f.leaves| && f.leaves[k] == node
    modifies node`leaves, node`tree
    ensures fresh(leaf) && leaf.tree == Node(level, [], []) && leaf.depth == node.depth + 1
    ensures node.leaves == old(node.leaves) + [leaf]
    ensures AllLinked(nodes + {leaf}) && AllMirror(nodes + {leaf}, if f == null then {} else {f})
    ensures f != null ==> f.MirrorsBut(k)
    ensures node.tree == Grown(old(node.tree), Node(level, [], []))
  {
    leaf := LinkLeaf(node, level, nodes);
    SetTree(node, node.tree.(leaves := node.tree.leaves + [leaf.tree]), nodes + {leaf}, f, k);
  }
}
