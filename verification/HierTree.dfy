/** The name tree of a hierarchical resource, as a value: the lock check, the
    insertion and the garbage collector, and what each of them means for the
    flat view of the tree, the multiset of (path, mode, connection) entries. */
module HierTree {
  import opened Records

  type Path = seq<string>

  // ----- lock modes ---------------------------------------------------------

  datatype LockMode = NL | CR | CW | PR | PW | EX

  function Ordinal(m: LockMode): (i: nat)
    ensures i < 6
  {
    match m
    case NL => 0 case CR => 1 case CW => 2 case PR => 3 case PW => 4 case EX => 5
  }

  // Row: the mode already held; column: the mode asked for.
  const LOCK_TABLE: seq<seq<bool>> := [
    [true, true,  true,  true,  true,  true],
    [true, true,  true,  true,  true,  false],
    [true, true,  true,  false, false, false],
    [true, true,  false, true,  false, false],
    [true, true,  false, false, false, false],
    [true, false, false, false, false, false]]

  predicate Compatible(held: LockMode, asked: LockMode) {
    LOCK_TABLE[Ordinal(held)][Ordinal(asked)]
  }

  /** What a holder does: nothing, read, or write. */
  function Does(m: LockMode): nat {
    match m
    case NL => 0 case CR => 1 case PR => 1 case CW => 2 case PW => 2 case EX => 2
  }

  /** What a holder lets others do: nothing, read, or read and write. */
  function Lets(m: LockMode): nat {
    match m
    case EX => 0 case PR => 1 case PW => 1 case NL => 2 case CR => 2 case CW => 2
  }

  /** Two modes go together exactly when neither does more than the other
      lets it do. */
  lemma CompatibleMeans(a: LockMode, b: LockMode)
    ensures Compatible(a, b) <==> Does(a) <= Lets(b) && Does(b) <= Lets(a)
  {
    match a { case NL => case CR => case CW => case PR => case PW => case EX => }
    match b { case NL => case CR => case CW => case PR => case PW => case EX => }
  }

  /** The order of arrival never matters for a pair of modes. */
  lemma CompatibleSymmetric(a: LockMode, b: LockMode)
    ensures Compatible(a, b) == Compatible(b, a)
  {
    match a { case NL => case CR => case CW => case PR => case PW => case EX => }
    match b { case NL => case CR => case CW => case PR => case PW => case EX => }
  }

  // ----- the tree and its flat view -----------------------------------------

  datatype Holder = Holder(mode: LockMode, conn: Conn)

  datatype Tree = Node(name: string, holders: seq<Holder>, leaves: seq<Tree>)

  datatype Entry = Entry(path: Path, mode: LockMode, conn: Conn)

  ghost function At(path: Path, hs: seq<Holder>): multiset<Entry> {
    if hs == [] then multiset{}
    else multiset{Entry(path, hs[0].mode, hs[0].conn)} + At(path, hs[1..])
  }

  /** Every holder of the subtree `t` hanging below the path `up`. */
  ghost function Entries(t: Tree, up: Path): multiset<Entry>
    decreases t, 0
  {
    At(up + [t.name], t.holders) + Forest(t.leaves, up + [t.name])
  }

  ghost function Forest(ls: seq<Tree>, up: Path): multiset<Entry>
    decreases ls, 0
  {
    if ls == [] then multiset{} else Entries(ls[0], up) + Forest(ls[1..], up)
  }

  /** The flat view of a whole resource. */
  ghost function Flat(root: Tree): multiset<Entry> {
    Entries(root, [])
  }

  /** Two paths are related when one is an ancestor of the other. */
  predicate Comparable(a: Path, b: Path) {
    a <= b || b <= a
  }

  /** The obvious check: scan all entries and look at the related ones. */
  ghost predicate FlatCanLock(es: multiset<Entry>, mode: LockMode, p: Path) {
    forall e | e in es :: Comparable(e.path, p) ==> Compatible(e.mode, mode)
  }

  /** No two distinct holders on related paths have clashing modes. */
  ghost predicate Safe(es: multiset<Entry>) {
    forall e, f | multiset{e, f} <= es && Comparable(e.path, f.path) :: Compatible(e.mode, f.mode)
  }

  /** Some entry is of this connection. */
  ghost predicate InFlat(es: multiset<Entry>, conn: Conn) {
    exists e | e in es :: e.conn == conn
  }

  lemma InFlatSum(a: multiset<Entry>, b: multiset<Entry>, conn: Conn)
    ensures InFlat(a + b, conn) <==> InFlat(a, conn) || InFlat(b, conn)
  {
    if e :| e in a && e.conn == conn { assert e in a + b; }
    if e :| e in b && e.conn == conn { assert e in a + b; }
  }

  lemma InFlatOne(e: Entry, conn: Conn)
    ensures InFlat(multiset{e}, conn) <==> e.conn == conn
  {
    assert e in multiset{e};
  }

  // ----- flom_resource_hier_can_lock ----------------------------------------

  predicate HoldersAllow(hs: seq<Holder>, mode: LockMode) {
    forall i | 0 <= i < |hs| :: Compatible(hs[i].mode, mode)
  }

  /** The pruned walk. The empty path is the terminator of the name vector. */
  predicate CanLock(t: Tree, mode: LockMode, p: Path)
    decreases t, 0
  {
    if p != [] && p[0] != t.name then true
    else HoldersAllow(t.holders, mode) && LeavesAllow(t.leaves, mode, Next(p))
  }

  predicate LeavesAllow(ls: seq<Tree>, mode: LockMode, p: Path)
    decreases ls, 0
  {
    forall i | 0 <= i < |ls| :: CanLock(ls[i], mode, p)
  }

  function Next(p: Path): Path {
    if p == [] then p else p[1..]
  }

  lemma {:induction false} AtEntries(path: Path, hs: seq<Holder>, e: Entry)
    ensures e in At(path, hs) <==> e.path == path && Holder(e.mode, e.conn) in hs
  {
    if hs == [] {
    } else {
      AtEntries(path, hs[1..], e);
      assert hs == [hs[0]] + hs[1..];
    }
  }

  lemma {:induction false} EntriesExtend(t: Tree, up: Path, e: Entry)
    requires e in Entries(t, up)
    ensures up + [t.name] <= e.path
    decreases t, 0
  {
    AtEntries(up + [t.name], t.holders, e);
    if e in Forest(t.leaves, up + [t.name]) {
      ForestExtends(t.leaves, up + [t.name], e);
    }
  }

  lemma {:induction false} ForestExtends(ls: seq<Tree>, up: Path, e: Entry)
    requires e in Forest(ls, up)
    ensures up <= e.path
    decreases ls, 0
  {
    if e in Entries(ls[0], up) {
      EntriesExtend(ls[0], up, e);
    } else {
      ForestExtends(ls[1..], up, e);
    }
  }

  /** The pruned walk answers exactly what the flat scan answers, for every
      tree, every mode and every path. */
  lemma {:induction false} CanLockExactBelow(t: Tree, up: Path, mode: LockMode, p: Path)
    ensures CanLock(t, mode, p) <==> FlatCanLock(Entries(t, up), mode, up + p)
    decreases t, 1
  {
    var here := up + [t.name];
    if p != [] && p[0] != t.name {
      OffPathExact(t, up, mode, p);
    } else {
      CanLockForest(t.leaves, here, mode, Next(p));
      FlatCanLockSum(At(here, t.holders), Forest(t.leaves, here), mode, up + p);
      OneLevelDown(up, t.name, p);
      HoldersExact(t.holders, here, mode, up + p);
      ForestExact(t.leaves, here, mode, up + p, here + Next(p));
    }
  }

  lemma OneLevelDown(up: Path, name: string, p: Path)
    requires p == [] || p[0] == name
    ensures Comparable(up + [name], up + p)
    ensures up + p == up + [name] + Next(p) || (up + p <= up + [name] && up + [name] + Next(p) <= up + [name])
  {
    if p == [] {
      assert up + p == up && up + [name] + Next(p) == up + [name];
    } else {
      assert up + p == up + [name] + p[1..];
    }
  }

  lemma FlatCanLockSum(a: multiset<Entry>, b: multiset<Entry>, mode: LockMode, p: Path)
    ensures FlatCanLock(a + b, mode, p) <==> FlatCanLock(a, mode, p) && FlatCanLock(b, mode, p)
  {
    assert forall e | e in a + b :: e in a || e in b;
    assert forall e | e in a || e in b :: e in a + b;
  }

  lemma OffPathExact(t: Tree, up: Path, mode: LockMode, p: Path)
    requires p != [] && p[0] != t.name
    ensures FlatCanLock(Entries(t, up), mode, up + p)
  {
    forall e | e in Entries(t, up) ensures !Comparable(e.path, up + p) {
      EntriesExtend(t, up, e);
      assert e.path[|up|] == t.name && (up + p)[|up|] == p[0];
    }
  }

  /** Below `up`, an asked path that stops at or above `up` is related to
      every entry. */
  lemma ForestExact(ls: seq<Tree>, up: Path, mode: LockMode, asked: Path, asked': Path)
    requires asked == asked' || (asked <= up && asked' <= up)
    ensures FlatCanLock(Forest(ls, up), mode, asked) <==> FlatCanLock(Forest(ls, up), mode, asked')
  {
    if asked != asked' {
      forall e | e in Forest(ls, up) ensures Comparable(e.path, asked) && Comparable(e.path, asked') {
        ForestExtends(ls, up, e);
      }
    }
  }

  lemma HoldersExact(hs: seq<Holder>, here: Path, mode: LockMode, asked: Path)
    requires Comparable(here, asked)
    ensures HoldersAllow(hs, mode) <==> FlatCanLock(At(here, hs), mode, asked)
  {
    forall e: Entry ensures e in At(here, hs) <==> e.path == here && Holder(e.mode, e.conn) in hs {
      AtEntries(here, hs, e);
    }
    if FlatCanLock(At(here, hs), mode, asked) {
      forall i | 0 <= i < |hs| ensures Compatible(hs[i].mode, mode) {
        assert Entry(here, hs[i].mode, hs[i].conn) in At(here, hs);
      }
    }
  }

  lemma {:induction false} CanLockForest(ls: seq<Tree>, up: Path, mode: LockMode, p: Path)
    ensures LeavesAllow(ls, mode, p) <==> FlatCanLock(Forest(ls, up), mode, up + p)
    decreases ls, 1
  {
    if ls == [] {
    } else {
      CanLockExactBelow(ls[0], up, mode, p);
      CanLockForest(ls[1..], up, mode, p);
      LeavesAllowSplit(ls, mode, p);
      FlatCanLockSum(Entries(ls[0], up), Forest(ls[1..], up), mode, up + p);
    }
  }

  lemma LeavesAllowSplit(ls: seq<Tree>, mode: LockMode, p: Path)
    requires ls != []
    ensures LeavesAllow(ls, mode, p) <==> CanLock(ls[0], mode, p) && LeavesAllow(ls[1..], mode, p)
  {
    assert forall i | 0 < i < |ls| :: ls[i] == ls[1..][i - 1];
    assert forall i | 0 <= i < |ls[1..]| :: ls[1..][i] == ls[i + 1];
  }

  lemma CanLockExact(root: Tree, mode: LockMode, p: Path)
    ensures CanLock(root, mode, p) <==> FlatCanLock(Flat(root), mode, p)
  {
    CanLockExactBelow(root, [], mode, p);
    assert [] + p == p;
  }

  // ----- flom_resource_hier_add_locker --------------------------------------

  /** The first leaf with this name, or the number of leaves. */
  function Find(ls: seq<Tree>, name: string): (k: nat)
    ensures k <= |ls|
    ensures forall i | 0 <= i < k :: ls[i].name != name
    ensures k < |ls| ==> ls[k].name == name
  {
    if ls == [] then 0
    else if ls[0].name == name then 0
    else 1 + Find(ls[1..], name)
  }

  /** A fresh branch: one node per level, all without holders but the last. */
  function Chain(p: Path, hs: seq<Holder>): Tree
    requires p != []
  {
    if |p| == 1 then Node(p[0], hs, []) else Node(p[0], [], [Chain(p[1..], hs)])
  }

  /** Insertion below a node that already matches the first level of `p`. */
  function Add(t: Tree, p: Path, h: Holder): Tree
    decreases t
  {
    if |p| <= 1 then t.(holders := [h] + t.holders)
    else
      var k := Find(t.leaves, p[1]);
      if k < |t.leaves| then t.(leaves := t.leaves[k := Add(t.leaves[k], p[1..], h)])
      else t.(leaves := t.leaves + [Chain(p[1..], [h])])
  }

  /** The insertion as the code performs it. When the first level is not the
      root's name the whole path is grafted below the root. */
  function AddLocker(root: Tree, p: Path, h: Holder): Tree {
    if p != [] && p[0] != root.name then root.(leaves := root.leaves + [Chain(p, [h])])
    else Add(root, p, h)
  }

  /** Where the code really puts the holder. */
  function Placed(root: Tree, p: Path): Path {
    if p == [] || p[0] != root.name then [root.name] + p else p
  }

  lemma {:induction false} ForestAppend(ls: seq<Tree>, t: Tree, up: Path)
    ensures Forest(ls + [t], up) == Forest(ls, up) + Entries(t, up)
  {
    if ls == [] {
      assert ls + [t] == [t];
      assert Forest([t], up) == Entries(t, up) + Forest([], up);
    } else {
      ForestAppend(ls[1..], t, up);
      assert (ls + [t])[1..] == ls[1..] + [t];
    }
  }

  lemma Rotate(a: multiset<Entry>, x: multiset<Entry>, y: multiset<Entry>, b: multiset<Entry>, c: multiset<Entry>)
    requires x + b == y + c
    ensures (a + x) + b == (a + y) + c
  {
    assert (a + x) + b == a + (x + b) == a + (y + c) == (a + y) + c;
  }

  lemma {:induction false} ForestUpdate(ls: seq<Tree>, k: nat, t: Tree, up: Path)
    requires k < |ls|
    ensures Forest(ls[k := t], up) + Entries(ls[k], up) == Forest(ls, up) + Entries(t, up)
  {
    if k == 0 {
      assert ls[0 := t][1..] == ls[1..];
    } else {
      ForestUpdate(ls[1..], k - 1, t, up);
      var us := ls[k := t];
      assert us[0] == ls[0] && us[1..] == ls[1..][k - 1 := t];
      assert Forest(us, up) == Entries(ls[0], up) + Forest(us[1..], up);
      assert ls[1..][k - 1] == ls[k];
      Rotate(Entries(ls[0], up), Forest(us[1..], up), Forest(ls[1..], up), Entries(ls[k], up), Entries(t, up));
    }
  }

  lemma {:induction false} ChainEntries(p: Path, h: Holder, up: Path)
    requires p != []
    ensures Entries(Chain(p, [h]), up) == multiset{Entry(up + p, h.mode, h.conn)}
  {
    if |p| == 1 {
      assert up + p == up + [p[0]];
      assert [h][1..] == [];
      assert At(up + [p[0]], [h]) == multiset{Entry(up + p, h.mode, h.conn)} + At(up + [p[0]], []);
    } else {
      ChainEntries(p[1..], h, up + [p[0]]);
      assert up + [p[0]] + p[1..] == up + p;
      var c := Chain(p[1..], [h]);
      assert [c][1..] == [];
      assert Forest([c], up + [p[0]]) == Entries(c, up + [p[0]]) + Forest([], up + [p[0]]);
    }
  }

  lemma ForestGrows(after: multiset<Entry>, before: multiset<Entry>, part: multiset<Entry>, extra: multiset<Entry>)
    requires after + part == before + (part + extra)
    ensures after == before + extra
  {
    assert (after + part) - part == after;
    assert before + (part + extra) - part == before + extra;
  }

  lemma {:induction false} AddEntries(t: Tree, p: Path, h: Holder, up: Path)
    requires p != [] && p[0] == t.name
    ensures Entries(Add(t, p, h), up) == Entries(t, up) + multiset{Entry(up + p, h.mode, h.conn)}
    decreases t
  {
    var here := up + [t.name];
    if |p| == 1 {
      assert up + p == here;
      assert ([h] + t.holders)[1..] == t.holders;
    } else {
      assert here + p[1..] == up + p;
      var k := Find(t.leaves, p[1]);
      if k < |t.leaves| {
        var u := Add(t.leaves[k], p[1..], h);
        AddEntries(t.leaves[k], p[1..], h, here);
        ForestUpdate(t.leaves, k, u, here);
        ForestGrows(Forest(t.leaves[k := u], here), Forest(t.leaves, here), Entries(t.leaves[k], here),
                    multiset{Entry(up + p, h.mode, h.conn)});
        assert Add(t, p, h) == t.(leaves := t.leaves[k := u]);
      } else {
        ForestAppend(t.leaves, Chain(p[1..], [h]), here);
        ChainEntries(p[1..], h, here);
      }
    }
  }

  lemma AddForeignFlat(root: Tree, p: Path, h: Holder)
    requires p != [] && p[0] != root.name
    ensures Flat(AddLocker(root, p, h)) == Flat(root) + multiset{Entry([root.name] + p, h.mode, h.conn)}
  {
    assert [] + [root.name] == [root.name];
    ForestAppend(root.leaves, Chain(p, [h]), [root.name]);
    ChainEntries(p, h, [root.name]);
  }

  lemma AddLocalFlat(root: Tree, p: Path, h: Holder)
    requires p != [] && p[0] == root.name
    ensures Flat(Add(root, p, h)) == Flat(root) + multiset{Entry(p, h.mode, h.conn)}
  {
    assert [] + p == p;
    AddEntries(root, p, h, []);
  }

  /** Insertion adds exactly one entry to the flat view and moves no other. */
  lemma AddLockerFlat(root: Tree, p: Path, h: Holder)
    ensures Flat(AddLocker(root, p, h)) == Flat(root) + multiset{Entry(Placed(root, p), h.mode, h.conn)}
  {
    if p == [] {
      assert Placed(root, p) == [root.name];
      assert AddLocker(root, p, h) == Add(root, [root.name], h);
      AddLocalFlat(root, [root.name], h);
    } else if p[0] != root.name {
      AddForeignFlat(root, p, h);
    } else {
      AddLocalFlat(root, p, h);
    }
  }

  // ----- distinct names among siblings --------------------------------------

  ghost predicate DistinctNames(ls: seq<Tree>) {
    forall i, j | 0 <= i < j < |ls| :: ls[i].name != ls[j].name
  }

  ghost predicate Distinct(t: Tree)
    decreases t
  {
    && DistinctNames(t.leaves)
    && forall i | 0 <= i < |t.leaves| :: Distinct(t.leaves[i])
  }

  lemma {:induction false} ChainDistinct(p: Path, hs: seq<Holder>)
    requires p != []
    ensures Distinct(Chain(p, hs))
  {
    if |p| <= 1 {
    } else {
      ChainDistinct(p[1..], hs);
    }
  }

  lemma {:induction false} AddDistinct(t: Tree, p: Path, h: Holder)
    requires Distinct(t)
    ensures Distinct(Add(t, p, h)) && Add(t, p, h).name == t.name
    decreases t
  {
    if |p| <= 1 {
    } else {
      var k := Find(t.leaves, p[1]);
      if k < |t.leaves| {
        AddDistinct(t.leaves[k], p[1..], h);
      } else {
        ChainDistinct(p[1..], [h]);
      }
    }
  }

  /** A path of another first level is grafted below the root without a look
      at what is there: the names stay distinct exactly when no leaf of the root
      has that name. */
  lemma AddLockerDistinctExactly(root: Tree, p: Path, h: Holder)
    requires Distinct(root)
    ensures Distinct(AddLocker(root, p, h)) <==>
            p == [] || p[0] == root.name || Find(root.leaves, p[0]) == |root.leaves|
  {
    if p == [] || p[0] == root.name {
      AddDistinct(root, p, h);
    } else {
      var k := Find(root.leaves, p[0]);
      var grown := AddLocker(root, p, h);
      ChainDistinct(p, [h]);
      assert grown.leaves[|root.leaves|].name == p[0];
      if k < |root.leaves| { assert grown.leaves[k].name == grown.leaves[|root.leaves|].name; }
    }
  }

  // ----- flom_resource_hier_gc ----------------------------------------------

  function Gc(t: Tree): Tree
    decreases t, 0
  {
    t.(leaves := GcAll(t.leaves))
  }

  /** The scan over the leaves: collect the child first, then drop it if it
      has become a terminal node without holders. */
  function GcAll(ls: seq<Tree>): seq<Tree>
    decreases ls, 0
  {
    if ls == [] then []
    else
      var c := Gc(ls[0]);
      if c.leaves == [] && c.holders == [] then GcAll(ls[1..]) else [c] + GcAll(ls[1..])
  }

  /** Some node of the subtree has a holder. */
  ghost predicate Live(t: Tree)
    decreases t
  {
    t.holders != [] || exists i | 0 <= i < |t.leaves| :: Live(t.leaves[i])
  }

  /** Every node but the root has a holder somewhere below it. */
  ghost predicate Normal(t: Tree)
    decreases t
  {
    forall i | 0 <= i < |t.leaves| :: Live(t.leaves[i]) && Normal(t.leaves[i])
  }

  ghost function OnlyLive(ls: seq<Tree>): seq<Tree> {
    if ls == [] then []
    else if Live(ls[0]) then [ls[0]] + OnlyLive(ls[1..])
    else OnlyLive(ls[1..])
  }

  ghost function GcEach(ls: seq<Tree>): seq<Tree> {
    seq(|ls|, i requires 0 <= i < |ls| => Gc(ls[i]))
  }

  /** Being live is a property of the flat view. */
  lemma {:induction false} LiveFlat(t: Tree, up: Path)
    ensures Live(t) <==> Entries(t, up) != multiset{}
    decreases t, 0
  {
    var here := up + [t.name];
    ForestLive(t.leaves, here);
    if t.holders == [] {
    } else {
      assert Entry(here, t.holders[0].mode, t.holders[0].conn) in At(here, t.holders);
      assert Entry(here, t.holders[0].mode, t.holders[0].conn) in Entries(t, up);
    }
    if Forest(t.leaves, here) != multiset{} {
      var e :| e in Forest(t.leaves, here);
      assert e in Entries(t, up);
    }
  }

  lemma {:induction false} ForestLive(ls: seq<Tree>, up: Path)
    ensures (exists i | 0 <= i < |ls| :: Live(ls[i])) <==> Forest(ls, up) != multiset{}
    decreases ls, 0
  {
    if ls == [] {
    } else {
      LiveFlat(ls[0], up);
      ForestLive(ls[1..], up);
      if Live(ls[0]) {
        var e :| e in Entries(ls[0], up);
        assert e in Forest(ls, up);
      } else if exists i | 0 <= i < |ls[1..]| :: Live(ls[1..][i]) {
        var i :| 0 <= i < |ls[1..]| && Live(ls[1..][i]);
        assert Live(ls[i + 1]);
        var e :| e in Forest(ls[1..], up);
        assert e in Forest(ls, up);
      } else {
        assert forall i | 0 <= i < |ls| :: i == 0 || ls[i] == ls[1..][i - 1];
      }
    }
  }

  /** The collector keeps the flat view, hence every lock verdict. */
  lemma {:induction false} GcEntries(t: Tree, up: Path)
    ensures Entries(Gc(t), up) == Entries(t, up)
    decreases t, 0
  {
    GcForest(t.leaves, up + [t.name]);
  }

  lemma {:induction false} GcForest(ls: seq<Tree>, up: Path)
    ensures Forest(GcAll(ls), up) == Forest(ls, up)
    decreases ls, 0
  {
    if ls == [] {
    } else {
      GcEntries(ls[0], up);
      GcForest(ls[1..], up);
      var c := Gc(ls[0]);
      if c.leaves == [] && c.holders == [] {
        assert Entries(c, up) == multiset{};
      } else {
        assert ([c] + GcAll(ls[1..]))[1..] == GcAll(ls[1..]);
      }
    }
  }

  /** What survives, in which order: the live children, each collected. */
  lemma {:induction false} GcKeepsLive(t: Tree)
    ensures Gc(t).leaves == GcEach(OnlyLive(t.leaves))
    ensures Gc(t).leaves == [] && Gc(t).holders == [] <==> !Live(t)
    decreases t, 0
  {
    GcAllKeepsLive(t.leaves);
  }

  lemma {:induction false} GcAllKeepsLive(ls: seq<Tree>)
    ensures GcAll(ls) == GcEach(OnlyLive(ls))
    ensures GcAll(ls) == [] <==> forall i | 0 <= i < |ls| :: !Live(ls[i])
    decreases ls, 0
  {
    if ls == [] {
    } else {
      GcKeepsLive(ls[0]);
      GcAllKeepsLive(ls[1..]);
      NoneLive(ls);
      if Live(ls[0]) {
        assert GcAll(ls) == [Gc(ls[0])] + GcAll(ls[1..]);
        assert OnlyLive(ls)[1..] == OnlyLive(ls[1..]);
      } else {
        assert GcAll(ls) == GcAll(ls[1..]) && OnlyLive(ls) == OnlyLive(ls[1..]);
      }
    }
  }

  lemma NoneLive(ls: seq<Tree>)
    requires ls != []
    ensures (forall i | 0 <= i < |ls| :: !Live(ls[i]))
       <==> !Live(ls[0]) && forall i | 0 <= i < |ls[1..]| :: !Live(ls[1..][i])
  {
    assert forall i | 0 < i < |ls| :: ls[i] == ls[1..][i - 1];
    assert forall i | 0 <= i < |ls[1..]| :: ls[1..][i] == ls[i + 1];
  }

  lemma {:induction false} GcLive(t: Tree)
    ensures Live(Gc(t)) <==> Live(t)
  {
    GcEntries(t, []);
    LiveFlat(t, []);
    LiveFlat(Gc(t), []);
  }

  lemma {:induction false} GcNormal(t: Tree)
    ensures Normal(Gc(t))
    decreases t, 0
  {
    GcAllNormal(t.leaves);
  }

  lemma {:induction false} GcAllNormal(ls: seq<Tree>)
    ensures forall i | 0 <= i < |GcAll(ls)| :: Live(GcAll(ls)[i]) && Normal(GcAll(ls)[i])
    decreases ls, 0
  {
    if ls == [] {
    } else {
      GcNormal(ls[0]);
      GcLive(ls[0]);
      GcKeepsLive(ls[0]);
      GcAllNormal(ls[1..]);
    }
  }

  /** A normal tree is a fixed point, so the collector is idempotent. */
  lemma {:induction false} NormalIsFixed(t: Tree)
    ensures Normal(t) <==> Gc(t) == t
    decreases t, 0
  {
    if Normal(t) {
      NormalAllFixed(t.leaves);
    } else {
      GcNormal(t);
    }
  }

  lemma {:induction false} NormalAllFixed(ls: seq<Tree>)
    requires forall i | 0 <= i < |ls| :: Live(ls[i]) && Normal(ls[i])
    ensures GcAll(ls) == ls
    decreases ls, 0
  {
    if ls == [] {
    } else {
      NormalIsFixed(ls[0]);
      GcKeepsLive(ls[0]);
      NormalAllFixed(ls[1..]);
    }
  }
}
