/** The life of a lock on a hierarchical resource: the tree stays collected,
    sibling names stay distinct, and unlocking undoes locking. */
module HierLifecycle {
  import opened Answers
  import opened HierTree
  import opened HierResource
  import opened Records

  // ----- the tree stays collected -------------------------------------------

  /** Collected everywhere, except perhaps along the branch named `p`. */
  ghost predicate NormalBut(t: Tree, p: Path)
    decreases t
  {
    forall i | 0 <= i < |t.leaves| ::
      || (Live(t.leaves[i]) && Normal(t.leaves[i]))
      || (|p| >= 2 && i == Find(t.leaves, p[1]) && NormalBut(t.leaves[i], p[1..]))
  }

  lemma {:induction false} EmptyChainNormalBut(p: Path)
    requires p != []
    ensures NormalBut(Chain(p, []), p)
  {
    if |p| <= 1 {
    } else {
      EmptyChainNormalBut(p[1..]);
    }
  }

  lemma {:induction false} ChainNormal(p: Path, h: Holder)
    requires p != []
    ensures Live(Chain(p, [h])) && Normal(Chain(p, [h]))
  {
    if |p| <= 1 {
    } else {
      ChainNormal(p[1..], h);
      assert Live(Chain(p, [h]).leaves[0]);
    }
  }

  lemma {:induction false} AddNormal(t: Tree, p: Path, h: Holder)
    requires NormalBut(t, p)
    ensures Normal(Add(t, p, h)) && Live(Add(t, p, h))
    decreases t
  {
    if |p| <= 1 {
    } else {
      var k := Find(t.leaves, p[1]);
      if k < |t.leaves| {
        if Live(t.leaves[k]) && Normal(t.leaves[k]) {
          assert NormalBut(t.leaves[k], p[1..]);
        }
        AddNormal(t.leaves[k], p[1..], h);
        assert Live(Add(t, p, h).leaves[k]);
      } else {
        ChainNormal(p[1..], h);
        assert Live(Add(t, p, h).leaves[k]);
      }
    }
  }

  lemma StepKeepsNormal(s: Hier, e: Event)
    requires Normal(s.root)
    ensures Normal(Step(s, e).root)
  {
    match e
    case LockMsg(conn, path, mode, wait) =>
      if CanLock(s.root, mode, path) {
        if path == [] || SameResource(s.root, path) {
          AddNormal(s.root, path, Holder(mode, conn));
        } else {
          ChainNormal(path, Holder(mode, conn));
        }
      }
    case UnlockMsg(conn, path) =>
      if SameResource(s.root, path) { CleanNormal(s.(name := path), conn); }
    case Disconnect(conn) =>
      CleanNormal(s, conn);
  }

  lemma CleanNormal(s: Hier, conn: Conn)
    ensures Normal(Clean(s, conn).hier.root)
  {
    GcNormal(Release(s, conn).hier.root);
  }

  lemma {:induction false} RunKeepsNormal(s: Hier, es: seq<Event>)
    requires Normal(s.root)
    ensures Normal(Run(s, es).root)
    decreases |es|
  {
    if es == [] {
    } else {
      StepKeepsNormal(s, es[0]);
      RunKeepsNormal(Step(s, es[0]), es[1..]);
    }
  }

  /** A new resource is the one branch its name spells, with nothing held. */
  lemma NewIsBareBranch(name: Path)
    requires name != []
    ensures Reached(Init(name).root, name) == name && Flat(Init(name).root) == multiset{}
    ensures Init(name).waitings == [] && Init(name).name == name
  {
    EmptyChain(name, []);
    ChainReached(name);
  }

  lemma {:induction false} ChainReached(p: Path)
    requires p != []
    ensures Reached(Chain(p, []), p) == p
  {
    if |p| > 1 {
      ChainReached(p[1..]);
      assert [p[0]] + p[1..] == p;
    }
  }

  /** The creating client is granted at once, and from then on the tree holds
      no branch without a holder, whatever follows. */
  lemma CollectedAfterCreation(name: Path, conn: Conn, mode: LockMode, wait: bool, es: seq<Event>)
    requires name != []
    ensures Lock(Init(name), conn, name, mode, wait).rc == Ok
    ensures Normal(Run(Init(name), [LockMsg(conn, name, mode, wait)] + es).root)
  {
    var first := LockMsg(conn, name, mode, wait);
    EmptyChain(name, []);
    CanLockExact(Init(name).root, mode, name);
    EmptyChainNormalBut(name);
    AddNormal(Init(name).root, name, Holder(mode, conn));
    assert ([first] + es)[1..] == es;
    RunKeepsNormal(Step(Init(name), first), es);
  }

  // ----- lock then unlock ---------------------------------------------------

  lemma {:induction false} FindUnchanged(ls: seq<Tree>, k: nat, u: Tree, name: string)
    requires k < |ls| && u.name == ls[k].name
    ensures Find(ls[k := u], name) == Find(ls, name)
  {
    if k > 0 {
      assert ls[k := u][1..] == ls[1..][k - 1 := u];
      FindUnchanged(ls[1..], k - 1, u, name);
    } else {
      assert ls[k := u][1..] == ls[1..];
    }
  }

  lemma {:induction false} FindAppended(ls: seq<Tree>, u: Tree)
    requires Find(ls, u.name) == |ls|
    ensures Find(ls + [u], u.name) == |ls|
  {
    if ls == [] {
    } else {
      assert (ls + [u])[1..] == ls[1..] + [u];
      FindAppended(ls[1..], u);
    }
  }

  lemma {:induction false} GcAllUpdate(ls: seq<Tree>, k: nat, w: Tree)
    requires k < |ls| && Gc(w) == ls[k]
    requires forall i | 0 <= i < |ls| :: Live(ls[i]) && Normal(ls[i])
    ensures GcAll(ls[k := w]) == ls
  {
    var us := ls[k := w];
    if k == 0 {
      assert us[1..] == ls[1..];
      NormalAllFixed(ls[1..]);
      GcKeepsLive(ls[0]);
      NormalIsFixed(ls[0]);
    } else {
      assert us[1..] == ls[1..][k - 1 := w] && us[0] == ls[0];
      GcAllUpdate(ls[1..], k - 1, w);
      NormalIsFixed(ls[0]);
      GcKeepsLive(ls[0]);
    }
  }

  lemma {:induction false} GcEmptyChain(p: Path)
    requires p != []
    ensures Gc(Chain(p, [])).leaves == [] && Gc(Chain(p, [])).holders == []
  {
    if |p| <= 1 {
    } else {
      GcEmptyChain(p[1..]);
      var c := Chain(p[1..], []);
      assert [c][1..] == [] && GcAll([]) == [];
      assert GcAll([c]) == [];
    }
  }

  lemma {:induction false} GcAllAppended(ls: seq<Tree>, p: Path)
    requires p != []
    requires forall i | 0 <= i < |ls| :: Live(ls[i]) && Normal(ls[i])
    ensures GcAll(ls + [Chain(p, [])]) == ls
  {
    var us := ls + [Chain(p, [])];
    if ls == [] {
      GcEmptyChain(p);
      assert us[1..] == [];
    } else {
      assert us[1..] == ls[1..] + [Chain(p, [])] && us[0] == ls[0];
      GcAllAppended(ls[1..], p);
      NormalIsFixed(ls[0]);
      GcKeepsLive(ls[0]);
    }
  }

  lemma {:induction false} ChainTarget(p: Path, hs: seq<Holder>, hs': seq<Holder>)
    requires p != []
    ensures Target(Chain(p, hs), p).holders == hs
    ensures WithHolders(Chain(p, hs), p, hs') == Chain(p, hs')
  {
    if |p| <= 1 {
    } else {
      var c := Chain(p[1..], hs);
      ChainTarget(p[1..], hs, hs');
      assert Find([c], p[1]) == 0;
      assert [c][0 := Chain(p[1..], hs')] == [Chain(p[1..], hs')];
    }
  }

  /** Taking back the holder just inserted and collecting gives the old tree. */
  lemma {:induction false} AddThenDrop(t: Tree, p: Path, h: Holder)
    requires p != [] && p[0] == t.name && Normal(t)
    ensures var hs := Target(Add(t, p, h), p).holders;
            && hs != [] && hs[0] == h
            && Gc(WithHolders(Add(t, p, h), p, Drop(hs, 0))) == t
    decreases t
  {
    if |p| == 1 {
      assert Drop([h] + t.holders, 0) == t.holders;
      NormalIsFixed(t);
    } else {
      var k := Find(t.leaves, p[1]);
      if k < |t.leaves| {
        var u := Add(t.leaves[k], p[1..], h);
        AddThenDrop(t.leaves[k], p[1..], h);
        FindUnchanged(t.leaves, k, u, p[1]);
        var w := WithHolders(u, p[1..], Drop(Target(u, p[1..]).holders, 0));
        assert t.leaves[k := u][k := w] == t.leaves[k := w];
        GcAllUpdate(t.leaves, k, w);
      } else {
        var u := Chain(p[1..], [h]);
        FindAppended(t.leaves, u);
        ChainTarget(p[1..], [h], []);
        assert Drop([h], 0) == [];
        assert (t.leaves + [u])[k := Chain(p[1..], [])] == t.leaves + [Chain(p[1..], [])];
        GcAllAppended(t.leaves, p[1..]);
      }
    }
  }

  /** Lock, then unlock: the identical tree comes back. */
  lemma LockUnlockRoundTrip(s: Hier, conn: Conn, path: Path, mode: LockMode, wait: bool)
    requires Normal(s.root) && s.waitings == [] && SameResource(s.root, path)
    requires CanLock(s.root, mode, path)
    ensures Unlock(Lock(s, conn, path, mode, wait).hier, conn, path) == Cleaned(s.(name := path), [])
  {
    AddThenDrop(s.root, path, Holder(mode, conn));
    var root1 := AddLocker(s.root, path, Holder(mode, conn));
    var hs := Target(root1, path).holders;
    assert FirstOf(hs, conn) == 0;
    assert Serve(WithHolders(root1, path, Drop(hs, 0)), []).granted == [];
  }

  // ----- distinct names over runs -------------------------------------------

  lemma {:induction false} GcDistinct(t: Tree)
    requires Distinct(t)
    ensures Distinct(Gc(t))
    decreases t, 0
  {
    GcAllDistinct(t.leaves);
  }

  lemma {:induction false} GcAllDistinct(ls: seq<Tree>)
    requires DistinctNames(ls) && forall i | 0 <= i < |ls| :: Distinct(ls[i])
    ensures DistinctNames(GcAll(ls)) && forall i | 0 <= i < |GcAll(ls)| :: Distinct(GcAll(ls)[i])
    decreases ls, 0
  {
    if ls == [] {
    } else {
      GcDistinct(ls[0]);
      GcAllDistinct(ls[1..]);
      GcAllNames(ls[1..]);
      NameNotAmong(ls);
      assert Gc(ls[0]).name == ls[0].name;
    }
  }

  ghost predicate Among(name: string, ls: seq<Tree>) {
    exists i | 0 <= i < |ls| :: ls[i].name == name
  }

  lemma NameNotAmong(ls: seq<Tree>)
    requires ls != [] && DistinctNames(ls)
    ensures !Among(ls[0].name, ls[1..])
  {
    forall i | 0 <= i < |ls[1..]| ensures ls[1..][i].name != ls[0].name {
      assert ls[1..][i] == ls[i + 1];
    }
  }

  /** Collection brings no new names. */
  lemma {:induction false} GcAllNames(ls: seq<Tree>)
    ensures forall i | 0 <= i < |GcAll(ls)| :: Among(GcAll(ls)[i].name, ls)
    decreases ls, 0
  {
    if ls == [] {
    } else {
      GcAllNames(ls[1..]);
      assert Among(ls[0].name, ls);
      forall name | Among(name, ls[1..]) ensures Among(name, ls) {
        var i :| 0 <= i < |ls[1..]| && ls[1..][i].name == name;
        assert ls[i + 1].name == name;
      }
      assert Gc(ls[0]).name == ls[0].name;
    }
  }

  lemma {:induction false} WithHoldersDistinct(t: Tree, p: Path, hs: seq<Holder>)
    requires Distinct(t)
    ensures Distinct(WithHolders(t, p, hs)) && WithHolders(t, p, hs).name == t.name
    decreases t
  {
    if |p| >= 2 && Find(t.leaves, p[1]) < |t.leaves| {
      WithHoldersDistinct(t.leaves[Find(t.leaves, p[1])], p[1..], hs);
    }
  }

  lemma {:induction false} ServeDistinct(root: Tree, queue: seq<Waiter>)
    requires Distinct(root)
    requires forall i | 0 <= i < |queue| :: queue[i].path == [] || SameResource(root, queue[i].path)
    ensures Distinct(Serve(root, queue).root)
    decreases |queue|
  {
    if queue == [] {
    } else {
      var w := queue[0];
      if CanLock(root, w.mode, w.path) {
        AddDistinct(root, w.path, Holder(w.mode, w.conn));
        ServeDistinct(AddLocker(root, w.path, Holder(w.mode, w.conn)), queue[1..]);
      } else {
        ServeDistinct(root, queue[1..]);
      }
    }
  }

  lemma CleanDistinct(s: Hier, conn: Conn)
    requires Distinct(s.root) && NobodyCanLock(s.root, s.waitings)
    ensures Distinct(Clean(s, conn).hier.root)
  {
    var node := Target(s.root, s.name);
    var k := FirstOf(node.holders, conn);
    if k < |node.holders| {
      var root1 := WithHolders(s.root, s.name, Drop(node.holders, k));
      WithHoldersDistinct(s.root, s.name, Drop(node.holders, k));
      RefusedAreLocal(s.root, root1, s.waitings);
      ServeDistinct(root1, s.waitings);
    }
    GcDistinct(Release(s, conn).hier.root);
  }

  lemma StepKeepsDistinct(s: Hier, e: Event)
    requires Distinct(s.root) && NobodyCanLock(s.root, s.waitings) && LocalEvent(s.root, e)
    ensures Distinct(Step(s, e).root)
  {
    match e
    case LockMsg(conn, path, mode, wait) =>
      AddDistinct(s.root, path, Holder(mode, conn));
    case UnlockMsg(conn, path) =>
      if SameResource(s.root, path) { CleanDistinct(s.(name := path), conn); }
    case Disconnect(conn) =>
      CleanDistinct(s, conn);
  }

  lemma {:induction false} RunKeepsDistinct(s: Hier, es: seq<Event>)
    requires Distinct(s.root) && NobodyCanLock(s.root, s.waitings) && LocalRun(s.root.name, es)
    ensures Distinct(Run(s, es).root)
    decreases |es|
  {
    if es == [] {
    } else {
      StepKeepsDistinct(s, es[0]);
      StepKeepsBlocked(s, es[0]);
      StepName(s, es[0]);
      assert forall i | 0 <= i < |es[1..]| :: es[1..][i] == es[i + 1];
      RunKeepsDistinct(Step(s, es[0]), es[1..]);
    }
  }

  // ----- unlocking releases the lock ----------------------------------------

  lemma {:induction false} ForestMember(ls: seq<Tree>, up: Path, e: Entry) returns (i: nat)
    requires e in Forest(ls, up)
    ensures i < |ls| && e in Entries(ls[i], up)
  {
    if e in Entries(ls[0], up) {
      i := 0;
    } else {
      var j := ForestMember(ls[1..], up, e);
      i := j + 1;
    }
  }

  /** The walk along the path of a lock ends in the node that holds it. */
  lemma {:induction false} WalkFindsLock(t: Tree, p: Path, up: Path, e: Entry)
    requires Distinct(t) && e in Entries(t, up) && e.path == up + p
    ensures Reached(t, p) == p && Holder(e.mode, e.conn) in Target(t, p).holders
    decreases t
  {
    var here := up + [t.name];
    EntriesExtend(t, up, e);
    assert |p| >= 1 && p[0] == (up + p)[|up|] == here[|up|] == t.name;
    AtEntries(here, t.holders, e);
    if e in Forest(t.leaves, here) {
      var i := ForestMember(t.leaves, here, e);
      EntriesExtend(t.leaves[i], here, e);
      assert |p| >= 2 && p[1] == (up + p)[|up| + 1] == (here + [t.leaves[i].name])[|up| + 1] == t.leaves[i].name;
      assert here + p[1..] == up + p;
      var k := Find(t.leaves, p[1]);
      assert k == i;
      WalkFindsLock(t.leaves[i], p[1..], here, e);
    } else {
      assert |up + p| == |here|;
    }
  }

  lemma {:induction false} TargetOfReached(t: Tree, p: Path)
    ensures Target(t, Reached(t, p)) == Target(t, p)
    decreases t
  {
    if |p| >= 2 && Find(t.leaves, p[1]) < |t.leaves| {
      var k := Find(t.leaves, p[1]);
      TargetOfReached(t.leaves[k], p[1..]);
      assert Reached(t, p)[1..] == Reached(t.leaves[k], p[1..]) && Reached(t, p)[1] == t.leaves[k].name == p[1];
    }
  }

  /** A lock on the reached path is found there. */
  lemma HeldAtReached(s: Hier, e: Entry)
    requires Distinct(s.root) && e in Flat(s.root) && e.path == Reached(s.root, s.name)
    ensures FirstOf(Target(s.root, s.name).holders, e.conn) < |Target(s.root, s.name).holders|
  {
    assert [] + e.path == e.path;
    WalkFindsLock(s.root, e.path, [], e);
    TargetOfReached(s.root, s.name);
    assert Holder(e.mode, e.conn) in Target(s.root, s.name).holders;
  }

  /** An unlock of a path the connection holds takes away one lock of that
      connection on that path, and nothing else, before serving the queue. */
  lemma UnlockReleases(s: Hier, conn: Conn, path: Path, mode: LockMode) returns (released: LockMode)
    requires Distinct(s.root) && Entry(path, mode, conn) in Flat(s.root)
    ensures var c := Unlock(s, conn, path);
            Flat(c.hier.root) + multiset{Entry(path, released, conn)} == Flat(s.root) + Grants(s.root, c.granted)
  {
    var e := Entry(path, mode, conn);
    assert [] + path == path;
    WalkFindsLock(s.root, path, [], e);
    var hs := Target(s.root, path).holders;
    var k := FirstOf(hs, conn);
    HeldAtReached(s.(name := path), e);
    released := hs[k].mode;
    EntriesExtend(s.root, [], e);
    assert path[0] == s.root.name;
    CleanFlat(s.(name := path), conn);
  }

  /** The connection has one lock, and it is on this path. */
  ghost predicate OneLockAt(es: multiset<Entry>, conn: Conn, path: Path) {
    exists e | e in es :: e.conn == conn && e.path == path && OnlyOne(es, e)
  }

  ghost predicate OnlyOne(es: multiset<Entry>, e: Entry) {
    es[e] == 1 && forall f | f in es && f.conn == e.conn :: f == e
  }

  /** Whom the queue pass serves once the connection's lock on the reached
      element is gone. */
  function ServedWithout(s: Hier, conn: Conn): seq<Waiter> {
    var hs := Target(s.root, s.name).holders;
    var k := FirstOf(hs, conn);
    if k < |hs| then Serve(WithHolders(s.root, s.name, Drop(hs, k)), s.waitings).granted else []
  }

  /** After a client went away it has no lock left exactly when it had none, or
      when it had one, on the deepest element that exists along the resource
      name, and no request of its own in the queue is served by the pass. */
  lemma DisconnectReleasesAllExactly(s: Hier, conn: Conn)
    requires Distinct(s.root)
    ensures !InFlat(Flat(Clean(s, conn).hier.root), conn) <==>
            !InFlat(Flat(s.root), conn)
            || (OneLockAt(Flat(s.root), conn, Reached(s.root, s.name))
                && conn !in WaiterConns(ServedWithout(s, conn)))
  {
    var hs := Target(s.root, s.name).holders;
    var k := FirstOf(hs, conn);
    var c := Clean(s, conn);
    CleanFlat(s, conn);
    assert [] + Reached(s.root, s.name) == Reached(s.root, s.name);
    if k < |hs| {
      var gone := Entry(Reached(s.root, s.name), hs[k].mode, conn);
      TargetEntry(s.root, s.name, [], hs[k]);
      assert gone in Flat(s.root);
      GrantsConns(s.root, c.granted, conn);
      OneGone(Flat(c.hier.root), Flat(s.root), Grants(s.root, c.granted), gone);
    } else if OneLockAt(Flat(s.root), conn, Reached(s.root, s.name)) {
      var e :| e in Flat(s.root) && e.conn == conn && e.path == Reached(s.root, s.name);
      HeldAtReached(s, e);
      assert false;
    }
  }

  /** One entry of a connection goes: none is left exactly when it was the only
      one and none comes. */
  lemma OneGone(after: multiset<Entry>, before: multiset<Entry>, granted: multiset<Entry>, gone: Entry)
    requires after + multiset{gone} == before + granted && gone in before
    ensures !InFlat(after, gone.conn) <==> OneLockAt(before, gone.conn, gone.path) && !InFlat(granted, gone.conn)
  {
    forall f: Entry ensures after[f] + (if f == gone then 1 else 0) == before[f] + granted[f] {
      assert (after + multiset{gone})[f] == (before + granted)[f];
    }
    if OnlyOne(before, gone) {
      assert OneLockAt(before, gone.conn, gone.path);
    } else if before[gone] == 1 {
      var f :| f in before && f.conn == gone.conn && f != gone;
      assert f in after;
    } else {
      assert gone in after;
    }
  }

  /** The connection has this one lock and waits for no other. */
  ghost predicate OnlyLock(s: Hier, e: Entry) {
    OnlyOne(Flat(s.root), e) && e in Flat(s.root) && e.conn !in WaiterConns(s.waitings)
  }

  /** Nobody is served who was not waiting. */
  lemma ServedWereWaiting(s: Hier, conn: Conn)
    ensures conn in WaiterConns(ServedWithout(s, conn)) ==> conn in WaiterConns(s.waitings)
  {
    var hs := Target(s.root, s.name).holders;
    var k := FirstOf(hs, conn);
    if k < |hs| {
      var root1 := WithHolders(s.root, s.name, Drop(hs, k));
      ServePartition(root1, s.waitings);
      WaiterConnsSplit(s.waitings, Serve(root1, s.waitings).rest, Serve(root1, s.waitings).granted, conn);
    }
  }

  /** A client that waits for nothing, with any number of locks, loses them all
      exactly when it has none, or one on the deepest element that exists along
      the resource name: all of it known before it goes away. */
  lemma DisconnectReleasesIdleExactly(s: Hier, conn: Conn)
    requires Distinct(s.root) && conn !in WaiterConns(s.waitings)
    ensures !InFlat(Flat(Clean(s, conn).hier.root), conn) <==>
            !InFlat(Flat(s.root), conn) || OneLockAt(Flat(s.root), conn, Reached(s.root, s.name))
  {
    DisconnectReleasesAllExactly(s, conn);
    ServedWereWaiting(s, conn);
  }

  /** The lock of a client that has just this one is released exactly when the
      deepest element that exists along the resource name is the locked one. */
  lemma DisconnectReleasesExactly(s: Hier, e: Entry)
    requires Distinct(s.root) && OnlyLock(s, e)
    ensures !InFlat(Flat(Clean(s, e.conn).hier.root), e.conn) <==> Reached(s.root, s.name) == e.path
  {
    DisconnectReleasesIdleExactly(s, e.conn);
  }

  /** A disconnection looks only where the resource name points to: of two
      clients on unrelated branches, the second goes away and its lock stays. */
  lemma DisconnectCanLeak(p: Path, q: Path)
    requires p != [] && q != [] && p[0] == q[0] && !Comparable(p, q)
    ensures Entry(q, EX, 1) in
            Flat(Run(Init(p), [LockMsg(0, p, EX, true), LockMsg(1, q, EX, true), Disconnect(1)]).root)
  {
    var e0, e1 := LockMsg(0, p, EX, true), LockMsg(1, q, EX, true);
    var s1 := Step(Init(p), e0);
    TwoLocks(p, q);
    LeakTarget(Step(s1, e1), p, q);
    assert [e0, e1, Disconnect(1)][1..] == [e1, Disconnect(1)];
    RunTwo(s1, e1, Disconnect(1));
  }

  lemma TwoLocks(p: Path, q: Path)
    requires p != [] && q != [] && p[0] == q[0] && !Comparable(p, q)
    ensures var s2 := Step(Step(Init(p), LockMsg(0, p, EX, true)), LockMsg(1, q, EX, true));
            Flat(s2.root) == multiset{Entry(p, EX, 0), Entry(q, EX, 1)} && s2.name == p && s2.root.name == p[0]
  {
    EmptyChain(p, []);
    CanLockExact(Init(p).root, EX, p);
    AddLockerFlat(Init(p).root, p, Holder(EX, 0));
    var s1 := Step(Init(p), LockMsg(0, p, EX, true));
    assert Flat(s1.root) == multiset{Entry(p, EX, 0)};
    CanLockExact(s1.root, EX, q);
    AddLockerFlat(s1.root, q, Holder(EX, 1));
  }

  lemma LeakTarget(s: Hier, p: Path, q: Path)
    requires p != [] && !Comparable(p, q) && s.name == p && s.root.name == p[0]
    requires Flat(s.root) == multiset{Entry(p, EX, 0), Entry(q, EX, 1)}
    ensures Entry(q, EX, 1) in Flat(Clean(s, 1).hier.root)
  {
    var hs := Target(s.root, p).holders;
    forall h | h in hs ensures h.conn == 0 {
      var r := Reached(s.root, p);
      TargetEntry(s.root, p, [], h);
      assert [] + r == r;
      ReachedOnTheWay(s.root, p);
      assert Entry(r, h.mode, h.conn) in [Entry(p, EX, 0), Entry(q, EX, 1)] && r != q;
    }
    CleanFlat(s, 1);
  }

  lemma ReachedOnTheWay(t: Tree, p: Path)
    requires p != [] && t.name == p[0]
    ensures Reached(t, p) <= p
  {
    ReachedPrefix(t, p);
    assert Reached(t, p) == [p[0]] + Reached(t, p)[1..] && p == [p[0]] + p[1..];
  }

  lemma {:induction false} TargetEntry(t: Tree, p: Path, up: Path, h: Holder)
    requires h in Target(t, p).holders
    ensures Entry(up + Reached(t, p), h.mode, h.conn) in Entries(t, up)
    decreases t
  {
    var here := up + [t.name];
    if |p| >= 2 && Find(t.leaves, p[1]) < |t.leaves| {
      var k := Find(t.leaves, p[1]);
      TargetEntry(t.leaves[k], p[1..], here, h);
      assert here + Reached(t.leaves[k], p[1..]) == up + Reached(t, p);
      ForestHas(t.leaves, k, here, Entry(up + Reached(t, p), h.mode, h.conn));
    } else {
      AtEntries(here, t.holders, Entry(here, h.mode, h.conn));
      assert up + Reached(t, p) == here;
    }
  }

  lemma {:induction false} ForestHas(ls: seq<Tree>, k: nat, up: Path, e: Entry)
    requires k < |ls| && e in Entries(ls[k], up)
    ensures e in Forest(ls, up)
  {
    if k > 0 {
      ForestHas(ls[1..], k - 1, up, e);
    }
  }

  lemma {:induction false} ReachedPrefix(t: Tree, p: Path)
    requires p != []
    ensures Reached(t, p)[0] == t.name
    ensures |Reached(t, p)| <= |p| && Reached(t, p)[1..] <= p[1..]
    decreases t
  {
    if |p| >= 2 && Find(t.leaves, p[1]) < |t.leaves| {
      var k := Find(t.leaves, p[1]);
      ReachedPrefix(t.leaves[k], p[1..]);
      var r := Reached(t.leaves[k], p[1..]);
      assert Reached(t, p)[1..] == r;
      assert r[0] == p[1];
      assert r == [r[0]] + r[1..] && p[1..] == [p[1]] + p[1..][1..];
    }
  }
}
