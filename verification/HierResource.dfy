/** The hierarchical resource as a state machine over the name tree, the queue
    of waiters and the transitory resource name, and what every run keeps. */
module HierResource {
  import opened Answers
  import opened HierTree
  import opened Records

  datatype Waiter = Waiter(conn: Conn, mode: LockMode, path: Path)

  datatype Hier = Hier(root: Tree, waitings: seq<Waiter>, name: Path)

  /** One branch, no holders, as built for the client that creates it. */
  function Init(name: Path): Hier
    requires name != []
  {
    Hier(Chain(name, []), [], name)
  }

  /** The comparison made before a connection is handed to the locker. */
  predicate SameResource(root: Tree, p: Path) {
    p != [] && p[0] == root.name
  }

  // ----- flom_resource_hier_waitings ----------------------------------------

  datatype Served = Served(root: Tree, rest: seq<Waiter>, granted: seq<Waiter>)

  /** One left-to-right pass; a granted waiter leaves the queue at once. */
  function Serve(root: Tree, queue: seq<Waiter>): Served
    decreases |queue|
  {
    if queue == [] then Served(root, [], [])
    else
      var w := queue[0];
      if CanLock(root, w.mode, w.path) then
        var s := Serve(AddLocker(root, w.path, Holder(w.mode, w.conn)), queue[1..]);
        s.(granted := [w] + s.granted)
      else
        var s := Serve(root, queue[1..]);
        s.(rest := [w] + s.rest)
  }

  // ----- flom_resource_hier_clean -------------------------------------------

  /** The node the walk along a name ends in: the deepest that exists. */
  function Target(t: Tree, p: Path): Tree
    decreases t
  {
    if |p| >= 2 && Find(t.leaves, p[1]) < |t.leaves|
    then Target(t.leaves[Find(t.leaves, p[1])], p[1..])
    else t
  }

  /** The path of that node. */
  function Reached(t: Tree, p: Path): Path
    decreases t
  {
    [t.name] +
    if |p| >= 2 && Find(t.leaves, p[1]) < |t.leaves|
    then Reached(t.leaves[Find(t.leaves, p[1])], p[1..])
    else []
  }

  /** The same tree with other holders in that node. */
  function WithHolders(t: Tree, p: Path, hs: seq<Holder>): Tree
    decreases t
  {
    if |p| >= 2 && Find(t.leaves, p[1]) < |t.leaves|
    then
      var k := Find(t.leaves, p[1]);
      t.(leaves := t.leaves[k := WithHolders(t.leaves[k], p[1..], hs)])
    else t.(holders := hs)
  }

  function HolderConn(h: Holder): Conn { h.conn }

  function WaiterConn(w: Waiter): Conn { w.conn }

  function FirstOf(hs: seq<Holder>, conn: Conn): (k: nat)
    ensures k <= |hs|
    ensures forall i | 0 <= i < k :: hs[i].conn != conn
    ensures k < |hs| ==> hs[k].conn == conn
  {
    FirstBy(hs, HolderConn, conn)
  }

  function FirstWaiting(q: seq<Waiter>, conn: Conn): (k: nat)
    ensures k <= |q|
    ensures forall i | 0 <= i < k :: q[i].conn != conn
    ensures k < |q| ==> q[k].conn == conn
  {
    FirstBy(q, WaiterConn, conn)
  }

  datatype Cleaned = Cleaned(hier: Hier, granted: seq<Waiter>)

  /** Everything but the final garbage collection. */
  function Release(s: Hier, conn: Conn): Cleaned {
    var node := Target(s.root, s.name);
    var k := FirstOf(node.holders, conn);
    if k < |node.holders| then
      var served := Serve(WithHolders(s.root, s.name, Drop(node.holders, k)), s.waitings);
      Cleaned(Hier(served.root, served.rest, s.name), served.granted)
    else
      var j := FirstWaiting(s.waitings, conn);
      Cleaned(s.(waitings := if j < |s.waitings| then Drop(s.waitings, j) else s.waitings), [])
  }

  function Clean(s: Hier, conn: Conn): Cleaned {
    var c := Release(s, conn);
    c.(hier := c.hier.(root := Gc(c.hier.root)))
  }

  // ----- flom_resource_hier_inmsg -------------------------------------------

  datatype Locked = Locked(hier: Hier, rc: Rc)

  function Lock(s: Hier, conn: Conn, path: Path, mode: LockMode, wait: bool): Locked {
    if CanLock(s.root, mode, path) then
      Locked(s.(root := AddLocker(s.root, path, Holder(mode, conn))), Ok)
    else if wait then
      Locked(s.(waitings := s.waitings + [Waiter(conn, mode, path)]), Enqueued)
    else
      Locked(s, Busy)
  }

  /** A name with another first level is refused and changes nothing. */
  function Unlock(s: Hier, conn: Conn, path: Path): Cleaned {
    if SameResource(s.root, path) then Clean(s.(name := path), conn) else Cleaned(s, [])
  }

  datatype Event =
    | LockMsg(conn: Conn, path: Path, mode: LockMode, wait: bool)
    | UnlockMsg(conn: Conn, path: Path)
    | Disconnect(conn: Conn)

  function Step(s: Hier, e: Event): Hier {
    match e
    case LockMsg(conn, path, mode, wait) => Lock(s, conn, path, mode, wait).hier
    case UnlockMsg(conn, path) => Unlock(s, conn, path).hier
    case Disconnect(conn) => Clean(s, conn).hier
  }

  function Run(s: Hier, es: seq<Event>): Hier
    decreases |es|
  {
    if es == [] then s else Run(Step(s, es[0]), es[1..])
  }

  // ----- granting only adds conflicts ---------------------------------------

  lemma CanLockAntitone(a: Tree, b: Tree, mode: LockMode, p: Path)
    requires Flat(a) <= Flat(b) && CanLock(b, mode, p)
    ensures CanLock(a, mode, p)
  {
    CanLockExact(a, mode, p);
    CanLockExact(b, mode, p);
    assert forall e | e in Flat(a) :: e in Flat(b);
  }

  lemma CanLockFlat(a: Tree, b: Tree, mode: LockMode, p: Path)
    requires Flat(a) == Flat(b)
    ensures CanLock(a, mode, p) == CanLock(b, mode, p)
  {
    CanLockExact(a, mode, p);
    CanLockExact(b, mode, p);
  }

  ghost function Grants(root: Tree, ws: seq<Waiter>): multiset<Entry> {
    if ws == [] then multiset{}
    else multiset{Entry(Placed(root, ws[0].path), ws[0].mode, ws[0].conn)} + Grants(root, ws[1..])
  }

  lemma {:induction false} GrantsSameName(a: Tree, b: Tree, ws: seq<Waiter>)
    requires a.name == b.name
    ensures Grants(a, ws) == Grants(b, ws)
  {
    if ws == [] {
    } else {
      GrantsSameName(a, b, ws[1..]);
    }
  }

  function WaiterConns(ws: seq<Waiter>): seq<Conn> {
    if ws == [] then [] else [ws[0].conn] + WaiterConns(ws[1..])
  }

  lemma {:induction false} WaiterConnsMeans(ws: seq<Waiter>, conn: Conn)
    ensures conn in WaiterConns(ws) <==> exists w :: w in multiset(ws) && w.conn == conn
  {
    if ws == [] {
    } else {
      WaiterConnsMeans(ws[1..], conn);
      assert ws == [ws[0]] + ws[1..];
    }
  }

  lemma WaiterConnsSplit(ws: seq<Waiter>, a: seq<Waiter>, b: seq<Waiter>, conn: Conn)
    requires multiset(ws) == multiset(a) + multiset(b)
    ensures conn in WaiterConns(ws) <==> conn in WaiterConns(a) || conn in WaiterConns(b)
  {
    WaiterConnsMeans(ws, conn);
    WaiterConnsMeans(a, conn);
    WaiterConnsMeans(b, conn);
  }

  lemma {:induction false} GrantsConns(root: Tree, ws: seq<Waiter>, conn: Conn)
    ensures InFlat(Grants(root, ws), conn) <==> conn in WaiterConns(ws)
  {
    if ws == [] {
    } else {
      GrantsConns(root, ws[1..], conn);
      var e := Entry(Placed(root, ws[0].path), ws[0].mode, ws[0].conn);
      assert e in Grants(root, ws);
      InFlatSum(multiset{e}, Grants(root, ws[1..]), conn);
      InFlatOne(e, conn);
    }
  }

  /** A pass adds the entries of the granted waiters and nothing else. */
  lemma {:induction false} ServeFlat(root: Tree, queue: seq<Waiter>)
    ensures Serve(root, queue).root.name == root.name
    ensures Flat(Serve(root, queue).root) == Flat(root) + Grants(root, Serve(root, queue).granted)
    decreases |queue|
  {
    if queue == [] {
    } else {
      var w := queue[0];
      if CanLock(root, w.mode, w.path) {
        var h := Holder(w.mode, w.conn);
        ServeFlat(AddLocker(root, w.path, h), queue[1..]);
        AddLockerFlat(root, w.path, h);
        var g := Serve(AddLocker(root, w.path, h), queue[1..]).granted;
        GrantsSameName(root, AddLocker(root, w.path, h), g);
        assert ([w] + g)[1..] == g;
      } else {
        ServeFlat(root, queue[1..]);
      }
    }
  }

  /** Every waiter is either served or left, each exactly once. */
  lemma {:induction false} ServePartition(root: Tree, queue: seq<Waiter>)
    ensures multiset(queue) == multiset(Serve(root, queue).rest) + multiset(Serve(root, queue).granted)
    decreases |queue|
  {
    if queue == [] {
    } else {
      var w := queue[0];
      assert queue == [w] + queue[1..];
      if CanLock(root, w.mode, w.path) {
        ServePartition(AddLocker(root, w.path, Holder(w.mode, w.conn)), queue[1..]);
      } else {
        ServePartition(root, queue[1..]);
      }
    }
  }

  /** After one pass no waiter left behind could be granted: the pass reaches
      the fixpoint. */
  lemma {:induction false} ServeFixpoint(root: Tree, queue: seq<Waiter>)
    ensures NobodyCanLock(Serve(root, queue).root, Serve(root, queue).rest)
    decreases |queue|
  {
    if queue == [] {
    } else {
      var w := queue[0];
      if CanLock(root, w.mode, w.path) {
        ServeFixpoint(AddLocker(root, w.path, Holder(w.mode, w.conn)), queue[1..]);
      } else {
        ServeFixpoint(root, queue[1..]);
        ServeFlat(root, queue[1..]);
        var s := Serve(root, queue[1..]);
        if CanLock(s.root, w.mode, w.path) {
          CanLockAntitone(root, s.root, w.mode, w.path);
        }
      }
    }
  }

  /** The last waiter is judged against the tree left by all earlier ones. */
  lemma {:induction false} ServeLast(root: Tree, queue: seq<Waiter>, w: Waiter)
    ensures Serve(root, queue + [w]) ==
            var s := Serve(root, queue);
            if CanLock(s.root, w.mode, w.path)
            then Served(AddLocker(s.root, w.path, Holder(w.mode, w.conn)), s.rest, s.granted + [w])
            else Served(s.root, s.rest + [w], s.granted)
    decreases |queue|
  {
    if queue == [] {
      assert queue + [w] == [w] && [w][1..] == [];
    } else {
      var v := queue[0];
      assert (queue + [w])[1..] == queue[1..] + [w];
      if CanLock(root, v.mode, v.path) {
        var root1 := AddLocker(root, v.path, Holder(v.mode, v.conn));
        ServeLast(root1, queue[1..], w);
        var s := Serve(root1, queue[1..]);
        assert [v] + (s.granted + [w]) == [v] + s.granted + [w];
      } else {
        ServeLast(root, queue[1..], w);
        var s := Serve(root, queue[1..]);
        assert [v] + (s.rest + [w]) == [v] + s.rest + [w];
      }
    }
  }

  // ----- no lost wakeup -----------------------------------------------------

  ghost predicate NobodyCanLock(root: Tree, queue: seq<Waiter>) {
    forall i | 0 <= i < |queue| :: !CanLock(root, queue[i].mode, queue[i].path)
  }

  /** Every waiter clashes with some holder on a related path. */
  ghost predicate EveryWaiterBlocked(s: Hier) {
    forall i | 0 <= i < |s.waitings| :: Blocked(Flat(s.root), s.waitings[i])
  }

  ghost predicate Blocked(es: multiset<Entry>, w: Waiter) {
    exists e | e in es :: Comparable(e.path, w.path) && !Compatible(e.mode, w.mode)
  }

  lemma BlockedMeans(s: Hier)
    ensures EveryWaiterBlocked(s) <==> NobodyCanLock(s.root, s.waitings)
  {
    forall i | 0 <= i < |s.waitings|
      ensures CanLock(s.root, s.waitings[i].mode, s.waitings[i].path) <==> !Blocked(Flat(s.root), s.waitings[i])
    {
      CanLockExact(s.root, s.waitings[i].mode, s.waitings[i].path);
    }
  }

  lemma StepKeepsBlocked(s: Hier, e: Event)
    requires NobodyCanLock(s.root, s.waitings)
    ensures NobodyCanLock(Step(s, e).root, Step(s, e).waitings)
  {
    match e
    case LockMsg(conn, path, mode, wait) =>
      if CanLock(s.root, mode, path) {
        var h := Holder(mode, conn);
        AddLockerFlat(s.root, path, h);
        forall i | 0 <= i < |s.waitings|
          ensures !CanLock(AddLocker(s.root, path, h), s.waitings[i].mode, s.waitings[i].path)
        {
          if CanLock(AddLocker(s.root, path, h), s.waitings[i].mode, s.waitings[i].path) {
            CanLockAntitone(s.root, AddLocker(s.root, path, h), s.waitings[i].mode, s.waitings[i].path);
          }
        }
      }
    case UnlockMsg(conn, path) =>
      if SameResource(s.root, path) { CleanKeepsBlocked(s.(name := path), conn); }
    case Disconnect(conn) =>
      CleanKeepsBlocked(s, conn);
  }

  lemma CleanKeepsBlocked(s: Hier, conn: Conn)
    requires NobodyCanLock(s.root, s.waitings)
    ensures NobodyCanLock(Clean(s, conn).hier.root, Clean(s, conn).hier.waitings)
  {
    var node := Target(s.root, s.name);
    var k := FirstOf(node.holders, conn);
    if k < |node.holders| {
      var root1 := WithHolders(s.root, s.name, Drop(node.holders, k));
      ServeFixpoint(root1, s.waitings);
      GcKeepsVerdicts(Serve(root1, s.waitings).root, Serve(root1, s.waitings).rest);
    } else {
      GcKeepsVerdicts(s.root, Clean(s, conn).hier.waitings);
    }
  }

  lemma GcKeepsVerdicts(t: Tree, queue: seq<Waiter>)
    ensures NobodyCanLock(Gc(t), queue) <==> NobodyCanLock(t, queue)
  {
    GcEntries(t, []);
    forall i | 0 <= i < |queue|
      ensures CanLock(Gc(t), queue[i].mode, queue[i].path) == CanLock(t, queue[i].mode, queue[i].path)
    {
      CanLockFlat(Gc(t), t, queue[i].mode, queue[i].path);
    }
  }

  /** No lost wakeup, over every run of messages and disconnections. */
  lemma {:induction false} RunKeepsBlocked(s: Hier, es: seq<Event>)
    requires EveryWaiterBlocked(s)
    ensures EveryWaiterBlocked(Run(s, es))
    decreases |es|
  {
    if es == [] {
    } else {
      BlockedMeans(s);
      StepKeepsBlocked(s, es[0]);
      BlockedMeans(Step(s, es[0]));
      RunKeepsBlocked(Step(s, es[0]), es[1..]);
    }
  }

  lemma NoLostWakeup(name: Path, es: seq<Event>)
    requires name != []
    ensures EveryWaiterBlocked(Run(Init(name), es))
    ensures Flat(Run(Init(name), es).root) == multiset{} ==> Run(Init(name), es).waitings == []
  {
    RunKeepsBlocked(Init(name), es);
    var s := Run(Init(name), es);
    if s.waitings != [] {
      var e :| e in Flat(s.root) && Comparable(e.path, s.waitings[0].path) && !Compatible(e.mode, s.waitings[0].mode);
    }
  }

  // ----- what a lock message means ------------------------------------------

  /** The answer is decided by the flat view alone. A grant adds one entry and
      leaves the queue; otherwise the tree stays and only a client that wants
      to wait joins the end of the queue. */
  lemma LockMeans(s: Hier, conn: Conn, path: Path, mode: LockMode, wait: bool)
    ensures var l := Lock(s, conn, path, mode, wait);
            && (l.rc == Ok <==> FlatCanLock(Flat(s.root), mode, path))
            && (l.rc == Enqueued <==> !FlatCanLock(Flat(s.root), mode, path) && wait)
            && (l.rc == Busy <==> !FlatCanLock(Flat(s.root), mode, path) && !wait)
            && Flat(l.hier.root) == Flat(s.root)
                 + (if l.rc == Ok then multiset{Entry(Placed(s.root, path), mode, conn)} else multiset{})
            && l.hier.waitings == s.waitings + (if l.rc == Enqueued then [Waiter(conn, mode, path)] else [])
            && l.hier.name == s.name
  {
    CanLockExact(s.root, mode, path);
    AddLockerFlat(s.root, path, Holder(mode, conn));
    assert s.waitings + [] == s.waitings;
  }

  // ----- what a removal does to the flat view -------------------------------

  lemma AtCons(path: Path, h: Holder, hs: seq<Holder>)
    ensures At(path, [h] + hs) == multiset{Entry(path, h.mode, h.conn)} + At(path, hs)
  {
    assert ([h] + hs)[1..] == hs;
  }

  lemma {:induction false} AtDrop(path: Path, hs: seq<Holder>, k: nat)
    requires k < |hs|
    ensures At(path, Drop(hs, k)) + multiset{Entry(path, hs[k].mode, hs[k].conn)} == At(path, hs)
  {
    if k == 0 {
      assert Drop(hs, 0) == hs[1..];
    } else {
      var rest := Drop(hs[1..], k - 1);
      AtDrop(path, hs[1..], k - 1);
      assert Drop(hs, k) == [hs[0]] + rest;
      AtCons(path, hs[0], rest);
      Move(Entry(path, hs[k].mode, hs[k].conn), multiset{Entry(path, hs[0].mode, hs[0].conn)}, At(path, rest));
    }
  }

  lemma {:induction false} WithHoldersEntries(t: Tree, p: Path, hs: seq<Holder>, up: Path)
    ensures Entries(WithHolders(t, p, hs), up) + At(up + Reached(t, p), Target(t, p).holders)
         == Entries(t, up) + At(up + Reached(t, p), hs)
    decreases t
  {
    var here := up + [t.name];
    if |p| >= 2 && Find(t.leaves, p[1]) < |t.leaves| {
      var k := Find(t.leaves, p[1]);
      var child := t.leaves[k];
      var u := WithHolders(child, p[1..], hs);
      WithHoldersEntries(child, p[1..], hs, here);
      assert up + Reached(t, p) == here + Reached(child, p[1..]);
      ForestUpdate(t.leaves, k, u, here);
      Replaced(Forest(t.leaves[k := u], here), Forest(t.leaves, here), Entries(child, here), Entries(u, here),
               At(up + Reached(t, p), Target(t, p).holders), At(up + Reached(t, p), hs));
      assert WithHolders(t, p, hs) == t.(leaves := t.leaves[k := u]);
      Shift(At(here, t.holders), Forest(t.leaves[k := u], here), Forest(t.leaves, here),
            At(up + Reached(t, p), Target(t, p).holders), At(up + Reached(t, p), hs));
    } else {
      assert up + Reached(t, p) == here;
      SwapEnds(At(here, hs), Forest(t.leaves, here), At(here, t.holders));
    }
  }

  lemma SwapEnds(a: multiset<Entry>, f: multiset<Entry>, b: multiset<Entry>)
    ensures (a + f) + b == (b + f) + a
  {
  }

  lemma Replaced(after: multiset<Entry>, before: multiset<Entry>, child: multiset<Entry>, child': multiset<Entry>,
                 lost: multiset<Entry>, won: multiset<Entry>)
    requires after + child == before + child'
    requires child' + lost == child + won
    ensures after + lost == before + won
  {
    assert (after + lost) + child == (after + child) + lost == (before + child') + lost == before + (child' + lost)
           == before + (child + won) == (before + won) + child;
    assert ((after + lost) + child) - child == after + lost;
    assert ((before + won) + child) - child == before + won;
  }

  lemma Shift(a: multiset<Entry>, x: multiset<Entry>, y: multiset<Entry>, lost: multiset<Entry>, won: multiset<Entry>)
    requires x + lost == y + won
    ensures (a + x) + lost == (a + y) + won
  {
    assert (a + x) + lost == a + (x + lost) == a + (y + won) == (a + y) + won;
  }

  lemma {:induction false} WithHoldersName(t: Tree, p: Path, hs: seq<Holder>)
    ensures WithHolders(t, p, hs).name == t.name
  {
  }

  /** The tree just after a holder was taken out, before the queue is served. */
  lemma HolderGone(s: Hier, k: nat)
    requires k < |Target(s.root, s.name).holders|
    ensures var hs := Target(s.root, s.name).holders;
            var root1 := WithHolders(s.root, s.name, Drop(hs, k));
            && Flat(root1) + multiset{Entry(Reached(s.root, s.name), hs[k].mode, hs[k].conn)} == Flat(s.root)
            && root1.name == s.root.name
  {
    var hs := Target(s.root, s.name).holders;
    var path := Reached(s.root, s.name);
    WithHoldersEntries(s.root, s.name, Drop(hs, k), []);
    AtDrop(path, hs, k);
    assert [] + path == path;
    Cancel(Flat(WithHolders(s.root, s.name, Drop(hs, k))), Flat(s.root), At(path, Drop(hs, k)),
           multiset{Entry(path, hs[k].mode, hs[k].conn)});
    WithHoldersName(s.root, s.name, Drop(hs, k));
  }

  /** A clean-up takes away at most one entry, always one of the connection's
      own, and gives entries only to the waiters it serves. */
  lemma CleanFlat(s: Hier, conn: Conn)
    ensures var node := Target(s.root, s.name);
            var k := FirstOf(node.holders, conn);
            var c := Clean(s, conn);
            if k < |node.holders|
            then Flat(c.hier.root) + multiset{Entry(Reached(s.root, s.name), node.holders[k].mode, conn)}
                 == Flat(s.root) + Grants(s.root, c.granted)
                 && multiset(s.waitings) == multiset(c.hier.waitings) + multiset(c.granted)
            else Flat(c.hier.root) == Flat(s.root) && c.granted == []
  {
    var node := Target(s.root, s.name);
    var k := FirstOf(node.holders, conn);
    GcEntries(Release(s, conn).hier.root, []);
    if k < |node.holders| {
      var gone := multiset{Entry(Reached(s.root, s.name), node.holders[k].mode, conn)};
      var root1 := WithHolders(s.root, s.name, Drop(node.holders, k));
      HolderGone(s, k);
      ServeFlat(root1, s.waitings);
      ServePartition(root1, s.waitings);
      var granted := Serve(root1, s.waitings).granted;
      GrantsSameName(s.root, root1, granted);
      assert Flat(root1) + Grants(root1, granted) + gone == (Flat(root1) + gone) + Grants(s.root, granted);
    }
  }

  lemma Cancel(after: multiset<Entry>, before: multiset<Entry>, kept: multiset<Entry>, gone: multiset<Entry>)
    requires after + (kept + gone) == before + kept
    ensures after + gone == before
  {
    assert (after + (kept + gone)) - kept == after + gone;
    assert (before + kept) - kept == before;
  }

  // ----- who leaves the queue -----------------------------------------------

  /** The connection holds a lock on the node the walk ends in. */
  ghost predicate HoldsThere(s: Hier, conn: Conn) {
    exists h :: h in Target(s.root, s.name).holders && h.conn == conn
  }

  lemma HoldsThereFirst(s: Hier, conn: Conn)
    ensures HoldsThere(s, conn) <==> FirstOf(Target(s.root, s.name).holders, conn) < |Target(s.root, s.name).holders|
  {
    var hs := Target(s.root, s.name).holders;
    var k := FirstOf(hs, conn);
    if k < |hs| { assert hs[k] in hs; }
  }

  /** A pass keeps the order of those it grants and of those it leaves. */
  lemma {:induction false} ServeKeepsOrder(root: Tree, queue: seq<Waiter>)
    ensures Subsequence(Serve(root, queue).rest, queue) && Subsequence(Serve(root, queue).granted, queue)
    decreases |queue|
  {
    if queue == [] {
    } else {
      var w := queue[0];
      var root1 := if CanLock(root, w.mode, w.path) then AddLocker(root, w.path, Holder(w.mode, w.conn)) else root;
      var s := Serve(root1, queue[1..]);
      assert [w] + queue[1..] == queue;
      ServeKeepsOrder(root1, queue[1..]);
      SubsequenceLater(s.rest, w, queue[1..]);
      SubsequenceLater(s.granted, w, queue[1..]);
    }
  }

  /** A clean-up keeps the order of the queue. If the connection has no lock
      where the walk ends, its first request leaves the queue, if it has any,
      and nothing else changes there. */
  lemma CleanQueue(s: Hier, conn: Conn)
    ensures Subsequence(Clean(s, conn).hier.waitings, s.waitings) && Subsequence(Clean(s, conn).granted, s.waitings)
    ensures !HoldsThere(s, conn) ==>
              Clean(s, conn).granted == [] && LosesFirst(s.waitings, Clean(s, conn).hier.waitings, WaiterConn, conn)
  {
    var hs := Target(s.root, s.name).holders;
    var k := FirstOf(hs, conn);
    HoldsThereFirst(s, conn);
    if k < |hs| {
      ServeKeepsOrder(WithHolders(s.root, s.name, Drop(hs, k)), s.waitings);
    } else {
      DropFirstPicks(s.waitings, WaiterConn, conn);
      SubsequenceSame(s.waitings);
    }
  }

  // ----- safety over whole runs ---------------------------------------------

  lemma SafeSmaller(a: multiset<Entry>, b: multiset<Entry>)
    requires a <= b && Safe(b)
    ensures Safe(a)
  {
    forall e, f | multiset{e, f} <= a && Comparable(e.path, f.path) ensures Compatible(e.mode, f.mode) {
      assert multiset{e, f} <= b;
    }
  }

  /** A grant decided by the check keeps the resource safe as soon as the path
      starts with the root's name. */
  lemma GrantKeepsSafe(root: Tree, p: Path, h: Holder)
    requires Safe(Flat(root)) && CanLock(root, h.mode, p)
    requires p == [] || SameResource(root, p)
    ensures Safe(Flat(AddLocker(root, p, h)))
  {
    var extra := Entry(Placed(root, p), h.mode, h.conn);
    var before := Flat(root);
    AddLockerFlat(root, p, h);
    CanLockExact(root, h.mode, p);
    forall e | e in before && Comparable(e.path, extra.path)
      ensures Compatible(e.mode, h.mode) && Compatible(h.mode, e.mode)
    {
      assert p != [] ==> extra.path == p;
      assert Comparable(e.path, p);
      CompatibleSymmetric(e.mode, h.mode);
    }
    forall e, f | multiset{e, f} <= before + multiset{extra} && Comparable(e.path, f.path)
      ensures Compatible(e.mode, f.mode)
    {
      SplitPair(before, extra, e, f);
    }
  }

  lemma SplitPair(es: multiset<Entry>, extra: Entry, e: Entry, f: Entry)
    requires multiset{e, f} <= es + multiset{extra}
    ensures multiset{e, f} <= es || (e == extra && f in es) || (f == extra && e in es)
  {
    assert e in es + multiset{extra} && f in es + multiset{extra};
    if e != extra && f != extra {
      assert multiset{e, f}[extra] == 0;
      assert multiset{e, f} <= es;
    } else if e == f {
      assert multiset{e, f}[extra] == 2;
    }
  }

  lemma {:induction false} ServeKeepsSafe(root: Tree, queue: seq<Waiter>)
    requires Safe(Flat(root))
    requires forall i | 0 <= i < |queue| :: queue[i].path == [] || SameResource(root, queue[i].path)
    ensures Safe(Flat(Serve(root, queue).root))
    decreases |queue|
  {
    if queue == [] {
    } else {
      var w := queue[0];
      if CanLock(root, w.mode, w.path) {
        var h := Holder(w.mode, w.conn);
        GrantKeepsSafe(root, w.path, h);
        ServeKeepsSafe(AddLocker(root, w.path, h), queue[1..]);
      } else {
        ServeKeepsSafe(root, queue[1..]);
      }
    }
  }

  /** Whoever waits was refused, so its path starts with the root's name. */
  lemma RefusedIsLocal(root: Tree, mode: LockMode, p: Path)
    requires !CanLock(root, mode, p)
    ensures p == [] || SameResource(root, p)
  {
  }

  ghost predicate LocalEvent(root: Tree, e: Event) {
    e.LockMsg? ==> e.path == [] || SameResource(root, e.path)
  }

  lemma StepKeepsSafe(s: Hier, e: Event)
    requires Safe(Flat(s.root)) && NobodyCanLock(s.root, s.waitings) && LocalEvent(s.root, e)
    ensures Safe(Flat(Step(s, e).root)) && Step(s, e).root.name == s.root.name
  {
    match e
    case LockMsg(conn, path, mode, wait) =>
      if CanLock(s.root, mode, path) { GrantKeepsSafe(s.root, path, Holder(mode, conn)); }
    case UnlockMsg(conn, path) =>
      if SameResource(s.root, path) { CleanKeepsSafe(s.(name := path), conn); }
    case Disconnect(conn) =>
      CleanKeepsSafe(s, conn);
  }

  lemma CleanName(s: Hier, conn: Conn)
    ensures Clean(s, conn).hier.root.name == s.root.name
  {
    var node := Target(s.root, s.name);
    var k := FirstOf(node.holders, conn);
    if k < |node.holders| {
      WithHoldersName(s.root, s.name, Drop(node.holders, k));
      ServeFlat(WithHolders(s.root, s.name, Drop(node.holders, k)), s.waitings);
    }
  }

  lemma CleanKeepsSafe(s: Hier, conn: Conn)
    requires Safe(Flat(s.root)) && NobodyCanLock(s.root, s.waitings)
    ensures Safe(Flat(Clean(s, conn).hier.root)) && Clean(s, conn).hier.root.name == s.root.name
  {
    GcEntries(Release(s, conn).hier.root, []);
    CleanName(s, conn);
    var node := Target(s.root, s.name);
    var k := FirstOf(node.holders, conn);
    if k < |node.holders| {
      var root1 := WithHolders(s.root, s.name, Drop(node.holders, k));
      HolderGone(s, k);
      SafeSmaller(Flat(root1), Flat(s.root));
      RefusedAreLocal(s.root, root1, s.waitings);
      ServeKeepsSafe(root1, s.waitings);
    }
  }

  lemma RefusedAreLocal(root: Tree, root1: Tree, queue: seq<Waiter>)
    requires NobodyCanLock(root, queue) && root1.name == root.name
    ensures forall i | 0 <= i < |queue| :: queue[i].path == [] || SameResource(root1, queue[i].path)
  {
    forall i | 0 <= i < |queue| ensures queue[i].path == [] || SameResource(root1, queue[i].path) {
      RefusedIsLocal(root, queue[i].mode, queue[i].path);
    }
  }

  ghost predicate LocalRun(r: string, es: seq<Event>) {
    forall i | 0 <= i < |es| && es[i].LockMsg? :: es[i].path == [] || es[i].path[0] == r
  }

  /** Safety, whatever the order of grants, direct or from the queue. */
  lemma {:induction false} RunKeepsSafe(s: Hier, es: seq<Event>)
    requires Safe(Flat(s.root)) && EveryWaiterBlocked(s) && LocalRun(s.root.name, es)
    ensures Safe(Flat(Run(s, es).root))
    decreases |es|
  {
    if es == [] {
    } else {
      BlockedMeans(s);
      StepKeepsSafe(s, es[0]);
      StepKeepsBlocked(s, es[0]);
      BlockedMeans(Step(s, es[0]));
      assert forall i | 0 <= i < |es[1..]| :: es[1..][i] == es[i + 1];
      RunKeepsSafe(Step(s, es[0]), es[1..]);
    }
  }

  lemma {:induction false} EmptyChain(p: Path, up: Path)
    requires p != []
    ensures Entries(Chain(p, []), up) == multiset{}
  {
    if |p| <= 1 {
    } else {
      EmptyChain(p[1..], up + [p[0]]);
      var c := Chain(p[1..], []);
      assert [c][1..] == [];
      assert Forest([c], up + [p[0]]) == Entries(c, up + [p[0]]) + Forest([], up + [p[0]]);
    }
  }

  lemma SafeRuns(name: Path, es: seq<Event>)
    requires name != [] && LocalRun(name[0], es)
    ensures Safe(Flat(Run(Init(name), es).root))
  {
    EmptyChain(name, []);
    RunKeepsSafe(Init(name), es);
  }

  /** The lock message itself is not compared with the root's name. Two
      exclusive holders on related paths: the first on the root, the second on
      any path with another first level. */
  lemma ForeignLockIsUnsafe(name: Path, p: Path)
    requires name != [] && p != [] && p[0] != name[0]
    ensures !Safe(Flat(Run(Init(name), [LockMsg(0, [name[0]], EX, true), LockMsg(1, p, EX, true)]).root))
  {
    var r := [name[0]];
    var s1 := Step(Init(name), LockMsg(0, r, EX, true));
    RootLockedFlat(name);
    AddLockerFlat(s1.root, p, Holder(EX, 1));
    RunTwo(Init(name), LockMsg(0, r, EX, true), LockMsg(1, p, EX, true));
    var a, b := Entry(r, EX, 0), Entry(r + p, EX, 1);
    assert multiset{a, b} <= Flat(Step(s1, LockMsg(1, p, EX, true)).root);
    assert Comparable(a.path, b.path);
  }

  lemma RootLockedFlat(name: Path)
    requires name != []
    ensures var s1 := Step(Init(name), LockMsg(0, [name[0]], EX, true));
            s1.root.name == name[0] && Flat(s1.root) == multiset{Entry([name[0]], EX, 0)}
  {
    var r := [name[0]];
    var s0 := Init(name);
    EmptyChain(name, []);
    CanLockExact(s0.root, EX, r);
    AddLockerFlat(s0.root, r, Holder(EX, 0));
  }

  lemma RunTwo(s: Hier, a: Event, b: Event)
    ensures Run(s, [a]) == Step(s, a)
    ensures Run(s, [a, b]) == Step(Step(s, a), b)
  {
    assert [a, b][1..] == [b];
    RunOne(s, a);
    RunOne(Step(s, a), b);
  }

  lemma RunOne(s: Hier, a: Event)
    ensures Run(s, [a]) == Step(s, a)
  {
    assert [a][1..] == [];
    assert Run(Step(s, a), []) == Step(s, a);
  }

  /** A lock message on path `p` is safe after every earlier history exactly
      when the path is empty or starts with the root's name. */
  lemma LockSafeIffLocal(name: Path, p: Path)
    requires name != []
    ensures (forall es: seq<Event>, conn, mode, wait | LocalRun(name[0], es) ::
               Safe(Flat(Step(Run(Init(name), es), LockMsg(conn, p, mode, wait)).root)))
            <==> p == [] || p[0] == name[0]
  {
    if p == [] || p[0] == name[0] {
      forall es: seq<Event>, conn, mode, wait | LocalRun(name[0], es)
        ensures Safe(Flat(Step(Run(Init(name), es), LockMsg(conn, p, mode, wait)).root))
      {
        SafeRuns(name, es);
        NoLostWakeup(name, es);
        BlockedMeans(Run(Init(name), es));
        RunName(Init(name), es);
        StepKeepsSafe(Run(Init(name), es), LockMsg(conn, p, mode, wait));
      }
    } else {
      var e1 := LockMsg(0, [name[0]], EX, true);
      var es := [e1];
      ForeignLockIsUnsafe(name, p);
      RunTwo(Init(name), e1, LockMsg(1, p, EX, true));
      assert !Safe(Flat(Step(Run(Init(name), es), LockMsg(1, p, EX, true)).root));
    }
  }

  lemma {:induction false} RunName(s: Hier, es: seq<Event>)
    ensures Run(s, es).root.name == s.root.name
    decreases |es|
  {
    if es == [] {
    } else {
      StepName(s, es[0]);
      RunName(Step(s, es[0]), es[1..]);
    }
  }

  lemma StepName(s: Hier, e: Event)
    ensures Step(s, e).root.name == s.root.name
  {
    match e
    case LockMsg(_, _, _, _) =>
    case UnlockMsg(conn, path) => CleanName(s.(name := path), conn);
    case Disconnect(conn) => CleanName(s, conn);
  }

  // ----- safety of any run --------------------------------------------------

  /** One entry more keeps a safe set of entries safe exactly when the flat
      check would have let it in where it now is. */
  lemma SafeInsertExactly(es: multiset<Entry>, extra: Entry)
    requires Safe(es)
    ensures Safe(es + multiset{extra}) <==> FlatCanLock(es, extra.mode, extra.path)
  {
    if FlatCanLock(es, extra.mode, extra.path) {
      forall e, f | multiset{e, f} <= es + multiset{extra} && Comparable(e.path, f.path)
        ensures Compatible(e.mode, f.mode)
      {
        SplitPair(es, extra, e, f);
        CompatibleSymmetric(e.mode, f.mode);
      }
    } else {
      var e :| e in es && Comparable(e.path, extra.path) && !Compatible(e.mode, extra.mode);
      assert multiset{e, extra} <= es + multiset{extra};
    }
  }

  /** A lock message of another first level is granted at once; it clashes when
      a holder is incompatible on a path related to the one where it ends up. */
  ghost predicate Clashes(s: Hier, e: Event) {
    && e.LockMsg? && e.path != [] && !SameResource(s.root, e.path)
    && !FlatCanLock(Flat(s.root), e.mode, Placed(s.root, e.path))
  }

  lemma StepSafeExactly(s: Hier, e: Event)
    requires Safe(Flat(s.root)) && NobodyCanLock(s.root, s.waitings)
    ensures Safe(Flat(Step(s, e).root)) <==> !Clashes(s, e)
  {
    if LocalEvent(s.root, e) {
      StepKeepsSafe(s, e);
    } else {
      AddLockerFlat(s.root, e.path, Holder(e.mode, e.conn));
      SafeInsertExactly(Flat(s.root), Entry(Placed(s.root, e.path), e.mode, e.conn));
    }
  }

  ghost predicate NeverClashes(s: Hier, es: seq<Event>)
    decreases |es|
  {
    es == [] || (!Clashes(s, es[0]) && NeverClashes(Step(s, es[0]), es[1..]))
  }

  /** Safe after every message. */
  ghost predicate StaysSafe(s: Hier, es: seq<Event>)
    decreases |es|
  {
    Safe(Flat(s.root)) && (es == [] || StaysSafe(Step(s, es[0]), es[1..]))
  }

  lemma {:induction false} RunSafeExactly(s: Hier, es: seq<Event>)
    requires Safe(Flat(s.root)) && NobodyCanLock(s.root, s.waitings)
    ensures StaysSafe(s, es) <==> NeverClashes(s, es)
    decreases |es|
  {
    if es == [] {
    } else {
      StepSafeExactly(s, es[0]);
      StepKeepsBlocked(s, es[0]);
      if !Clashes(s, es[0]) {
        RunSafeExactly(Step(s, es[0]), es[1..]);
      } else {
        assert !StaysSafe(Step(s, es[0]), es[1..]);
      }
    }
  }

  /** Of all runs from creation on, local or not, those that stay safe are
      exactly those without a clashing foreign lock. */
  lemma AllRunsSafeExactly(name: Path, es: seq<Event>)
    requires name != []
    ensures StaysSafe(Init(name), es) <==> NeverClashes(Init(name), es)
  {
    EmptyChain(name, []);
    RunSafeExactly(Init(name), es);
  }
}
