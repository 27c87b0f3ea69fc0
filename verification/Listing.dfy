/** What a resource of any of the three kinds lists about a connection, and
    that messages of other connections neither drop nor invent it. */
module Listing {
  import opened Answers
  import opened Records
  import opened Words
  import H = HierResource
  import T = HierTree
  import N = NumericPool
  import Q = SequenceValues

  datatype Resource = Hier(hier: H.Hier) | Numeric(pool: N.Pool) | Sequence(sequence: Q.Sequence)

  /** The parts of a lock request that the resources look at. */
  datatype Wish = Wish(path: T.Path, mode: T.LockMode, quantity: int32, wait: bool)

  datatype Event = HierEvent(h: H.Event) | NumericEvent(n: N.Event) | SequenceEvent(q: Q.Event)

  function Sender(e: Event): Conn {
    match e
    case HierEvent(h) => h.conn
    case NumericEvent(n) => n.conn
    case SequenceEvent(q) => q.conn
  }

  // ----- the three resources as one -----------------------------------------

  datatype Effect = Effect(resource: Resource, granted: seq<Conn>)

  datatype Locked = Locked(resource: Resource, rc: Rc)

  function Lock(r: Resource, conn: Conn, w: Wish): Locked {
    match r
    case Hier(s) => var l := H.Lock(s, conn, w.path, w.mode, w.wait); Locked(Hier(l.hier), l.rc)
    case Numeric(s) => var l := N.Lock(s, conn, w.quantity, w.wait); Locked(Numeric(l.pool), l.rc)
    case Sequence(s) => var l := Q.Lock(s, conn, w.wait); Locked(Sequence(l.sequence), l.rc)
  }

  function RecordConns<T>(rs: seq<Record<T>>): seq<Conn> {
    if rs == [] then [] else [rs[0].conn] + RecordConns(rs[1..])
  }

  /** A message or disconnection and the waiters it gives the lock to. An event
      of another kind of resource does not occur. */
  function React(r: Resource, e: Event): Effect {
    match (r, e)
    case (Hier(s), HierEvent(h)) => Effect(Hier(H.Step(s, h)), H.WaiterConns(HierGranted(s, h)))
    case (Numeric(s), NumericEvent(n)) => Effect(Numeric(N.Step(s, n)), RecordConns(NumericGranted(s, n)))
    case (Sequence(s), SequenceEvent(q)) =>
      Effect(Sequence(Q.Step(s, q).sequence), RecordConns(SequenceGranted(s, q)))
    case _ => Effect(r, [])
  }

  function HierGranted(s: H.Hier, e: H.Event): seq<H.Waiter> {
    match e
    case LockMsg(_, _, _, _) => []
    case UnlockMsg(conn, path) => H.Unlock(s, conn, path).granted
    case Disconnect(conn) => H.Clean(s, conn).granted
  }

  function NumericGranted(s: N.Pool, e: N.Event): seq<N.Request> {
    match e
    case LockMsg(_, _, _) => []
    case UnlockMsg(conn, name) => N.Unlock(s, conn, name).granted
    case Disconnect(conn) => N.Clean(s, conn).granted
  }

  function SequenceGranted(s: Q.Sequence, e: Q.Event): seq<Q.Holding> {
    match e
    case LockMsg(_, _) => []
    case UnlockMsg(conn, name, rollback) => Q.Unlock(s, conn, name, rollback).granted
    case Disconnect(conn) => Q.Clean(s, conn).granted
  }

  // ----- who is listed ------------------------------------------------------

  ghost predicate Holds(r: Resource, conn: Conn) {
    match r
    case Hier(s) => T.InFlat(T.Flat(s.root), conn)
    case Numeric(s) => conn in RecordConns(s.holders)
    case Sequence(s) => conn in RecordConns(s.stock.holders)
  }

  predicate Waits(r: Resource, conn: Conn) {
    match r
    case Hier(s) => conn in H.WaiterConns(s.waitings)
    case Numeric(s) => conn in RecordConns(s.waitings)
    case Sequence(s) => conn in s.waitings
  }

  /** All that others can do to a connection is to let it move from the queue
      to the holders, and then it is told so. */
  ghost predicate Respected(r: Resource, f: Effect, conn: Conn) {
    && (Holds(f.resource, conn) <==> Holds(r, conn) || conn in f.granted)
    && (conn in f.granted ==> Waits(r, conn))
    && (conn !in f.granted ==> (Waits(f.resource, conn) <==> Waits(r, conn)))
  }

  // ----- sequences of connections -------------------------------------------

  lemma {:induction false} RecordConnsJoin<T>(a: seq<Record<T>>, b: seq<Record<T>>)
    ensures RecordConns(a + b) == RecordConns(a) + RecordConns(b)
  {
    if a == [] {
      assert a + b == b;
    } else {
      RecordConnsJoin(a[1..], b);
      assert (a + b)[1..] == a[1..] + b;
    }
  }

  lemma RecordConnsDrop<T>(rs: seq<Record<T>>, k: nat, conn: Conn)
    requires k < |rs| && rs[k].conn != conn
    ensures conn in RecordConns(Drop(rs, k)) <==> conn in RecordConns(rs)
  {
    assert rs == rs[..k] + ([rs[k]] + rs[k + 1..]);
    RecordConnsJoin(rs[..k], [rs[k]] + rs[k + 1..]);
    RecordConnsJoin([rs[k]], rs[k + 1..]);
    RecordConnsJoin(rs[..k], rs[k + 1..]);
  }

  lemma RecordConnsCons<T>(r: Record<T>, rs: seq<Record<T>>)
    ensures RecordConns([r] + rs) == [r.conn] + RecordConns(rs)
  {
    assert ([r] + rs)[1..] == rs;
  }

  // ----- numeric ------------------------------------------------------------

  lemma {:induction false} NumericServe(total: int32, locked: int32, holders: seq<N.Request>, queue: seq<N.Request>,
                                        conn: Conn)
    ensures var s := N.Serve(total, locked, holders, queue);
            && (conn in RecordConns(s.holders) <==> conn in RecordConns(holders) || conn in RecordConns(s.granted))
            && (conn in RecordConns(queue) <==> conn in RecordConns(s.rest) || conn in RecordConns(s.granted))
    decreases |queue|
  {
    if queue == [] {
    } else {
      var w := queue[0];
      if N.CanLock(total, locked, w.info) {
        var s := N.Serve(total, Wrap(locked + w.info), [w] + holders, queue[1..]);
        NumericServe(total, Wrap(locked + w.info), [w] + holders, queue[1..], conn);
        RecordConnsCons(w, holders);
        RecordConnsCons(w, s.granted);
      } else {
        NumericServe(total, locked, holders, queue[1..], conn);
        RecordConnsCons(w, N.Serve(total, locked, holders, queue[1..]).rest);
      }
    }
  }

  lemma NumericClean(s: N.Pool, other: Conn, conn: Conn)
    requires other != conn
    ensures var c := N.Clean(s, other);
            Respected(Numeric(s), Effect(Numeric(c.pool), RecordConns(c.granted)), conn)
  {
    var k, j := FirstWith(s.holders, other), FirstWith(s.waitings, other);
    if k < |s.holders| {
      RecordConnsDrop(s.holders, k, conn);
      NumericServe(s.total, Wrap(s.locked - s.holders[k].info), Drop(s.holders, k), s.waitings, conn);
    } else if j < |s.waitings| {
      RecordConnsDrop(s.waitings, j, conn);
    }
  }

  // ----- sequence -----------------------------------------------------------

  lemma {:induction false} SequenceServe(total: int32, t: Q.Stock, queue: seq<Conn>, conn: Conn)
    ensures var s := Q.Serve(total, t, queue);
            && (conn in RecordConns(s.stock.holders) <==>
                  conn in RecordConns(t.holders) || conn in RecordConns(s.granted))
            && (conn in queue <==> conn in s.rest || conn in RecordConns(s.granted))
    decreases |queue|
  {
    if queue == [] {
    } else {
      assert conn in queue <==> conn == queue[0] || conn in queue[1..];
      if Q.CanLock(total, t.locked) {
        var g := Q.Grant(t, queue[0]);
        var s := Q.Serve(total, g.stock, queue[1..]);
        SequenceServe(total, g.stock, queue[1..], conn);
        RecordConnsCons(g.holding, t.holders);
        RecordConnsCons(g.holding, s.granted);
      } else {
        SequenceServe(total, t, queue[1..], conn);
      }
    }
  }

  lemma SequenceClean(s: Q.Sequence, other: Conn, conn: Conn)
    requires other != conn
    ensures var c := Q.Clean(s, other);
            Respected(Sequence(s), Effect(Sequence(c.sequence), RecordConns(c.granted)), conn)
  {
    var k, j := FirstWith(s.stock.holders, other), Q.FirstWaiting(s.waitings, other);
    if k < |s.stock.holders| {
      RecordConnsDrop(s.stock.holders, k, conn);
      SequenceServe(s.total, Q.PutBack(s.stock, k), s.waitings, conn);
    } else if j < |s.waitings| {
      assert s.waitings == s.waitings[..j] + [other] + s.waitings[j + 1..];
    }
  }

  lemma MarkedConns(t: Q.Stock, k: nat, rollback: bool)
    requires k < |t.holders|
    ensures RecordConns(Q.Marked(t, k, rollback).holders) == RecordConns(t.holders)
  {
    var hs := t.holders;
    var h := hs[k].(info := hs[k].info.(rollback := rollback));
    assert hs == hs[..k] + ([hs[k]] + hs[k + 1..]) && hs[k := h] == hs[..k] + ([h] + hs[k + 1..]);
    RecordConnsJoin(hs[..k], [hs[k]] + hs[k + 1..]);
    RecordConnsJoin(hs[..k], [h] + hs[k + 1..]);
    RecordConnsCons(hs[k], hs[k + 1..]);
    RecordConnsCons(h, hs[k + 1..]);
  }

  // ----- hierarchical -------------------------------------------------------

  lemma HierClean(s: H.Hier, other: Conn, conn: Conn)
    requires other != conn
    ensures var c := H.Clean(s, other);
            Respected(Hier(s), Effect(Hier(c.hier), H.WaiterConns(c.granted)), conn)
  {
    var node := H.Target(s.root, s.name);
    var k, j := H.FirstOf(node.holders, other), H.FirstWaiting(s.waitings, other);
    var c := H.Clean(s, other);
    H.CleanFlat(s, other);
    if k < |node.holders| {
      var gone := T.Entry(H.Reached(s.root, s.name), node.holders[k].mode, other);
      T.InFlatSum(T.Flat(c.hier.root), multiset{gone}, conn);
      T.InFlatOne(gone, conn);
      T.InFlatSum(T.Flat(s.root), H.Grants(s.root, c.granted), conn);
      H.GrantsConns(s.root, c.granted, conn);
      H.WaiterConnsSplit(s.waitings, c.hier.waitings, c.granted, conn);
    } else if j < |s.waitings| {
      DropContents(s.waitings, j);
      H.WaiterConnsSplit(s.waitings, Drop(s.waitings, j), [s.waitings[j]], conn);
    }
  }

  // ----- any resource -------------------------------------------------------

  lemma LockLists(r: Resource, conn: Conn, w: Wish)
    ensures var l := Lock(r, conn, w);
            match l.rc
            case Ok => Holds(l.resource, conn) && (Waits(l.resource, conn) <==> Waits(r, conn))
            case Enqueued => Waits(l.resource, conn) && (Holds(l.resource, conn) <==> Holds(r, conn))
            case _ => l.resource == r
  {
    match r
    case Hier(s) =>
      var h := T.Holder(w.mode, conn);
      T.AddLockerFlat(s.root, w.path, h);
      var e := T.Entry(T.Placed(s.root, w.path), w.mode, conn);
      assert e in T.Flat(s.root) + multiset{e};
      DropContents(s.waitings + [H.Waiter(conn, w.mode, w.path)], |s.waitings|);
      H.WaiterConnsSplit(s.waitings + [H.Waiter(conn, w.mode, w.path)], s.waitings,
                         [H.Waiter(conn, w.mode, w.path)], conn);
    case Numeric(s) =>
      RecordConnsCons(Record(conn, w.quantity), s.holders);
      RecordConnsJoin(s.waitings, [Record(conn, w.quantity)]);
    case Sequence(s) =>
      var g := Q.Grant(s.stock, conn);
      RecordConnsCons(g.holding, s.stock.holders);
  }

  lemma LockOfOther(r: Resource, other: Conn, w: Wish, conn: Conn)
    requires other != conn
    ensures Respected(r, Effect(Lock(r, other, w).resource, []), conn)
  {
    match r
    case Hier(s) =>
      var h := T.Holder(w.mode, other);
      var e := T.Entry(T.Placed(s.root, w.path), w.mode, other);
      var v := H.Waiter(other, w.mode, w.path);
      T.AddLockerFlat(s.root, w.path, h);
      T.InFlatSum(T.Flat(s.root), multiset{e}, conn);
      T.InFlatOne(e, conn);
      H.WaiterConnsSplit(s.waitings + [v], s.waitings, [v], conn);
    case Numeric(s) =>
      RecordConnsCons(Record(other, w.quantity), s.holders);
      RecordConnsJoin(s.waitings, [Record(other, w.quantity)]);
    case Sequence(s) =>
      var g := Q.Grant(s.stock, other);
      RecordConnsCons(g.holding, s.stock.holders);
  }

  /** Whatever other connections send or however they go away. */
  lemma OthersRespect(r: Resource, e: Event, conn: Conn)
    requires Sender(e) != conn
    ensures Respected(r, React(r, e), conn)
  {
    match (r, e)
    case (Hier(s), HierEvent(h)) =>
      match h {
        case LockMsg(other, path, mode, wait) => LockOfOther(r, other, Wish(path, mode, 0, wait), conn);
        case UnlockMsg(other, path) =>
          if H.SameResource(s.root, path) { HierClean(s.(name := path), other, conn); }
        case Disconnect(other) => HierClean(s, other, conn);
      }
    case (Numeric(s), NumericEvent(n)) =>
      match n {
        case LockMsg(other, quantity, wait) => LockOfOther(r, other, Wish([], T.NL, quantity, wait), conn);
        case UnlockMsg(other, name) => NumericClean(s, other, conn);
        case Disconnect(other) => NumericClean(s, other, conn);
      }
    case (Sequence(s), SequenceEvent(q)) =>
      match q {
        case LockMsg(other, wait) => LockOfOther(r, other, Wish([], T.NL, 0, wait), conn);
        case UnlockMsg(other, name, rollback) =>
          if Q.UnlockCheck(s, other, name) == Q.Accepted {
            var k := FirstWith(s.stock.holders, other);
            MarkedConns(s.stock, k, rollback);
            SequenceClean(s.(stock := Q.Marked(s.stock, k, rollback)), other, conn);
          }
        case Disconnect(other) => SequenceClean(s, other, conn);
      }
    case _ =>
  }
}
