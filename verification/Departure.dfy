/** Every resource counts its records of a connection, held and waiting: what a
    message adds to them, what a clean-up takes away, and when a client that
    goes away leaves nothing behind. */
module Departure {
  import opened Listing
  import opened Answers
  import opened Records
  import opened Words
  import H = HierResource
  import T = HierTree
  import N = NumericPool
  import Q = SequenceValues

  // ----- counting entries ---------------------------------------------------

  ghost function Tally(es: multiset<T.Entry>, conn: Conn): nat
    decreases |es|
  {
    if es == multiset{} then 0
    else
      var e :| e in es;
      (if e.conn == conn then 1 else 0) + Tally(es - multiset{e}, conn)
  }

  lemma AddTake(es: multiset<T.Entry>, e: T.Entry, f: T.Entry)
    requires f in es
    ensures (es + multiset{e}) - multiset{e} == es
    ensures (es + multiset{e}) - multiset{f} == (es - multiset{f}) + multiset{e}
    ensures (es - multiset{f}) + multiset{f} == es
    ensures |es + multiset{e}| == |es| + 1 && |es - multiset{f}| == |es| - 1
  {
  }

  /** The count does not depend on the order of counting. */
  lemma {:induction false} TallyOne(es: multiset<T.Entry>, e: T.Entry, conn: Conn)
    ensures Tally(es + multiset{e}, conn) == Tally(es, conn) + if e.conn == conn then 1 else 0
    decreases |es|
  {
    var all := es + multiset{e};
    var f :| f in all && Tally(all, conn) == (if f.conn == conn then 1 else 0) + Tally(all - multiset{f}, conn);
    if f == e {
      assert all - multiset{e} == es;
    } else {
      var less := es - multiset{f};
      AddTake(es, e, f);
      TallyOne(less, e, conn);
      TallyOne(less, f, conn);
    }
  }

  lemma {:induction false} TallySum(a: multiset<T.Entry>, b: multiset<T.Entry>, conn: Conn)
    ensures Tally(a + b, conn) == Tally(a, conn) + Tally(b, conn)
    decreases |b|
  {
    if b == multiset{} {
      assert a + b == a;
    } else {
      var e :| e in b;
      var less := b - multiset{e};
      assert b == less + multiset{e} && a + b == (a + less) + multiset{e};
      TallySum(a, less, conn);
      TallyOne(less, e, conn);
      TallyOne(a + less, e, conn);
    }
  }

  lemma {:induction false} TallyNone(es: multiset<T.Entry>, conn: Conn)
    ensures Tally(es, conn) == 0 <==> !T.InFlat(es, conn)
    decreases |es|
  {
    if es != multiset{} {
      var e :| e in es && Tally(es, conn) == (if e.conn == conn then 1 else 0) + Tally(es - multiset{e}, conn);
      TallyNone(es - multiset{e}, conn);
      assert es == (es - multiset{e}) + multiset{e};
      T.InFlatSum(es - multiset{e}, multiset{e}, conn);
      T.InFlatOne(e, conn);
    }
  }

  lemma {:induction false} TallyGrants(root: T.Tree, ws: seq<H.Waiter>, conn: Conn)
    ensures Tally(H.Grants(root, ws), conn) == Share(ws, H.WaiterConn, conn)
  {
    if ws == [] {
    } else {
      var e := T.Entry(T.Placed(root, ws[0].path), ws[0].mode, ws[0].conn);
      TallyGrants(root, ws[1..], conn);
      assert H.Grants(root, ws) == H.Grants(root, ws[1..]) + multiset{e};
      TallyOne(H.Grants(root, ws[1..]), e, conn);
    }
  }

  // ----- how many records ---------------------------------------------------

  ghost function Held(r: Resource, conn: Conn): nat {
    match r
    case Hier(s) => Tally(T.Flat(s.root), conn)
    case Numeric(s) => Share(s.holders, ConnOf, conn)
    case Sequence(s) => Share(s.stock.holders, ConnOf, conn)
  }

  function Queued(r: Resource, conn: Conn): nat {
    match r
    case Hier(s) => Share(s.waitings, H.WaiterConn, conn)
    case Numeric(s) => Share(s.waitings, ConnOf, conn)
    case Sequence(s) => Share(s.waitings, Q.Itself, conn)
  }

  ghost function Listed(r: Resource, conn: Conn): nat {
    Held(r, conn) + Queued(r, conn)
  }

  lemma {:induction false} ShareRecords<T>(rs: seq<Record<T>>, conn: Conn)
    ensures Share(rs, ConnOf, conn) == 0 <==> conn !in RecordConns(rs)
  {
    if rs != [] { ShareRecords(rs[1..], conn); }
  }

  lemma {:induction false} ShareWaiters(ws: seq<H.Waiter>, conn: Conn)
    ensures Share(ws, H.WaiterConn, conn) == 0 <==> conn !in H.WaiterConns(ws)
  {
    if ws != [] { ShareWaiters(ws[1..], conn); }
  }

  lemma {:induction false} ShareConns(cs: seq<Conn>, conn: Conn)
    ensures Share(cs, Q.Itself, conn) == 0 <==> conn !in cs
  {
    if cs != [] { ShareConns(cs[1..], conn); }
  }

  /** To hold is to have a held record, to wait is to have a waiting one. */
  lemma ListedMeans(r: Resource, conn: Conn)
    ensures Held(r, conn) > 0 <==> Holds(r, conn)
    ensures Queued(r, conn) > 0 <==> Waits(r, conn)
  {
    match r
    case Hier(s) =>
      TallyNone(T.Flat(s.root), conn);
      ShareWaiters(s.waitings, conn);
    case Numeric(s) =>
      ShareRecords(s.holders, conn);
      ShareRecords(s.waitings, conn);
    case Sequence(s) =>
      ShareRecords(s.stock.holders, conn);
      ShareConns(s.waitings, conn);
  }

  // ----- a queue pass -------------------------------------------------------

  lemma {:induction false} HierServe(root: T.Tree, queue: seq<H.Waiter>, conn: Conn)
    ensures var s := H.Serve(root, queue);
            Share(queue, H.WaiterConn, conn)
            == Share(s.rest, H.WaiterConn, conn) + Share(s.granted, H.WaiterConn, conn)
    decreases |queue|
  {
    if queue == [] {
    } else {
      var w := queue[0];
      var can := T.CanLock(root, w.mode, w.path);
      var root1 := if can then T.AddLocker(root, w.path, T.Holder(w.mode, w.conn)) else root;
      var s := H.Serve(root1, queue[1..]);
      HierServe(root1, queue[1..], conn);
      ShareCons(w, s.rest, H.WaiterConn, conn);
      ShareCons(w, s.granted, H.WaiterConn, conn);
    }
  }

  lemma {:induction false} NumericServes(total: int32, locked: int32, holders: seq<N.Request>, queue: seq<N.Request>,
                                         conn: Conn)
    ensures var s := N.Serve(total, locked, holders, queue);
            Share(s.holders, ConnOf, conn) + Share(s.rest, ConnOf, conn)
            == Share(holders, ConnOf, conn) + Share(queue, ConnOf, conn)
    decreases |queue|
  {
    if queue == [] {
    } else {
      var w := queue[0];
      if N.CanLock(total, locked, w.info) {
        NumericServes(total, Wrap(locked + w.info), [w] + holders, queue[1..], conn);
        ShareCons(w, holders, ConnOf, conn);
      } else {
        NumericServes(total, locked, holders, queue[1..], conn);
        ShareCons(w, N.Serve(total, locked, holders, queue[1..]).rest, ConnOf, conn);
      }
    }
  }

  lemma {:induction false} SequenceServes(total: int32, t: Q.Stock, queue: seq<Conn>, conn: Conn)
    ensures var s := Q.Serve(total, t, queue);
            Share(s.stock.holders, ConnOf, conn) + Share(s.rest, Q.Itself, conn)
            == Share(t.holders, ConnOf, conn) + Share(queue, Q.Itself, conn)
    decreases |queue|
  {
    if queue == [] {
    } else {
      if Q.CanLock(total, t.locked) {
        var g := Q.Grant(t, queue[0]);
        SequenceServes(total, g.stock, queue[1..], conn);
        ShareCons(g.holding, t.holders, ConnOf, conn);
      } else {
        SequenceServes(total, t, queue[1..], conn);
        ShareCons(queue[0], Q.Serve(total, t, queue[1..]).rest, Q.Itself, conn);
      }
    }
  }

  // ----- a clean-up ---------------------------------------------------------

  /** What a clean-up finds of its connection. */
  ghost predicate Found(r: Resource, conn: Conn) {
    match r
    case Hier(s) => H.HoldsThere(s, conn) || Waits(r, conn)
    case Numeric(_) => Holds(r, conn) || Waits(r, conn)
    case Sequence(_) => Holds(r, conn) || Waits(r, conn)
  }

  function CleanedUp(r: Resource, conn: Conn): Resource {
    match r
    case Hier(s) => Hier(H.Clean(s, conn).hier)
    case Numeric(s) => Numeric(N.Clean(s, conn).pool)
    case Sequence(s) => Sequence(Q.Clean(s, conn).sequence)
  }

  lemma HierCleanCounts(s: H.Hier, other: Conn, conn: Conn)
    ensures Listed(CleanedUp(Hier(s), other), conn) + (if other == conn && Found(Hier(s), conn) then 1 else 0)
         == Listed(Hier(s), conn)
  {
    var hs := H.Target(s.root, s.name).holders;
    var k, j, c := H.FirstOf(hs, other), H.FirstWaiting(s.waitings, other), H.Clean(s, other);
    H.HoldsThereFirst(s, other);
    H.CleanFlat(s, other);
    if k < |hs| {
      var gone := T.Entry(H.Reached(s.root, s.name), hs[k].mode, other);
      TallyOne(T.Flat(c.hier.root), gone, conn);
      TallySum(T.Flat(s.root), H.Grants(s.root, c.granted), conn);
      TallyGrants(s.root, c.granted, conn);
      HierServe(H.WithHolders(s.root, s.name, Drop(hs, k)), s.waitings, conn);
    } else {
      ListedMeans(Hier(s), other);
      ShareNone(s.waitings, H.WaiterConn, other);
      if j < |s.waitings| { ShareDrop(s.waitings, j, H.WaiterConn, conn); }
    }
  }

  lemma NumericCleanCounts(s: N.Pool, other: Conn, conn: Conn)
    ensures Listed(CleanedUp(Numeric(s), other), conn) + (if other == conn && Found(Numeric(s), conn) then 1 else 0)
         == Listed(Numeric(s), conn)
  {
    var k, j := FirstWith(s.holders, other), FirstWith(s.waitings, other);
    ListedMeans(Numeric(s), other);
    ShareNone(s.holders, ConnOf, other);
    ShareNone(s.waitings, ConnOf, other);
    if k < |s.holders| {
      ShareDrop(s.holders, k, ConnOf, conn);
      NumericServes(s.total, Wrap(s.locked - s.holders[k].info), Drop(s.holders, k), s.waitings, conn);
    } else if j < |s.waitings| {
      ShareDrop(s.waitings, j, ConnOf, conn);
    }
  }

  lemma SequenceCleanCounts(s: Q.Sequence, other: Conn, conn: Conn)
    ensures Listed(CleanedUp(Sequence(s), other), conn) + (if other == conn && Found(Sequence(s), conn) then 1 else 0)
         == Listed(Sequence(s), conn)
  {
    var hs := s.stock.holders;
    var k, j := FirstWith(hs, other), Q.FirstWaiting(s.waitings, other);
    ListedMeans(Sequence(s), other);
    ShareNone(hs, ConnOf, other);
    ShareNone(s.waitings, Q.Itself, other);
    if k < |hs| {
      ShareDrop(hs, k, ConnOf, conn);
      SequenceServes(s.total, Q.PutBack(s.stock, k), s.waitings, conn);
    } else if j < |s.waitings| {
      ShareDrop(s.waitings, j, Q.Itself, conn);
    }
  }

  /** A clean-up takes away one record of its own connection if it finds one,
      and none of any other. */
  lemma CleanUpCounts(r: Resource, other: Conn, conn: Conn)
    ensures Listed(CleanedUp(r, other), conn) + (if other == conn && Found(r, conn) then 1 else 0) == Listed(r, conn)
  {
    match r
    case Hier(s) => HierCleanCounts(s, other, conn);
    case Numeric(s) => NumericCleanCounts(s, other, conn);
    case Sequence(s) => SequenceCleanCounts(s, other, conn);
  }

  // ----- any event ----------------------------------------------------------

  /** The event is a lock request of the connection that is granted or queued. */
  predicate Arrives(r: Resource, e: Event, conn: Conn) {
    && Sender(e) == conn
    && match (r, e)
       case (Hier(s), HierEvent(LockMsg(_, path, mode, wait))) =>
         H.Lock(s, conn, path, mode, wait).rc in {Ok, Enqueued}
       case (Numeric(s), NumericEvent(LockMsg(_, quantity, wait))) =>
         N.Lock(s, conn, quantity, wait).rc in {Ok, Enqueued}
       case (Sequence(s), SequenceEvent(LockMsg(_, wait))) =>
         Q.Lock(s, conn, wait).rc in {Ok, Enqueued}
       case _ => false
  }

  /** The event is an unlock or the end of the connection, and it has a record
      that this finds. An unlock of another name finds nothing; that of a
      hierarchical resource looks along its own path, and that of a sequence
      only for a held value. */
  ghost predicate Departs(r: Resource, e: Event, conn: Conn) {
    && Sender(e) == conn
    && match (r, e)
       case (Hier(s), HierEvent(UnlockMsg(_, path))) =>
         path != [] && path[0] == s.root.name && Found(Hier(s.(name := path)), conn)
       case (Hier(s), HierEvent(Disconnect(_))) => Found(r, conn)
       case (Numeric(s), NumericEvent(UnlockMsg(_, name))) => name == s.name && Found(r, conn)
       case (Numeric(s), NumericEvent(Disconnect(_))) => Found(r, conn)
       case (Sequence(s), SequenceEvent(UnlockMsg(_, name, _))) => name == s.name && Holds(r, conn)
       case (Sequence(s), SequenceEvent(Disconnect(_))) => Found(r, conn)
       case _ => false
  }

  lemma LockCounts(r: Resource, other: Conn, w: Wish, conn: Conn)
    ensures var l := Lock(r, other, w);
            Listed(l.resource, conn) == Listed(r, conn) + if other == conn && l.rc in {Ok, Enqueued} then 1 else 0
  {
    match r
    case Hier(s) =>
      T.AddLockerFlat(s.root, w.path, T.Holder(w.mode, other));
      TallyOne(T.Flat(s.root), T.Entry(T.Placed(s.root, w.path), w.mode, other), conn);
      ShareLast(s.waitings, H.Waiter(other, w.mode, w.path), H.WaiterConn, conn);
    case Numeric(s) =>
      ShareCons(Record(other, w.quantity), s.holders, ConnOf, conn);
      ShareLast(s.waitings, Record(other, w.quantity), ConnOf, conn);
    case Sequence(s) =>
      ShareCons(Q.Grant(s.stock, other).holding, s.stock.holders, ConnOf, conn);
      ShareLast(s.waitings, other, Q.Itself, conn);
  }

  lemma {:induction false} ShareMarked(hs: seq<Q.Holding>, k: nat, slot: Q.Slot, conn: Conn)
    requires k < |hs|
    ensures Share(hs[k := hs[k].(info := slot)], ConnOf, conn) == Share(hs, ConnOf, conn)
    decreases |hs|
  {
    var marked := hs[k := hs[k].(info := slot)];
    if k == 0 {
      assert marked[1..] == hs[1..];
    } else {
      ShareMarked(hs[1..], k - 1, slot, conn);
      assert marked[1..] == hs[1..][k - 1 := hs[k].(info := slot)];
    }
  }

  lemma SequenceUnlockCounts(s: Q.Sequence, other: Conn, name: string, rollback: bool, conn: Conn)
    ensures Listed(Sequence(Q.Unlock(s, other, name, rollback).sequence), conn)
            + (if other == conn && name == s.name && Holds(Sequence(s), conn) then 1 else 0)
         == Listed(Sequence(s), conn)
  {
    var hs := s.stock.holders;
    var k := FirstWith(hs, other);
    ListedMeans(Sequence(s), other);
    ShareNone(hs, ConnOf, other);
    if k < |hs| && name == s.name {
      var marked := s.(stock := Q.Marked(s.stock, k, rollback));
      ShareMarked(hs, k, marked.stock.holders[k].info, conn);
      ShareMarked(hs, k, marked.stock.holders[k].info, other);
      ListedMeans(Sequence(marked), other);
      SequenceCleanCounts(marked, other, conn);
    }
  }

  /** The account of one event. */
  ghost predicate Accounts(r: Resource, e: Event, conn: Conn) {
    Listed(React(r, e).resource, conn) + (if Departs(r, e, conn) then 1 else 0)
    == Listed(r, conn) + if Arrives(r, e, conn) then 1 else 0
  }

  lemma HierCounts(s: H.Hier, h: H.Event, conn: Conn)
    ensures Accounts(Hier(s), HierEvent(h), conn)
  {
    match h
    case LockMsg(other, path, mode, wait) => LockCounts(Hier(s), other, Wish(path, mode, 0, wait), conn);
    case UnlockMsg(other, path) =>
      if H.SameResource(s.root, path) { HierCleanCounts(s.(name := path), other, conn); }
    case Disconnect(other) => HierCleanCounts(s, other, conn);
  }

  lemma NumericCounts(s: N.Pool, n: N.Event, conn: Conn)
    ensures Accounts(Numeric(s), NumericEvent(n), conn)
  {
    match n
    case LockMsg(other, quantity, wait) => LockCounts(Numeric(s), other, Wish([], T.NL, quantity, wait), conn);
    case UnlockMsg(other, name) => NumericCleanCounts(s, other, conn);
    case Disconnect(other) => NumericCleanCounts(s, other, conn);
  }

  lemma SequenceCounts(s: Q.Sequence, q: Q.Event, conn: Conn)
    ensures Accounts(Sequence(s), SequenceEvent(q), conn)
  {
    match q
    case LockMsg(other, wait) => LockCounts(Sequence(s), other, Wish([], T.NL, 0, wait), conn);
    case UnlockMsg(other, name, rollback) => SequenceUnlockCounts(s, other, name, rollback, conn);
    case Disconnect(other) => SequenceCleanCounts(s, other, conn);
  }

  /** Records come only by a lock request that is granted or queued, and go only
      by an unlock or the end of the connection, one at a time; whatever others
      do, grants from the queue included, changes their number by nothing. */
  lemma RecordsConserved(r: Resource, e: Event, conn: Conn)
    ensures Listed(React(r, e).resource, conn) + (if Departs(r, e, conn) then 1 else 0)
         == Listed(r, conn) + if Arrives(r, e, conn) then 1 else 0
  {
    match (r, e)
    case (Hier(s), HierEvent(h)) => HierCounts(s, h, conn);
    case (Numeric(s), NumericEvent(n)) => NumericCounts(s, n, conn);
    case (Sequence(s), SequenceEvent(q)) => SequenceCounts(s, q, conn);
    case _ =>
  }

  // ----- whole runs ---------------------------------------------------------

  function Run(r: Resource, es: seq<Event>): Resource
    decreases |es|
  {
    if es == [] then r else Run(React(r, es[0]).resource, es[1..])
  }

  predicate IsLock(e: Event) {
    match e
    case HierEvent(h) => h.LockMsg?
    case NumericEvent(n) => n.LockMsg?
    case SequenceEvent(q) => q.LockMsg?
  }

  /** How many lock requests the connection sends. */
  function LocksSent(es: seq<Event>, conn: Conn): nat {
    if es == [] then 0 else (if IsLock(es[0]) && Sender(es[0]) == conn then 1 else 0) + LocksSent(es[1..], conn)
  }

  lemma {:induction false} NoMoreThanSent(r: Resource, es: seq<Event>, conn: Conn)
    ensures Listed(Run(r, es), conn) <= Listed(r, conn) + LocksSent(es, conn)
    decreases |es|
  {
    if es == [] {
    } else {
      RecordsConserved(r, es[0], conn);
      NoMoreThanSent(React(r, es[0]).resource, es[1..], conn);
    }
  }

  lemma {:induction false} OthersChangeNothing(r: Resource, es: seq<Event>, conn: Conn)
    requires forall i | 0 <= i < |es| :: Sender(es[i]) != conn
    ensures Listed(Run(r, es), conn) == Listed(r, conn)
    decreases |es|
  {
    if es == [] {
    } else {
      RecordsConserved(r, es[0], conn);
      assert forall i | 0 <= i < |es[1..]| :: es[1..][i] == es[i + 1];
      OthersChangeNothing(React(r, es[0]).resource, es[1..], conn);
    }
  }

  /** A client that sent one lock request goes away. For good, in every later
      state, whatever others do, it neither holds nor waits: always at a numeric
      resource or a sequence, and at a hierarchical one exactly when it had
      nothing, waited, or held its lock on the node the walk along the resource
      name ends in. */
  lemma GoneForGood(r: Resource, es: seq<Event>, conn: Conn, later: seq<Event>)
    requires Listed(r, conn) == 0 && LocksSent(es, conn) <= 1
    requires forall i | 0 <= i < |later| :: Sender(later[i]) != conn
    ensures var before, after := Run(r, es), Run(CleanedUp(Run(r, es), conn), later);
            && (!Holds(after, conn) && !Waits(after, conn) <==>
                  (Holds(before, conn) && before.Hier? ==> H.HoldsThere(before.hier, conn)))
  {
    var before := Run(r, es);
    var cleaned := CleanedUp(before, conn);
    NoMoreThanSent(r, es, conn);
    CleanUpCounts(before, conn, conn);
    OthersChangeNothing(cleaned, later, conn);
    ListedMeans(before, conn);
    ListedMeans(Run(cleaned, later), conn);
  }
}
