/** Who gets a sequence value and when: the bookkeeping of a sequence resource
    over whole runs, first come first served, and disconnection as rollback. */
module SequenceFairness {
  import opened Answers
  import opened Records
  import opened SequenceValues
  import opened Words

  function Min(a: int, b: int): int { if a <= b then a else b }
  function Max(a: int, b: int): int { if a >= b then a else b }

  /** The count is the number of holders, every holder would roll back, and
      held and rolled back values together never exceed the total. */
  predicate Tidy(total: int32, t: Stock) {
    && t.locked == |t.holders|
    && |t.holders| + |RolledBack(t)| <= Max(total, 0)
    && forall i | 0 <= i < |t.holders| :: t.holders[i].info.rollback
  }

  function Free(total: int32, t: Stock): int {
    Max(total - t.locked, 0)
  }

  predicate Fair(s: Sequence) {
    && NoZero(s.stock) && Tidy(s.total, s.stock)
    && (s.waitings != [] ==> Free(s.total, s.stock) == 0)
  }

  lemma CanLockWhenFree(total: int32, t: Stock)
    requires Tidy(total, t)
    ensures CanLock(total, t.locked) <==> Free(total, t) > 0
  {
  }

  lemma GrantKeepsTidy(total: int32, t: Stock, conn: Conn)
    requires NoZero(t) && Tidy(total, t) && CanLock(total, t.locked)
    ensures Tidy(total, Grant(t, conn).stock) && Free(total, Grant(t, conn).stock) == Free(total, t) - 1
  {
    CanLockWhenFree(total, t);
  }

  function Conns(hs: seq<Holding>): (cs: seq<Conn>)
    ensures |cs| == |hs|
  {
    if hs == [] then [] else [hs[0].conn] + Conns(hs[1..])
  }

  /** A pass grants exactly the first waiters there is room for, in the order
      in which they came, and leaves the others in theirs. */
  lemma {:induction false} ServeTakesFirst(total: int32, t: Stock, queue: seq<Conn>)
    requires NoZero(t) && Tidy(total, t)
    ensures var s := Serve(total, t, queue);
            var n := Min(Free(total, t), |queue|);
            && Conns(s.granted) == queue[..n] && s.rest == queue[n..]
            && NoZero(s.stock) && Tidy(total, s.stock) && Free(total, s.stock) == Free(total, t) - n
    decreases |queue|
  {
    CanLockWhenFree(total, t);
    if queue == [] {
    } else {
      if CanLock(total, t.locked) {
        var g := Grant(t, queue[0]);
        GrantKeepsTidy(total, t, queue[0]);
        GrantKeepsNoZero(t, queue[0]);
        ServeTakesFirst(total, g.stock, queue[1..]);
        ConnsOfFirst(g.holding, Serve(total, g.stock, queue[1..]).granted, queue,
                     Min(Free(total, g.stock), |queue| - 1));
      } else {
        ServeTakesFirst(total, t, queue[1..]);
      }
    }
  }

  lemma ConnsOfFirst(h: Holding, hs: seq<Holding>, queue: seq<Conn>, n: nat)
    requires queue != [] && h.conn == queue[0] && n < |queue| && Conns(hs) == queue[1..][..n]
    ensures Conns([h] + hs) == queue[..n + 1]
    ensures queue[1..][n..] == queue[n + 1..]
  {
    assert ([h] + hs)[1..] == hs;
  }

  lemma PutBackKeepsTidy(total: int32, t: Stock, k: nat, rollback: bool)
    requires NoZero(t) && Tidy(total, t) && k < |t.holders|
    ensures NoZero(PutBack(Marked(t, k, rollback), k)) && Tidy(total, PutBack(Marked(t, k, rollback), k))
    ensures Free(total, PutBack(Marked(t, k, rollback), k)) == Free(total, t) + 1
  {
  }

  lemma MarkedAsIs(t: Stock, k: nat)
    requires k < |t.holders| && t.holders[k].info.rollback
    ensures Marked(t, k, true) == t
  {
    assert t.holders[k := t.holders[k]] == t.holders;
  }

  lemma {:induction false} FirstWithMarked(hs: seq<Holding>, conn: Conn, slot: Slot)
    requires FirstWith(hs, conn) < |hs|
    ensures var k := FirstWith(hs, conn);
            FirstWith(hs[k := hs[k].(info := slot)], conn) == k
  {
    var k := FirstWith(hs, conn);
    if k > 0 {
      FirstWithMarked(hs[1..], conn, slot);
      assert hs[k := hs[k].(info := slot)][1..] == hs[1..][k - 1 := hs[k].(info := slot)];
    }
  }

  /** A released value makes room for one waiter, the one that came first. */
  lemma ReleaseServesHead(s: Sequence, conn: Conn, rollback: bool)
    requires Fair(s) && FirstWith(s.stock.holders, conn) < |s.stock.holders|
    ensures var c := Unlock(s, conn, s.name, rollback);
            && Fair(c.sequence)
            && Conns(c.granted) == s.waitings[..Min(1, |s.waitings|)]
            && c.sequence.waitings == s.waitings[Min(1, |s.waitings|)..]
  {
    var k := FirstWith(s.stock.holders, conn);
    var marked := Marked(s.stock, k, rollback);
    FirstWithMarked(s.stock.holders, conn, marked.holders[k].info);
    PutBackKeepsTidy(s.total, s.stock, k, rollback);
    ServeTakesFirst(s.total, PutBack(marked, k), s.waitings);
  }

  /** A client that goes away without unlocking rolls its value back. */
  lemma DisconnectRollsBack(s: Sequence, conn: Conn)
    requires Fair(s) && FirstWith(s.stock.holders, conn) < |s.stock.holders|
    ensures Clean(s, conn) == Unlock(s, conn, s.name, true)
    ensures s.stock.rolledBack.Some? ==> Clean(s, conn).spent == []
  {
    MarkedAsIs(s.stock, FirstWith(s.stock.holders, conn));
  }

  /** What a pass tells the granted waiters is what they now hold. */
  lemma {:induction false} ServeTellsHolders(total: int32, t: Stock, queue: seq<Conn>)
    ensures var s := Serve(total, t, queue);
            multiset(s.stock.holders) == multiset(t.holders) + multiset(s.granted)
    decreases |queue|
  {
    if queue == [] {
    } else if CanLock(total, t.locked) {
      var g := Grant(t, queue[0]);
      var s := Serve(total, g.stock, queue[1..]);
      ServeTellsHolders(total, g.stock, queue[1..]);
      ConsContents(g.holding, t.holders);
      ConsContents(g.holding, s.granted);
      Move(g.holding, multiset(t.holders), multiset(s.granted));
    } else {
      ServeTellsHolders(total, t, queue[1..]);
    }
  }

  lemma {:induction false} RunKeepsKind(s: Sequence, es: seq<Event>)
    ensures Run(s, es).sequence.stock.rolledBack.Some? <==> s.stock.rolledBack.Some?
    decreases |es|
  {
    if es == [] {
    } else {
      StepKeepsKind(s, es[0]);
      RunKeepsKind(Step(s, es[0]).sequence, es[1..]);
    }
  }

  lemma StepKeepsKind(s: Sequence, e: Event)
    ensures Step(s, e).sequence.stock.rolledBack.Some? <==> s.stock.rolledBack.Some?
  {
    match e
    case LockMsg(conn, wait) =>
    case UnlockMsg(conn, name, rollback) =>
      if UnlockCheck(s, conn, name) == Accepted {
        CleanKeepsKind(s.(stock := Marked(s.stock, FirstWith(s.stock.holders, conn), rollback)), conn);
      }
    case Disconnect(conn) => CleanKeepsKind(s, conn);
  }

  lemma CleanKeepsKind(s: Sequence, conn: Conn)
    ensures Clean(s, conn).sequence.stock.rolledBack.Some? <==> s.stock.rolledBack.Some?
  {
    var k := FirstWith(s.stock.holders, conn);
    if k < |s.stock.holders| { ServeKeepsKind(s.total, PutBack(s.stock, k), s.waitings); }
  }

  lemma {:induction false} ServeKeepsKind(total: int32, t: Stock, queue: seq<Conn>)
    ensures Serve(total, t, queue).stock.rolledBack.Some? <==> t.rolledBack.Some?
    decreases |queue|
  {
    if queue == [] {
    } else {
      ServeKeepsKind(total, if CanLock(total, t.locked) then Grant(t, queue[0]).stock else t, queue[1..]);
    }
  }

  /** A sequence that is not transactional never issues a value again: in every
      reachable state each issued value is held or spent, and whoever holds one
      spends it by going, with or without rollback. A transactional one keeps
      the value of a holder that rolls back. */
  lemma TransactionalMeans(name: string, total: int32, transactional: bool, es: seq<Event>, conn: Conn,
                           rollback: bool)
    ensures var r := Run(Init(name, total, transactional), es);
            var s := r.sequence;
            && (!transactional ==> RolledBack(s.stock) == [])
            && (!transactional ==> multiset(r.issued) == Values(s.stock.holders) + multiset(r.spent))
            && (FirstWith(s.stock.holders, conn) < |s.stock.holders| ==>
                  Unlock(s, conn, s.name, rollback).spent ==
                  if transactional && rollback then []
                  else [s.stock.holders[FirstWith(s.stock.holders, conn)].info.value])
  {
    var r := Run(Init(name, total, transactional), es);
    RunKeepsKind(Init(name, total, transactional), es);
    RunKeepsFair(Init(name, total, transactional), es);
    RunAccounts(name, total, transactional, es);
    if FirstWith(r.sequence.stock.holders, conn) < |r.sequence.stock.holders| {
      CommitOrRollback(r.sequence, conn, rollback);
    }
    if !transactional { assert InPlay(r.sequence.stock) == Values(r.sequence.stock.holders); }
  }

  /** An unlock under another name, or by a connection that holds no value, is
      refused with a code of its own and changes nothing. */
  lemma UnlockRefused(s: Sequence, conn: Conn, name: string, rollback: bool)
    ensures var holds := exists i :: 0 <= i < |s.stock.holders| && s.stock.holders[i].conn == conn;
            var check := UnlockCheck(s, conn, name);
            && (check == InvalidOption <==> name != s.name)
            && (check == ObjCorrupted <==> name == s.name && !holds)
            && (check != Accepted ==> Unlock(s, conn, name, rollback) == Cleaned(s, [], [], []))
  {
    var k := FirstWith(s.stock.holders, conn);
    if k < |s.stock.holders| { assert s.stock.holders[k].conn == conn; }
  }

  /** A committed value is spent, a rolled back one of a transactional sequence
      goes to the end of the queue of values; the first waiter, if any, gets the
      oldest value of that queue, or else a new one. */
  lemma CommitOrRollback(s: Sequence, conn: Conn, rollback: bool)
    requires Fair(s) && FirstWith(s.stock.holders, conn) < |s.stock.holders|
    ensures var v := s.stock.holders[FirstWith(s.stock.holders, conn)].info.value;
            var back := s.stock.rolledBack.Some? && rollback;
            var queue := RolledBack(s.stock) + if back then [v] else [];
            var c := Unlock(s, conn, s.name, rollback);
            && c.spent == (if back then [] else [v])
            && (s.waitings == [] ==> RolledBack(c.sequence.stock) == queue && c.issued == [] && c.granted == [])
            && (s.waitings != [] ==> |c.granted| == 1 && c.granted[0].conn == s.waitings[0])
            && (s.waitings != [] && queue != [] ==>
                  c.granted[0].info.value == queue[0] && RolledBack(c.sequence.stock) == queue[1..] && c.issued == [])
            && (s.waitings != [] && queue == [] ==>
                  c.issued == [c.granted[0].info.value] && RolledBack(c.sequence.stock) == [])
  {
    var k := FirstWith(s.stock.holders, conn);
    var marked := Marked(s.stock, k, rollback);
    FirstWithMarked(s.stock.holders, conn, marked.holders[k].info);
    PutBackKeepsTidy(s.total, s.stock, k, rollback);
    assert RolledBack(s.stock) + [] == RolledBack(s.stock);
    ServeOne(s.total, PutBack(marked, k), s.waitings);
  }

  /** With room for one, the first waiter gets one value. */
  lemma ServeOne(total: int32, t: Stock, queue: seq<Conn>)
    requires NoZero(t) && Tidy(total, t) && (queue != [] ==> Free(total, t) == 1)
    ensures var s := Serve(total, t, queue);
            if queue == [] then s == Served(t, [], [], [])
            else var g := Grant(t, queue[0]); s == Served(g.stock, queue[1..], [g.holding], g.issued)
  {
    if queue != [] {
      var g := Grant(t, queue[0]);
      CanLockWhenFree(total, t);
      GrantKeepsTidy(total, t, queue[0]);
      ServeNobody(total, g.stock, queue[1..]);
      assert [g.holding] + [] == [g.holding] && g.issued + [] == g.issued;
    }
  }

  lemma {:induction false} ServeNobody(total: int32, t: Stock, queue: seq<Conn>)
    requires Tidy(total, t) && Free(total, t) == 0
    ensures Serve(total, t, queue) == Served(t, queue, [], [])
    decreases |queue|
  {
    CanLockWhenFree(total, t);
    if queue == [] {
    } else {
      ServeNobody(total, t, queue[1..]);
    }
  }

  /** A request is granted only when nobody is waiting: newcomers overtake no
      one, and the queue keeps its order. */
  lemma NewcomersQueue(s: Sequence, conn: Conn, wait: bool)
    requires Fair(s)
    ensures var l := Lock(s, conn, wait);
            && Fair(l.sequence)
            && (l.rc == Ok <==> Free(s.total, s.stock) > 0)
            && (l.rc == Ok ==> s.waitings == [])
            && (l.rc == Enqueued <==> Free(s.total, s.stock) == 0 && wait)
            && (l.rc == Busy <==> Free(s.total, s.stock) == 0 && !wait)
            && (l.rc != Ok ==> l.sequence.stock == s.stock)
            && (l.rc != Ok ==> l.sequence.waitings == s.waitings + if wait then [conn] else [])
  {
    CanLockWhenFree(s.total, s.stock);
    if CanLock(s.total, s.stock.locked) {
      GrantKeepsTidy(s.total, s.stock, conn);
      GrantKeepsNoZero(s.stock, conn);
    }
  }

  lemma StepKeepsFair(s: Sequence, e: Event)
    requires Fair(s)
    ensures Fair(Step(s, e).sequence) && Step(s, e).sequence.total == s.total
  {
    match e
    case LockMsg(conn, wait) =>
      NewcomersQueue(s, conn, wait);
    case UnlockMsg(conn, name, rollback) =>
      if UnlockCheck(s, conn, name) == Accepted { ReleaseServesHead(s, conn, rollback); }
    case Disconnect(conn) =>
      if FirstWith(s.stock.holders, conn) < |s.stock.holders| {
        DisconnectRollsBack(s, conn);
        ReleaseServesHead(s, conn, true);
      }
  }

  lemma {:induction false} RunKeepsFair(s: Sequence, es: seq<Event>)
    requires Fair(s)
    ensures Fair(Run(s, es).sequence) && Run(s, es).sequence.total == s.total
    decreases |es|
  {
    if es == [] {
    } else {
      StepKeepsFair(s, es[0]);
      RunKeepsFair(Step(s, es[0]).sequence, es[1..]);
    }
  }

  /** In every reachable state the count is exact and within the total, the
      32-bit subtraction is too, and somebody waits only if nothing is free. */
  lemma RunIsFair(name: string, total: int32, transactional: bool, es: seq<Event>)
    ensures var s := Run(Init(name, total, transactional), es).sequence;
            && Fair(s) && s.total == total
            && s.stock.locked == |s.stock.holders| <= Max(total, 0)
            && Fits(total - s.stock.locked) && (CanLock(total, s.stock.locked) ==> Fits(s.stock.locked + 1))
            && (s.waitings != [] ==> s.stock.locked == Max(total, 0))
  {
    RunKeepsFair(Init(name, total, transactional), es);
  }

  // ----- how many values a run needs ----------------------------------------

  lemma {:induction false} ValuesSize(hs: seq<Holding>)
    ensures |Values(hs)| == |hs|
  {
    if hs == [] {
    } else {
      ValuesSize(hs[1..]);
    }
  }

  lemma SumSize(a: multiset<uint32>, b: multiset<uint32>)
    ensures |a + b| == |a| + |b|
  {
  }

  /** Rolled back values are always reused first, so the counter is never ahead
      of the spent values by more than the total. */
  lemma FewGaps(name: string, total: int32, transactional: bool, es: seq<Event>)
    ensures var r := Run(Init(name, total, transactional), es);
            |r.spent| <= |r.issued| <= |r.spent| + Max(total, 0)
  {
    var r := Run(Init(name, total, transactional), es);
    var t := r.sequence.stock;
    RunIsFair(name, total, transactional, es);
    RunAccounts(name, total, transactional, es);
    ValuesSize(t.holders);
    SumSize(Values(t.holders), multiset(RolledBack(t)));
    SumSize(InPlay(t), multiset(r.spent));
  }
}
