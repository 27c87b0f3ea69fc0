/** Exactly when a message, and a run of messages, keeps the accounts of a
    numeric resource: requests of a negative quantity are granted, and may or
    may not break them. */
module NumericAccounts {
  import opened Answers
  import opened NumericPool
  import opened Records
  import opened Words

  // ----- a pass that starts anywhere ----------------------------------------

  /** What a waiter may ask for. */
  predicate Askable(total: int32, queue: seq<Request>) {
    forall i | 0 <= i < |queue| :: 1 <= queue[i].info <= total
  }

  lemma WaitersAskable(s: Pool)
    requires Accounted(s)
    ensures Askable(s.total, s.waitings)
  {
    assert forall i | 0 <= i < |s.waitings| :: MustWait(s.total, s.locked, s.waitings[i].info);
  }

  lemma WaitersNeedTotal(s: Pool)
    requires Accounted(s)
    ensures s.waitings != [] ==> s.total >= 1
  {
    if s.waitings != [] {
      assert MustWait(s.total, s.locked, s.waitings[0].info);
    }
  }

  /** A pass only adds to what is held, even if its arithmetic wraps. */
  lemma {:induction false} ServeOnlyAdds(total: int32, locked: int32, holders: seq<Request>, queue: seq<Request>)
    requires Askable(total, queue)
    ensures Sum(Serve(total, locked, holders, queue).holders) >= Sum(holders)
    decreases |queue|
  {
    if queue == [] {
    } else {
      var w := queue[0];
      assert forall i | 0 <= i < |queue[1..]| :: queue[1..][i] == queue[i + 1];
      if CanLock(total, locked, w.info) {
        ServeOnlyAdds(total, Wrap(locked + w.info), [w] + holders, queue[1..]);
        SumCons(w, holders);
      } else {
        ServeOnlyAdds(total, locked, holders, queue[1..]);
      }
    }
  }

  /** If the room looks negative, nobody is served. */
  lemma {:induction false} ServeWithoutRoom(total: int32, locked: int32, holders: seq<Request>, queue: seq<Request>)
    requires Askable(total, queue) && Wrap(total - locked) < 0
    ensures Serve(total, locked, holders, queue) == Served(locked, holders, queue, [])
    decreases |queue|
  {
    if queue == [] {
    } else {
      assert forall i | 0 <= i < |queue[1..]| :: queue[1..][i] == queue[i + 1];
      ServeWithoutRoom(total, locked, holders, queue[1..]);
    }
  }

  /** A pass from at most the total ends there, possibly below zero; but then
      everybody was served, because below zero there is room for any waiter. */
  lemma {:induction false} ServeFromAnywhere(total: int32, locked: int32, holders: seq<Request>, queue: seq<Request>)
    requires Askable(total, queue) && locked <= total && Fits(total - locked) && locked == Sum(holders)
    ensures var s := Serve(total, locked, holders, queue);
            && s.locked == Sum(s.holders) && locked <= s.locked <= total
            && s.locked <= locked + Sum(queue)
            && AllMustWait(total, s.locked, s.rest)
            && (s.locked < 0 ==> s.locked == locked + Sum(queue))
    decreases |queue|
  {
    if queue == [] {
    } else {
      var w := queue[0];
      assert forall i | 0 <= i < |queue[1..]| :: queue[1..][i] == queue[i + 1];
      if CanLock(total, locked, w.info) {
        SumCons(w, holders);
        ServeFromAnywhere(total, locked + w.info, [w] + holders, queue[1..]);
      } else {
        ServeFromAnywhere(total, locked, holders, queue[1..]);
      }
    }
  }

  // ----- one message --------------------------------------------------------

  /** A request keeps the accounts if it is not granted, or if it does not lock
      less than nothing and leaves no room for a waiter. */
  predicate RequestKeeps(s: Pool, quantity: int32) {
    quantity <= s.total - s.locked ==>
      && s.locked + quantity >= 0
      && forall i | 0 <= i < |s.waitings| :: s.waitings[i].info > s.total - (s.locked + quantity)
  }

  lemma RequestKeepsExactly(s: Pool, conn: Conn, quantity: int32, wait: bool)
    requires Accounted(s)
    ensures Accounted(Lock(s, conn, quantity, wait).pool) <==> RequestKeeps(s, quantity)
  {
    SumCons(Record(conn, quantity), s.holders);
    var l := Lock(s, conn, quantity, wait).pool;
    assert CanLock(s.total, s.locked, quantity) <==> quantity <= s.total - s.locked;
    if quantity <= s.total - s.locked {
      assert s.locked + quantity >= 0 ==> l.locked == s.locked + quantity;
      assert forall i | 0 <= i < |s.waitings| :: MustWait(s.total, s.locked, s.waitings[i].info);
      if Accounted(l) {
        assert forall i | 0 <= i < |s.waitings| :: MustWait(s.total, l.locked, l.waitings[i].info);
      }
    }
  }

  /** A release keeps the accounts if what stays locked is within the bounds; or
      if it is below zero, not so far that the room overflows, and all waiters
      together bring it back. */
  predicate ReleaseKeeps(s: Pool, conn: Conn) {
    var k := FirstWith(s.holders, conn);
    k < |s.holders| ==>
      var stays := s.locked - s.holders[k].info;
      if stays >= 0 then stays <= s.total || stays == 0
      else Fits(s.total - stays) && stays + Sum(s.waitings) >= 0
  }

  lemma ReleaseKeepsExactly(s: Pool, conn: Conn)
    requires Accounted(s)
    ensures Accounted(Clean(s, conn).pool) <==> ReleaseKeeps(s, conn)
  {
    WaitersAskable(s);
    var k := FirstWith(s.holders, conn);
    if k < |s.holders| {
      var stays := s.locked - s.holders[k].info;
      SumDrop(s.holders, k);
      if stays > s.total && stays > 0 {
        ServeOnlyAdds(s.total, Wrap(stays), Drop(s.holders, k), s.waitings);
      } else if stays >= 0 {
        ReleaseWithinBounds(s, k, stays);
      } else {
        ReleaseBelowZero(s, k, stays);
      }
    }
  }

  lemma ReleaseWithinBounds(s: Pool, k: nat, stays: int)
    requires Accounted(s) && k < |s.holders| && stays == s.locked - s.holders[k].info
    requires 0 <= stays && (stays <= s.total || stays == 0)
    ensures var t := Serve(s.total, Wrap(stays), Drop(s.holders, k), s.waitings);
            Balanced(s.total, t.locked, t.holders) && AllMustWait(s.total, t.locked, t.rest)
  {
    WaitersAskable(s);
    SumDrop(s.holders, k);
    if stays <= s.total {
      ServeFromAnywhere(s.total, stays, Drop(s.holders, k), s.waitings);
    } else {
      WaitersNeedTotal(s);
    }
  }

  lemma ReleaseBelowZero(s: Pool, k: nat, stays: int)
    requires Accounted(s) && k < |s.holders| && stays == s.locked - s.holders[k].info && stays < 0
    ensures var t := Serve(s.total, Wrap(stays), Drop(s.holders, k), s.waitings);
            Balanced(s.total, t.locked, t.holders) && AllMustWait(s.total, t.locked, t.rest)
            <==> Fits(s.total - stays) && stays + Sum(s.waitings) >= 0
  {
    WaitersAskable(s);
    SumDrop(s.holders, k);
    if !Fits(s.total - stays) {
      ServeWithoutRoom(s.total, stays, Drop(s.holders, k), s.waitings);
    } else if stays <= s.total {
      ServeFromAnywhere(s.total, stays, Drop(s.holders, k), s.waitings);
    } else {
      WaitersNeedTotal(s);
    }
  }

  predicate Keeps(s: Pool, e: Event) {
    match e
    case LockMsg(conn, quantity, wait) => RequestKeeps(s, quantity)
    case UnlockMsg(conn, name) => name == s.name ==> ReleaseKeeps(s, conn)
    case Disconnect(conn) => ReleaseKeeps(s, conn)
  }

  /** What a message needs to keep the accounts, from every state that has
      them. */
  lemma StepAccountsExactly(s: Pool, e: Event)
    requires Accounted(s)
    ensures Accounted(Step(s, e)) <==> Keeps(s, e)
  {
    match e
    case LockMsg(conn, quantity, wait) => RequestKeepsExactly(s, conn, quantity, wait);
    case UnlockMsg(conn, name) => ReleaseKeepsExactly(s, conn);
    case Disconnect(conn) => ReleaseKeepsExactly(s, conn);
  }

  // ----- runs ---------------------------------------------------------------

  predicate AlwaysKeeps(s: Pool, es: seq<Event>)
    decreases |es|
  {
    es == [] || (Keeps(s, es[0]) && AlwaysKeeps(Step(s, es[0]), es[1..]))
  }

  predicate StaysAccounted(s: Pool, es: seq<Event>)
    decreases |es|
  {
    Accounted(s) && (es == [] || StaysAccounted(Step(s, es[0]), es[1..]))
  }

  lemma {:induction false} RunAccountsExactly(s: Pool, es: seq<Event>)
    requires Accounted(s)
    ensures StaysAccounted(s, es) <==> AlwaysKeeps(s, es)
    decreases |es|
  {
    if es == [] {
    } else {
      StepAccountsExactly(s, es[0]);
      if Keeps(s, es[0]) {
        RunAccountsExactly(Step(s, es[0]), es[1..]);
      } else {
        assert !StaysAccounted(Step(s, es[0]), es[1..]);
      }
    }
  }

  /** Of all runs of a new pool, those that keep the accounts after every
      message are exactly those in which no message breaks them; and no message
      does if no quantity is negative, unless it exceeds even the total. */
  lemma AllRunsAccountedExactly(name: string, total: int32, es: seq<Event>)
    ensures StaysAccounted(Init(name, total), es) <==> AlwaysKeeps(Init(name, total), es)
    ensures AllHarmless(total, es) ==> AlwaysKeeps(Init(name, total), es)
  {
    RunAccountsExactly(Init(name, total), es);
    if AllHarmless(total, es) { HarmlessStaysAccounted(Init(name, total), es); }
  }

  lemma {:induction false} HarmlessStaysAccounted(s: Pool, es: seq<Event>)
    requires Sound(s) && AllHarmless(s.total, es)
    ensures StaysAccounted(s, es)
    decreases |es|
  {
    if es == [] {
    } else {
      StepKeepsSound(s, es[0]);
      assert forall i | 0 <= i < |es[1..]| :: es[1..][i] == es[i + 1];
      HarmlessStaysAccounted(Step(s, es[0]), es[1..]);
    }
  }

  /** A quantity is safe to ask for after every earlier history of harmless
      requests exactly when it is harmless itself. */
  lemma RequestSafeExactly(name: string, total: int32, quantity: int32)
    ensures (forall es: seq<Event>, conn, wait | AllHarmless(total, es) ::
               Accounted(Step(Run(Init(name, total), es), LockMsg(conn, quantity, wait))))
            <==> quantity >= 0 || quantity > total
  {
    if quantity >= 0 || quantity > total {
      forall es: seq<Event>, conn, wait | AllHarmless(total, es)
        ensures Accounted(Step(Run(Init(name, total), es), LockMsg(conn, quantity, wait)))
      {
        RunKeepsSound(Init(name, total), es);
        StepKeepsSound(Run(Init(name, total), es), LockMsg(conn, quantity, wait));
      }
    } else {
      StepAccountsExactly(Init(name, total), LockMsg(0, quantity, true));
      assert AllHarmless(total, []) && Run(Init(name, total), []) == Init(name, total);
      assert !Accounted(Step(Run(Init(name, total), []), LockMsg(0, quantity, true)));
    }
  }

  /** A negative request can be survived: with a total of 5, after 3 and -2 the
      pool has 1 locked. The release of the 3 is not: it leaves -2 locked. */
  lemma NegativeRequestCanPass(name: string)
    ensures var es := [LockMsg(1, 3, true), LockMsg(2, -2, true)];
            && StaysAccounted(Init(name, 5), es)
            && !StaysAccounted(Init(name, 5), es + [Disconnect(1)])
  {
    var a, b, c := LockMsg(1, 3, true), LockMsg(2, -2, true), Disconnect(1);
    var s0 := Init(name, 5);
    var s1 := Pool(name, 5, 3, [Record(1, 3)], []);
    var s2 := Pool(name, 5, 1, [Record(2, -2), Record(1, 3)], []);
    assert Step(s0, a) == s1 && Step(s1, b) == s2;
    StepAccountsExactly(s0, a);
    StepAccountsExactly(s1, b);
    assert FirstWith(s2.holders, 1) == 1;
    StepAccountsExactly(s2, c);
    assert [a, b][1..] == [b] && [b][1..] == [];
    assert StaysAccounted(s1, [b]);
    assert [a, b] + [c] == [a, b, c] && [a, b, c][1..] == [b, c] && [b, c][1..] == [c] && [c][1..] == [];
    assert !StaysAccounted(s2, [c]) && !StaysAccounted(s1, [b, c]);
  }
}
