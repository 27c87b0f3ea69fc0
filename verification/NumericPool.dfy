/** The numeric resource as a state machine: a counted pool whose waiters are
    woken first-fit. What every run with non-negative quantities keeps. */
module NumericPool {
  import opened Answers
  import opened Records
  import opened Words

  type Request = Record<int32>

  datatype Pool = Pool(name: string, total: int32, locked: int32, holders: seq<Request>, waitings: seq<Request>)

  function Init(name: string, total: int32): Pool {
    Pool(name, total, 0, [], [])
  }

  // ----- flom_resource_numeric_can_lock -------------------------------------

  /** The subtraction is done in 32 bits. */
  predicate CanLock(total: int32, locked: int32, quantity: int32) {
    Wrap(total - locked) >= quantity
  }

  // ----- flom_resource_numeric_waitings -------------------------------------

  datatype Served = Served(locked: int32, holders: seq<Request>, rest: seq<Request>, granted: seq<Request>)

  /** One left-to-right pass over the queue. */
  function Serve(total: int32, locked: int32, holders: seq<Request>, queue: seq<Request>): Served
    decreases |queue|
  {
    if queue == [] then Served(locked, holders, [], [])
    else
      var w := queue[0];
      if CanLock(total, locked, w.info) then
        var s := Serve(total, Wrap(locked + w.info), [w] + holders, queue[1..]);
        s.(granted := [w] + s.granted)
      else
        var s := Serve(total, locked, holders, queue[1..]);
        s.(rest := [w] + s.rest)
  }

  // ----- flom_resource_numeric_clean ----------------------------------------

  datatype Cleaned = Cleaned(pool: Pool, granted: seq<Request>)

  function Clean(s: Pool, conn: Conn): Cleaned {
    var k := FirstWith(s.holders, conn);
    if k < |s.holders| then
      var served := Serve(s.total, Wrap(s.locked - s.holders[k].info), Drop(s.holders, k), s.waitings);
      Cleaned(Pool(s.name, s.total, served.locked, served.holders, served.rest), served.granted)
    else
      var j := FirstWith(s.waitings, conn);
      Cleaned(s.(waitings := if j < |s.waitings| then Drop(s.waitings, j) else s.waitings), [])
  }

  // ----- flom_resource_numeric_inmsg ----------------------------------------

  datatype Locked = Locked(pool: Pool, rc: Rc)

  function Lock(s: Pool, conn: Conn, quantity: int32, wait: bool): Locked {
    if CanLock(s.total, s.locked, quantity) then
      Locked(s.(holders := [Record(conn, quantity)] + s.holders, locked := Wrap(s.locked + quantity)), Ok)
    else if quantity > s.total then
      Locked(s, Impossible)
    else if wait then
      Locked(s.(waitings := s.waitings + [Record(conn, quantity)]), Enqueued)
    else
      Locked(s, Busy)
  }

  /** Another name is refused and changes nothing. */
  function Unlock(s: Pool, conn: Conn, name: string): Cleaned {
    if name == s.name then Clean(s, conn) else Cleaned(s, [])
  }

  datatype Event =
    | LockMsg(conn: Conn, quantity: int32, wait: bool)
    | UnlockMsg(conn: Conn, name: string)
    | Disconnect(conn: Conn)

  function Step(s: Pool, e: Event): Pool {
    match e
    case LockMsg(conn, quantity, wait) => Lock(s, conn, quantity, wait).pool
    case UnlockMsg(conn, name) => Unlock(s, conn, name).pool
    case Disconnect(conn) => Clean(s, conn).pool
  }

  function Run(s: Pool, es: seq<Event>): Pool
    decreases |es|
  {
    if es == [] then s else Run(Step(s, es[0]), es[1..])
  }

  // ----- the accounts -------------------------------------------------------

  function Sum(rs: seq<Request>): int {
    if rs == [] then 0 else rs[0].info + Sum(rs[1..])
  }

  lemma {:induction false} SumDrop(rs: seq<Request>, k: nat)
    requires k < |rs|
    ensures Sum(Drop(rs, k)) == Sum(rs) - rs[k].info
  {
    if k == 0 {
      assert Drop(rs, 0) == rs[1..];
    } else {
      SumDrop(rs[1..], k - 1);
      assert Drop(rs, k) == [rs[0]] + Drop(rs[1..], k - 1);
    }
  }

  lemma SumCons(r: Request, rs: seq<Request>)
    ensures Sum([r] + rs) == r.info + Sum(rs)
  {
    assert ([r] + rs)[1..] == rs;
  }

  lemma {:induction false} SumNotNegative(rs: seq<Request>)
    requires NoneNegative(rs)
    ensures Sum(rs) >= 0
    ensures forall i | 0 <= i < |rs| :: rs[i].info <= Sum(rs)
  {
    if rs == [] {
    } else {
      SumNotNegative(rs[1..]);
      assert forall i | 1 <= i < |rs| :: rs[i] == rs[1..][i - 1];
    }
  }

  predicate NoneNegative(rs: seq<Request>) {
    forall i | 0 <= i < |rs| :: rs[i].info >= 0
  }

  /** What is locked is what the holders hold, and never more than the total. */
  predicate Balanced(total: int32, locked: int32, holders: seq<Request>) {
    locked == Sum(holders) && 0 <= locked && (locked <= total || locked == 0)
  }

  /** A waiter asks for more than is free but not more than there is. */
  predicate MustWait(total: int32, locked: int32, quantity: int32) {
    total - locked < quantity <= total
  }

  predicate AllMustWait(total: int32, locked: int32, queue: seq<Request>) {
    forall i | 0 <= i < |queue| :: MustWait(total, locked, queue[i].info)
  }

  /** The accounts: what the resource is there to keep. */
  predicate Accounted(s: Pool) {
    Balanced(s.total, s.locked, s.holders) && AllMustWait(s.total, s.locked, s.waitings)
  }

  /** The accounts and what keeps them: nobody holds or asks a negative
      quantity. */
  predicate Sound(s: Pool) {
    Accounted(s) && NoneNegative(s.holders) && NoneNegative(s.waitings)
  }

  /** In a balanced pool the 32-bit arithmetic is exact. */
  lemma NoOverflow(total: int32, locked: int32, holders: seq<Request>, quantity: int32)
    requires Balanced(total, locked, holders) && quantity >= 0
    ensures Fits(total - locked)
    ensures CanLock(total, locked, quantity) <==> quantity <= total - locked
    ensures CanLock(total, locked, quantity) ==> Fits(locked + quantity)
  {
  }

  lemma GrantKeepsBalance(total: int32, locked: int32, holders: seq<Request>, w: Request)
    requires Balanced(total, locked, holders) && w.info >= 0 && CanLock(total, locked, w.info)
    ensures Wrap(locked + w.info) == locked + w.info
    ensures Balanced(total, Wrap(locked + w.info), [w] + holders)
  {
    NoOverflow(total, locked, holders, w.info);
    SumCons(w, holders);
  }

  /** A pass keeps the balance, and whoever is left must still wait. */
  lemma {:induction false} ServeKeepsBalance(total: int32, locked: int32, holders: seq<Request>, queue: seq<Request>)
    requires Balanced(total, locked, holders) && NoneNegative(holders) && NoneNegative(queue)
    requires forall i | 0 <= i < |queue| :: queue[i].info <= total
    ensures var s := Serve(total, locked, holders, queue);
            && Balanced(total, s.locked, s.holders) && s.locked >= locked
            && NoneNegative(s.holders) && NoneNegative(s.rest)
            && AllMustWait(total, s.locked, s.rest)
    decreases |queue|
  {
    if queue == [] {
    } else {
      var w := queue[0];
      assert forall i | 0 <= i < |queue[1..]| :: queue[1..][i] == queue[i + 1];
      NoOverflow(total, locked, holders, w.info);
      if CanLock(total, locked, w.info) {
        GrantKeepsBalance(total, locked, holders, w);
        ServeKeepsBalance(total, Wrap(locked + w.info), [w] + holders, queue[1..]);
      } else {
        ServeKeepsBalance(total, locked, holders, queue[1..]);
      }
    }
  }

  lemma CleanKeepsSound(s: Pool, conn: Conn)
    requires Sound(s)
    ensures Sound(Clean(s, conn).pool)
  {
    var k := FirstWith(s.holders, conn);
    if k < |s.holders| {
      SumDrop(s.holders, k);
      SumNotNegative(s.holders);
      SumNotNegative(Drop(s.holders, k));
      assert NoneNegative(Drop(s.holders, k));
      ServeKeepsBalance(s.total, s.locked - s.holders[k].info, Drop(s.holders, k), s.waitings);
    }
  }

  /** A request the accounts survive: it is not negative, or so much above a
      negative total that it is refused. */
  predicate Harmless(total: int32, e: Event) {
    e.LockMsg? ==> e.quantity >= 0 || e.quantity > total
  }

  lemma StepKeepsSound(s: Pool, e: Event)
    requires Sound(s) && Harmless(s.total, e)
    ensures Sound(Step(s, e)) && Step(s, e).total == s.total
  {
    match e
    case LockMsg(conn, quantity, wait) =>
      if quantity >= 0 {
        NoOverflow(s.total, s.locked, s.holders, quantity);
        if CanLock(s.total, s.locked, quantity) {
          GrantKeepsBalance(s.total, s.locked, s.holders, Record(conn, quantity));
        }
      }
    case UnlockMsg(conn, name) =>
      CleanKeepsSound(s, conn);
    case Disconnect(conn) =>
      CleanKeepsSound(s, conn);
  }

  predicate AllHarmless(total: int32, es: seq<Event>) {
    forall i | 0 <= i < |es| :: Harmless(total, es[i])
  }

  lemma {:induction false} RunKeepsSound(s: Pool, es: seq<Event>)
    requires Sound(s) && AllHarmless(s.total, es)
    ensures Sound(Run(s, es)) && Run(s, es).total == s.total
    decreases |es|
  {
    if es == [] {
    } else {
      StepKeepsSound(s, es[0]);
      assert forall i | 0 <= i < |es[1..]| :: es[1..][i] == es[i + 1];
      RunKeepsSound(Step(s, es[0]), es[1..]);
    }
  }

  lemma WaitersHaveHolders(s: Pool)
    requires Accounted(s) && s.waitings != []
    ensures s.holders != []
  {
    var w := s.waitings[0];
    assert MustWait(s.total, s.locked, w.info);
  }

  /** Conservation and bounds over whole runs. */
  lemma RunBalances(name: string, total: int32, es: seq<Event>)
    requires AllHarmless(total, es)
    ensures var s := Run(Init(name, total), es);
            && s.locked == Sum(s.holders)
            && 0 <= s.locked && (total >= 0 ==> s.locked <= total)
            && Fits(s.total - s.locked)
            && (forall i | 0 <= i < |s.waitings| :: MustWait(total, s.locked, s.waitings[i].info))
            && (s.holders == [] ==> s.waitings == [])
  {
    RunKeepsSound(Init(name, total), es);
    var s := Run(Init(name, total), es);
    if s.waitings != [] { WaitersHaveHolders(s); }
  }

  // ----- who is refused for good --------------------------------------------

  /** A request is answered with "impossible" exactly when it exceeds the
      total, and then it is in every reachable state: nothing that can happen
      would make it grantable. */
  lemma ImpossibleIsForEver(name: string, total: int32, es: seq<Event>, conn: Conn, quantity: int32, wait: bool)
    requires AllHarmless(total, es) && quantity >= 0
    ensures var s := Run(Init(name, total), es);
            && (Lock(s, conn, quantity, wait).rc == Impossible <==> quantity > total)
            && (quantity > total ==> !CanLock(s.total, s.locked, quantity))
  {
    RunKeepsSound(Init(name, total), es);
    var s := Run(Init(name, total), es);
    NoOverflow(s.total, s.locked, s.holders, quantity);
  }

  /** Any other request is granted by an idle pool. */
  lemma PossibleWhenIdle(s: Pool, conn: Conn, quantity: int32, wait: bool)
    requires Sound(s) && s.holders == [] && quantity >= 0
    ensures Lock(s, conn, quantity, wait).rc == (if quantity <= s.total then Ok else Impossible)
  {
    NoOverflow(s.total, s.locked, s.holders, quantity);
  }

  /** What a request leads to: all of it fits what is free, or it never can,
      or it waits at the end of the queue if it wants to. */
  lemma LockMeans(s: Pool, conn: Conn, quantity: int32, wait: bool)
    requires Sound(s) && quantity >= 0
    ensures var l := Lock(s, conn, quantity, wait);
            && (l.rc == Ok <==> quantity <= s.total - s.locked)
            && (l.rc == Impossible <==> quantity > s.total)
            && (l.rc == Enqueued <==> MustWait(s.total, s.locked, quantity) && wait)
            && (l.rc == Busy <==> MustWait(s.total, s.locked, quantity) && !wait)
            && l.pool.locked == s.locked + (if l.rc == Ok then quantity else 0)
            && l.pool.holders == (if l.rc == Ok then [Record(conn, quantity)] else []) + s.holders
            && l.pool.waitings == s.waitings + (if l.rc == Enqueued then [Record(conn, quantity)] else [])
  {
    NoOverflow(s.total, s.locked, s.holders, quantity);
    assert s.waitings + [] == s.waitings && [] + s.holders == s.holders;
  }

  // ----- first fit ----------------------------------------------------------

  /** The entries of a queue whose mark is `v`, in order. */
  function Select(queue: seq<Request>, marks: seq<bool>, v: bool): (r: seq<Request>)
    requires |marks| == |queue|
    decreases |queue|
  {
    if queue == [] then []
    else
      var n := |queue| - 1;
      var before := Select(queue[..n], marks[..n], v);
      if marks[n] == v then before + [queue[n]] else before
  }

  /** A request is marked exactly when it fits the room that the marked
      requests before it leave. */
  predicate FirstFit(room: int, queue: seq<Request>, marks: seq<bool>)
    decreases |queue|
  {
    && |marks| == |queue|
    && forall i | 0 <= i < |queue| ::
         marks[i] <==> queue[i].info <= room - Sum(Select(queue[..i], marks[..i], true))
  }

  lemma {:induction false} FirstFitUnique(room: int, queue: seq<Request>, a: seq<bool>, b: seq<bool>)
    requires FirstFit(room, queue, a) && FirstFit(room, queue, b)
    ensures a == b
    decreases |queue|
  {
    if queue == [] {
    } else {
      var n := |queue| - 1;
      FirstFitPrefix(room, queue, a);
      FirstFitPrefix(room, queue, b);
      FirstFitUnique(room, queue[..n], a[..n], b[..n]);
      assert a[n] <==> queue[n].info <= room - Sum(Select(queue[..n], a[..n], true));
      assert b[n] <==> queue[n].info <= room - Sum(Select(queue[..n], b[..n], true));
      assert a == a[..n] + [a[n]] && b == b[..n] + [b[n]];
    }
  }

  lemma FirstFitPrefix(room: int, queue: seq<Request>, marks: seq<bool>)
    requires FirstFit(room, queue, marks) && queue != []
    ensures FirstFit(room, queue[..|queue| - 1], marks[..|queue| - 1])
  {
    var n := |queue| - 1;
    forall i | 0 <= i < n
      ensures marks[..n][i] <==> queue[..n][i].info <= room - Sum(Select(queue[..n][..i], marks[..n][..i], true))
    {
      assert queue[..n][..i] == queue[..i] && marks[..n][..i] == marks[..i];
    }
  }

  /** A pass with one more waiter at its end. */
  function WithLast(s: Served, w: Request, can: bool): Served {
    if can then Served(Wrap(s.locked + w.info), [w] + s.holders, s.rest, s.granted + [w])
    else Served(s.locked, s.holders, s.rest + [w], s.granted)
  }

  /** The last waiter is judged by the room all earlier ones left. */
  lemma {:induction false} ServeLast(total: int32, locked: int32, holders: seq<Request>, queue: seq<Request>,
                                     w: Request)
    ensures var s := Serve(total, locked, holders, queue);
            Serve(total, locked, holders, queue + [w]) == WithLast(s, w, CanLock(total, s.locked, w.info))
    decreases |queue|
  {
    if queue == [] {
      assert queue + [w] == [w] && [w][1..] == [];
    } else {
      var v := queue[0];
      assert (queue + [w])[1..] == queue[1..] + [w];
      if CanLock(total, locked, v.info) {
        ServeLast(total, Wrap(locked + v.info), [v] + holders, queue[1..], w);
        var s := Serve(total, Wrap(locked + v.info), [v] + holders, queue[1..]);
        WithLastCons(s, v, w, CanLock(total, s.locked, w.info));
      } else {
        ServeLast(total, locked, holders, queue[1..], w);
        var s := Serve(total, locked, holders, queue[1..]);
        WithLastCons(s, v, w, CanLock(total, s.locked, w.info));
      }
    }
  }

  lemma WithLastCons(s: Served, v: Request, w: Request, can: bool)
    ensures WithLast(s.(granted := [v] + s.granted), w, can)
         == (var l := WithLast(s, w, can); l.(granted := [v] + l.granted))
    ensures WithLast(s.(rest := [v] + s.rest), w, can) == (var l := WithLast(s, w, can); l.(rest := [v] + l.rest))
  {
    assert [v] + (s.granted + [w]) == [v] + s.granted + [w];
    assert [v] + (s.rest + [w]) == [v] + s.rest + [w];
  }

  lemma SumSnoc(rs: seq<Request>, r: Request)
    ensures Sum(rs + [r]) == Sum(rs) + r.info
  {
    if rs == [] {
      assert [] + [r] == [r];
    } else {
      SumSnoc(rs[1..], r);
      assert (rs + [r])[1..] == rs[1..] + [r];
    }
  }

  /** The holders after `granted` were put in front of them one by one. */
  function Pushed(granted: seq<Request>, holders: seq<Request>): seq<Request>
    decreases |granted|
  {
    if granted == [] then holders
    else [granted[|granted| - 1]] + Pushed(granted[..|granted| - 1], holders)
  }

  /** The marked waiters are granted and the others kept, both in queue order,
      and what is locked grows by what is granted. */
  predicate Grants(s: Served, locked: int32, holders: seq<Request>, queue: seq<Request>, marks: seq<bool>)
    requires |marks| == |queue|
  {
    && s.granted == Select(queue, marks, true)
    && s.rest == Select(queue, marks, false)
    && s.locked == locked + Sum(s.granted)
    && s.holders == Pushed(s.granted, holders)
  }

  /** The pass is first fit. */
  lemma {:induction false} ServeIsFirstFit(total: int32, locked: int32, holders: seq<Request>, queue: seq<Request>)
    returns (marks: seq<bool>)
    requires Balanced(total, locked, holders) && NoneNegative(holders) && NoneNegative(queue)
    requires forall i | 0 <= i < |queue| :: queue[i].info <= total
    ensures FirstFit(total - locked, queue, marks)
    ensures Grants(Serve(total, locked, holders, queue), locked, holders, queue, marks)
    decreases |queue|
  {
    if queue == [] {
      marks := [];
    } else {
      var n := |queue| - 1;
      var before, w := queue[..n], queue[n];
      assert queue == before + [w];
      marks := ServeIsFirstFit(total, locked, holders, before);
      ServeKeepsBalance(total, locked, holders, before);
      ServeGrantsLast(total, locked, holders, before, w, marks);
      FirstFitSnoc(total - locked, before, w, marks);
      marks := marks + [w.info <= total - locked - Sum(Select(before, marks, true))];
    }
  }

  lemma ServeGrantsLast(total: int32, locked: int32, holders: seq<Request>, queue: seq<Request>, w: Request,
                        marks: seq<bool>)
    requires w.info >= 0 && |marks| == |queue|
    requires var s := Serve(total, locked, holders, queue);
             Balanced(total, s.locked, s.holders) && Grants(s, locked, holders, queue, marks)
    ensures var fits := w.info <= total - locked - Sum(Select(queue, marks, true));
            Grants(Serve(total, locked, holders, queue + [w]), locked, holders, queue + [w], marks + [fits])
  {
    var s := Serve(total, locked, holders, queue);
    NoOverflow(total, s.locked, s.holders, w.info);
    ServeLast(total, locked, holders, queue, w);
    GrantLast(s, locked, holders, queue, w, marks, w.info <= total - s.locked);
  }

  lemma GrantLast(s: Served, locked: int32, holders: seq<Request>, queue: seq<Request>, w: Request, marks: seq<bool>,
                  fits: bool)
    requires |marks| == |queue| && Grants(s, locked, holders, queue, marks) && (fits ==> Fits(s.locked + w.info))
    ensures Grants(WithLast(s, w, fits), locked, holders, queue + [w], marks + [fits])
  {
    SelectSnoc(queue, marks, w, fits);
    SumSnoc(s.granted, w);
    PushedSnoc(s.granted, holders, w);
  }

  lemma SelectSnoc(queue: seq<Request>, marks: seq<bool>, w: Request, v: bool)
    requires |marks| == |queue|
    ensures Select(queue + [w], marks + [v], v) == Select(queue, marks, v) + [w]
    ensures Select(queue + [w], marks + [v], !v) == Select(queue, marks, !v)
  {
    assert (queue + [w])[..|queue|] == queue && (marks + [v])[..|queue|] == marks;
  }

  lemma FirstFitSnoc(room: int, queue: seq<Request>, w: Request, marks: seq<bool>)
    requires FirstFit(room, queue, marks)
    ensures var v := w.info <= room - Sum(Select(queue, marks, true));
            FirstFit(room, queue + [w], marks + [v])
  {
    var v := w.info <= room - Sum(Select(queue, marks, true));
    var longer, all := queue + [w], marks + [v];
    var n := |queue|;
    assert longer[..n] == queue && all[..n] == marks;
    forall i | 0 <= i <= n
      ensures all[i] <==> longer[i].info <= room - Sum(Select(longer[..i], all[..i], true))
    {
      assert longer[..i] == queue[..i] && all[..i] == marks[..i];
    }
  }

  lemma PushedSnoc(granted: seq<Request>, holders: seq<Request>, w: Request)
    ensures Pushed(granted + [w], holders) == [w] + Pushed(granted, holders)
  {
    assert (granted + [w])[..|granted|] == granted;
  }

  // ----- nobody is lost -----------------------------------------------------

  function Everybody(s: Pool): multiset<Request> {
    multiset(s.holders) + multiset(s.waitings)
  }

  lemma {:induction false} ServePartition(total: int32, locked: int32, holders: seq<Request>, queue: seq<Request>)
    ensures var s := Serve(total, locked, holders, queue);
            multiset(s.holders) + multiset(s.rest) == multiset(holders) + multiset(queue)
    decreases |queue|
  {
    if queue == [] {
    } else {
      var w := queue[0];
      var all := Serve(total, locked, holders, queue);
      if CanLock(total, locked, w.info) {
        var s := Serve(total, Wrap(locked + w.info), [w] + holders, queue[1..]);
        assert all.holders == s.holders && all.rest == s.rest;
        ServePartition(total, Wrap(locked + w.info), [w] + holders, queue[1..]);
        FirstMoves(holders, queue);
      } else {
        var s := Serve(total, locked, holders, queue[1..]);
        assert all.holders == s.holders && all.rest == [w] + s.rest;
        ServePartition(total, locked, holders, queue[1..]);
        FirstStays(s.holders, s.rest, holders, queue);
      }
    }
  }

  lemma FirstMoves(holders: seq<Request>, queue: seq<Request>)
    requires queue != []
    ensures multiset([queue[0]] + holders) + multiset(queue[1..]) == multiset(holders) + multiset(queue)
  {
    assert queue == [queue[0]] + queue[1..];
    ConsContents(queue[0], holders);
    ConsContents(queue[0], queue[1..]);
    Move(queue[0], multiset(holders), multiset(queue[1..]));
  }

  lemma FirstStays(after: seq<Request>, rest: seq<Request>, holders: seq<Request>, queue: seq<Request>)
    requires queue != [] && multiset(after) + multiset(rest) == multiset(holders) + multiset(queue[1..])
    ensures multiset(after) + multiset([queue[0]] + rest) == multiset(holders) + multiset(queue)
  {
    FirstMoves(holders, queue);
    ConsContents(queue[0], holders);
    ConsContents(queue[0], rest);
    Move(queue[0], multiset(after), multiset(rest));
    Move(queue[0], multiset(holders), multiset(queue[1..]));
  }

  /** The record a connection leaves behind: a held one first. */
  function Leaving(s: Pool, conn: Conn): multiset<Request> {
    var k, j := FirstWith(s.holders, conn), FirstWith(s.waitings, conn);
    if k < |s.holders| then multiset{s.holders[k]}
    else if j < |s.waitings| then multiset{s.waitings[j]}
    else multiset{}
  }

  lemma HolderLeaves(s: Pool, conn: Conn)
    requires FirstWith(s.holders, conn) < |s.holders|
    ensures Everybody(s) == Everybody(Clean(s, conn).pool) + multiset{s.holders[FirstWith(s.holders, conn)]}
  {
    var k := FirstWith(s.holders, conn);
    var hs := Drop(s.holders, k);
    var served := Serve(s.total, Wrap(s.locked - s.holders[k].info), hs, s.waitings);
    assert Clean(s, conn).pool == Pool(s.name, s.total, served.locked, served.holders, served.rest);
    DropContents(s.holders, k);
    ServePartition(s.total, Wrap(s.locked - s.holders[k].info), hs, s.waitings);
    Regroup(multiset(hs), multiset(s.waitings), multiset(served.holders), multiset(served.rest), s.holders[k]);
  }

  /** A pass keeps the order of those it grants and of those it leaves. */
  lemma {:induction false} ServeKeepsOrder(total: int32, locked: int32, holders: seq<Request>, queue: seq<Request>)
    ensures var s := Serve(total, locked, holders, queue);
            Subsequence(s.rest, queue) && Subsequence(s.granted, queue)
    decreases |queue|
  {
    if queue == [] {
    } else {
      var w := queue[0];
      var can := CanLock(total, locked, w.info);
      var locked1, holders1 := if can then Wrap(locked + w.info) else locked, if can then [w] + holders else holders;
      var s := Serve(total, locked1, holders1, queue[1..]);
      assert [w] + queue[1..] == queue;
      ServeKeepsOrder(total, locked1, holders1, queue[1..]);
      SubsequenceLater(s.rest, w, queue[1..]);
      SubsequenceLater(s.granted, w, queue[1..]);
    }
  }

  /** A clean-up keeps the order of the queue. If the connection holds nothing,
      its first request leaves the queue, if it has any, and nothing else
      changes. */
  lemma CleanQueue(s: Pool, conn: Conn)
    ensures var c := Clean(s, conn);
            && Subsequence(c.pool.waitings, s.waitings) && Subsequence(c.granted, s.waitings)
            && ((forall i | 0 <= i < |s.holders| :: s.holders[i].conn != conn) ==>
                  && c.granted == [] && c.pool == s.(waitings := c.pool.waitings)
                  && LosesFirst(s.waitings, c.pool.waitings, ConnOf, conn))
  {
    var k := FirstWith(s.holders, conn);
    if k < |s.holders| {
      ServeKeepsOrder(s.total, Wrap(s.locked - s.holders[k].info), Drop(s.holders, k), s.waitings);
    } else {
      DropFirstPicks(s.waitings, ConnOf, conn);
      SubsequenceSame(s.waitings);
    }
  }

  lemma CleanConserves(s: Pool, conn: Conn)
    ensures Everybody(s) == Everybody(Clean(s, conn).pool) + Leaving(s, conn)
  {
    var j := FirstWith(s.waitings, conn);
    if FirstWith(s.holders, conn) < |s.holders| {
      HolderLeaves(s, conn);
    } else if j < |s.waitings| {
      DropContents(s.waitings, j);
      Move(s.waitings[j], multiset(s.holders), multiset(Drop(s.waitings, j)));
    }
  }

  /** A message changes the holders and waiters, taken together, only by the
      request that arrives or the one that leaves. */
  lemma StepConserves(s: Pool, e: Event)
    ensures match e
            case LockMsg(conn, quantity, wait) =>
              Everybody(Step(s, e)) == Everybody(s) +
                if Lock(s, conn, quantity, wait).rc in {Ok, Enqueued} then multiset{Record(conn, quantity)}
                else multiset{}
            case UnlockMsg(conn, name) =>
              Everybody(s) == Everybody(Step(s, e)) + if name == s.name then Leaving(s, conn) else multiset{}
            case Disconnect(conn) =>
              Everybody(s) == Everybody(Step(s, e)) + Leaving(s, conn)
  {
    if !e.LockMsg? { CleanConserves(s, e.conn); }
  }
}
