/** The sequence resource as a state machine: it hands out the values 1, 2, 3
    and so on, one to each holder, and takes back those that were not committed.
    What every run keeps, before and after the 32-bit counter wraps. */
module SequenceValues {
  import opened Answers
  import opened Records
  import opened Words

  datatype Slot = Slot(value: uint32, rollback: bool)

  type Holding = Record<Slot>

  /** What a grant changes. `rolledBack` is absent when the sequence is not
      transactional. */
  datatype Stock = Stock(locked: int32, next: uint32, rolledBack: Option<seq<uint32>>, holders: seq<Holding>)

  datatype Sequence = Sequence(name: string, total: int32, stock: Stock, waitings: seq<Conn>)

  function Init(name: string, total: int32, transactional: bool): Sequence {
    Sequence(name, total, Stock(0, 1, if transactional then Some([]) else None, []), [])
  }

  // ----- flom_resource_sequence_can_lock ------------------------------------

  predicate CanLock(total: int32, locked: int32) {
    Wrap(total - locked) > 0
  }

  // ----- flom_resource_sequence_get -----------------------------------------

  datatype Drawn = Drawn(value: uint32, next: uint32, rolledBack: Option<seq<uint32>>, issued: seq<uint32>)

  /** A zero at the head of the queue would look like an empty queue and be
      lost; the counter skips zero for that reason. */
  function Get(next: uint32, rolledBack: Option<seq<uint32>>): Drawn {
    if rolledBack.Some? && rolledBack.value != [] && rolledBack.value[0] != 0 then
      Drawn(rolledBack.value[0], next, Some(rolledBack.value[1..]), [])
    else
      var rest := if rolledBack.Some? && rolledBack.value != [] then Some(rolledBack.value[1..]) else rolledBack;
      var v := if next != 0 then next else Increment(next);
      Drawn(v, Increment(v), rest, [v])
  }

  // ----- flom_resource_sequence_waitings ------------------------------------

  datatype Granted = Granted(stock: Stock, holding: Holding, issued: seq<uint32>)

  function Grant(t: Stock, conn: Conn): Granted {
    var d := Get(t.next, t.rolledBack);
    var h := Record(conn, Slot(d.value, true));
    Granted(Stock(Wrap(t.locked + 1), d.next, d.rolledBack, [h] + t.holders), h, d.issued)
  }

  datatype Served = Served(stock: Stock, rest: seq<Conn>, granted: seq<Holding>, issued: seq<uint32>)

  function Serve(total: int32, t: Stock, queue: seq<Conn>): Served
    decreases |queue|
  {
    if queue == [] then Served(t, [], [], [])
    else if CanLock(total, t.locked) then
      var g := Grant(t, queue[0]);
      var s := Serve(total, g.stock, queue[1..]);
      s.(granted := [g.holding] + s.granted, issued := g.issued + s.issued)
    else
      var s := Serve(total, t, queue[1..]);
      s.(rest := [queue[0]] + s.rest)
  }

  /** The last waiter is judged against what all earlier ones left. */
  lemma {:induction false} ServeLast(total: int32, t: Stock, queue: seq<Conn>, conn: Conn)
    ensures Serve(total, t, queue + [conn]) ==
            var s := Serve(total, t, queue);
            if CanLock(total, s.stock.locked) then
              var g := Grant(s.stock, conn);
              Served(g.stock, s.rest, s.granted + [g.holding], s.issued + g.issued)
            else Served(s.stock, s.rest + [conn], s.granted, s.issued)
    decreases |queue|
  {
    if queue == [] {
      assert queue + [conn] == [conn] && [conn][1..] == [];
    } else {
      assert (queue + [conn])[1..] == queue[1..] + [conn];
      if CanLock(total, t.locked) {
        var g := Grant(t, queue[0]);
        ServeLast(total, g.stock, queue[1..], conn);
        var s := Serve(total, g.stock, queue[1..]);
        var last := Grant(s.stock, conn);
        assert [g.holding] + (s.granted + [last.holding]) == [g.holding] + s.granted + [last.holding];
        assert g.issued + (s.issued + last.issued) == g.issued + s.issued + last.issued;
      } else {
        ServeLast(total, t, queue[1..], conn);
        var s := Serve(total, t, queue[1..]);
        assert [queue[0]] + (s.rest + [conn]) == [queue[0]] + s.rest + [conn];
      }
    }
  }

  // ----- flom_resource_sequence_clean ---------------------------------------

  /** `issued` lists the values drawn from the counter, `spent` those that left
      a holder without coming back. */
  datatype Cleaned = Cleaned(sequence: Sequence, granted: seq<Holding>, issued: seq<uint32>, spent: seq<uint32>)

  function PutBack(t: Stock, k: nat): Stock
    requires k < |t.holders|
  {
    var slot := t.holders[k].info;
    Stock(Wrap(t.locked - 1), t.next,
          if t.rolledBack.Some? && slot.rollback then Some(t.rolledBack.value + [slot.value]) else t.rolledBack,
          Drop(t.holders, k))
  }

  function Spent(t: Stock, k: nat): seq<uint32>
    requires k < |t.holders|
  {
    if t.rolledBack.Some? && t.holders[k].info.rollback then [] else [t.holders[k].info.value]
  }

  function Clean(s: Sequence, conn: Conn): Cleaned {
    var k := FirstWith(s.stock.holders, conn);
    if k < |s.stock.holders| then
      var served := Serve(s.total, PutBack(s.stock, k), s.waitings);
      Cleaned(Sequence(s.name, s.total, served.stock, served.rest), served.granted, served.issued, Spent(s.stock, k))
    else
      var j := FirstWaiting(s.waitings, conn);
      Cleaned(s.(waitings := if j < |s.waitings| then Drop(s.waitings, j) else s.waitings), [], [], [])
  }

  function Itself(conn: Conn): Conn { conn }

  function FirstWaiting(queue: seq<Conn>, conn: Conn): (k: nat)
    ensures k <= |queue|
    ensures conn !in queue[..k] && (k < |queue| ==> queue[k] == conn)
  {
    FirstBy(queue, Itself, conn)
  }

  // ----- flom_resource_sequence_inmsg ---------------------------------------

  datatype Locked = Locked(sequence: Sequence, rc: Rc, issued: seq<uint32>)

  function Lock(s: Sequence, conn: Conn, wait: bool): Locked {
    if CanLock(s.total, s.stock.locked) then
      var g := Grant(s.stock, conn);
      Locked(s.(stock := g.stock), Ok, g.issued)
    else if wait then
      Locked(s.(waitings := s.waitings + [conn]), Enqueued, [])
    else
      Locked(s, Busy, [])
  }

  datatype Refusal = Accepted | InvalidOption | ObjCorrupted

  function UnlockCheck(s: Sequence, conn: Conn, name: string): Refusal {
    if name != s.name then InvalidOption
    else if FirstWith(s.stock.holders, conn) == |s.stock.holders| then ObjCorrupted
    else Accepted
  }

  /** The message says whether the value is committed or rolled back. */
  function Marked(t: Stock, k: nat, rollback: bool): Stock
    requires k < |t.holders|
  {
    t.(holders := t.holders[k := t.holders[k].(info := t.holders[k].info.(rollback := rollback))])
  }

  function Unlock(s: Sequence, conn: Conn, name: string, rollback: bool): Cleaned {
    if UnlockCheck(s, conn, name) != Accepted then Cleaned(s, [], [], [])
    else Clean(s.(stock := Marked(s.stock, FirstWith(s.stock.holders, conn), rollback)), conn)
  }

  datatype Event =
    | LockMsg(conn: Conn, wait: bool)
    | UnlockMsg(conn: Conn, name: string, rollback: bool)
    | Disconnect(conn: Conn)

  datatype Moved = Moved(sequence: Sequence, issued: seq<uint32>, spent: seq<uint32>)

  function Step(s: Sequence, e: Event): Moved {
    match e
    case LockMsg(conn, wait) =>
      var l := Lock(s, conn, wait);
      Moved(l.sequence, l.issued, [])
    case UnlockMsg(conn, name, rollback) =>
      var c := Unlock(s, conn, name, rollback);
      Moved(c.sequence, c.issued, c.spent)
    case Disconnect(conn) =>
      var c := Clean(s, conn);
      Moved(c.sequence, c.issued, c.spent)
  }

  function Run(s: Sequence, es: seq<Event>): Moved
    decreases |es|
  {
    if es == [] then Moved(s, [], [])
    else
      var m := Step(s, es[0]);
      var r := Run(m.sequence, es[1..]);
      Moved(r.sequence, m.issued + r.issued, m.spent + r.spent)
  }

  // ----- zero is never issued -----------------------------------------------

  function RolledBack(t: Stock): seq<uint32> {
    if t.rolledBack.Some? then t.rolledBack.value else []
  }

  predicate NoZero(t: Stock) {
    && (forall i | 0 <= i < |t.holders| :: t.holders[i].info.value != 0)
    && 0 !in RolledBack(t)
  }

  lemma GrantKeepsNoZero(t: Stock, conn: Conn)
    requires NoZero(t)
    ensures NoZero(Grant(t, conn).stock)
  {
  }

  lemma {:induction false} ServeKeepsNoZero(total: int32, t: Stock, queue: seq<Conn>)
    requires NoZero(t)
    ensures NoZero(Serve(total, t, queue).stock)
    decreases |queue|
  {
    if queue == [] {
    } else {
      if CanLock(total, t.locked) {
        GrantKeepsNoZero(t, queue[0]);
        ServeKeepsNoZero(total, Grant(t, queue[0]).stock, queue[1..]);
      } else {
        ServeKeepsNoZero(total, t, queue[1..]);
      }
    }
  }

  lemma CleanKeepsNoZero(s: Sequence, conn: Conn)
    requires NoZero(s.stock)
    ensures NoZero(Clean(s, conn).sequence.stock)
  {
    var k := FirstWith(s.stock.holders, conn);
    if k < |s.stock.holders| {
      ServeKeepsNoZero(s.total, PutBack(s.stock, k), s.waitings);
    }
  }

  lemma StepKeepsNoZero(s: Sequence, e: Event)
    requires NoZero(s.stock)
    ensures NoZero(Step(s, e).sequence.stock)
  {
    match e
    case LockMsg(conn, wait) =>
      GrantKeepsNoZero(s.stock, conn);
    case UnlockMsg(conn, name, rollback) =>
      if UnlockCheck(s, conn, name) == Accepted {
        CleanKeepsNoZero(s.(stock := Marked(s.stock, FirstWith(s.stock.holders, conn), rollback)), conn);
      }
    case Disconnect(conn) =>
      CleanKeepsNoZero(s, conn);
  }

  lemma {:induction false} RunKeepsNoZero(s: Sequence, es: seq<Event>)
    requires NoZero(s.stock)
    ensures NoZero(Run(s, es).sequence.stock)
    decreases |es|
  {
    if es == [] {
    } else {
      StepKeepsNoZero(s, es[0]);
      RunKeepsNoZero(Step(s, es[0]).sequence, es[1..]);
    }
  }

  /** In every reachable state a draw takes the oldest rolled back value if
      there is one, and loses none. */
  lemma OldestRolledBackFirst(name: string, total: int32, transactional: bool, es: seq<Event>)
    ensures var t := Run(Init(name, total, transactional), es).sequence.stock;
            var d := Get(t.next, t.rolledBack);
            && d.value != 0
            && (d.issued == [] <==> RolledBack(t) != [])
            && (d.issued == [] ==> t.rolledBack == Some([d.value] + d.rolledBack.value))
            && (d.issued != [] ==> d.issued == [d.value] && d.rolledBack == t.rolledBack)
  {
    RunKeepsNoZero(Init(name, total, transactional), es);
    var rolled := RolledBack(Run(Init(name, total, transactional), es).sequence.stock);
    if rolled != [] { assert rolled == [rolled[0]] + rolled[1..]; }
  }

  // ----- where the values are -----------------------------------------------

  function Values(hs: seq<Holding>): multiset<uint32> {
    if hs == [] then multiset{} else multiset{hs[0].info.value} + Values(hs[1..])
  }

  function InPlay(t: Stock): multiset<uint32> {
    Values(t.holders) + multiset(RolledBack(t))
  }

  lemma ValuesCons(h: Holding, hs: seq<Holding>)
    ensures Values([h] + hs) == multiset{h.info.value} + Values(hs)
  {
    assert ([h] + hs)[1..] == hs;
  }

  lemma {:induction false} ValuesDrop(hs: seq<Holding>, k: nat)
    requires k < |hs|
    ensures Values(hs) == Values(Drop(hs, k)) + multiset{hs[k].info.value}
  {
    if k == 0 {
      assert Drop(hs, 0) == hs[1..];
    } else {
      var rest := Drop(hs[1..], k - 1);
      ValuesDrop(hs[1..], k - 1);
      assert Drop(hs, k) == [hs[0]] + rest;
      ValuesCons(hs[0], rest);
      Move(hs[k].info.value, multiset{hs[0].info.value}, Values(rest));
    }
  }

  lemma {:induction false} ValuesMarked(hs: seq<Holding>, k: nat, rollback: bool)
    requires k < |hs|
    ensures Values(hs[k := hs[k].(info := hs[k].info.(rollback := rollback))]) == Values(hs)
  {
    var marked := hs[k := hs[k].(info := hs[k].info.(rollback := rollback))];
    if k == 0 {
      assert marked[1..] == hs[1..];
    } else {
      ValuesMarked(hs[1..], k - 1, rollback);
      assert marked[1..] == hs[1..][k - 1 := hs[k].(info := hs[k].info.(rollback := rollback))];
    }
  }

  /** A grant moves one value from the counter or the queue to a holder. */
  lemma GrantConserves(t: Stock, conn: Conn)
    requires NoZero(t)
    ensures InPlay(Grant(t, conn).stock) == InPlay(t) + multiset(Grant(t, conn).issued)
  {
    var g := Grant(t, conn);
    var v := g.holding.info.value;
    var rest := multiset(RolledBack(g.stock));
    ValuesCons(g.holding, t.holders);
    Move(v, Values(t.holders), rest);
    if RolledBack(t) != [] {
      assert RolledBack(t) == [v] + RolledBack(g.stock);
      ConsContents(v, RolledBack(g.stock));
      assert InPlay(t) == Values(t.holders) + (multiset{v} + rest);
      assert g.issued == [] && InPlay(t) + multiset{} == InPlay(t);
    } else {
      assert InPlay(t) == Values(t.holders) + rest && multiset(g.issued) == multiset{v};
    }
  }

  lemma {:induction false} ServeConserves(total: int32, t: Stock, queue: seq<Conn>)
    requires NoZero(t)
    ensures InPlay(Serve(total, t, queue).stock) == InPlay(t) + multiset(Serve(total, t, queue).issued)
    decreases |queue|
  {
    if queue == [] {
    } else {
      if CanLock(total, t.locked) {
        var g := Grant(t, queue[0]);
        GrantKeepsNoZero(t, queue[0]);
        GrantConserves(t, queue[0]);
        ServeConserves(total, g.stock, queue[1..]);
        AppendContents(g.issued, Serve(total, g.stock, queue[1..]).issued);
      } else {
        ServeConserves(total, t, queue[1..]);
      }
    }
  }

  lemma PutBackConserves(t: Stock, k: nat)
    requires k < |t.holders|
    ensures InPlay(PutBack(t, k)) + multiset(Spent(t, k)) == InPlay(t)
  {
    var v := t.holders[k].info.value;
    ValuesDrop(t.holders, k);
    Move(v, Values(Drop(t.holders, k)), multiset(RolledBack(t)));
    if Spent(t, k) == [] { AppendContents(RolledBack(t), [v]); }
  }

  lemma CleanConserves(s: Sequence, conn: Conn)
    requires NoZero(s.stock)
    ensures var c := Clean(s, conn);
            InPlay(s.stock) + multiset(c.issued) == InPlay(c.sequence.stock) + multiset(c.spent)
  {
    var k := FirstWith(s.stock.holders, conn);
    if k < |s.stock.holders| {
      var t := PutBack(s.stock, k);
      var served := Serve(s.total, t, s.waitings);
      assert Clean(s, conn).sequence.stock == served.stock && Clean(s, conn).issued == served.issued;
      PutBackConserves(s.stock, k);
      ServeConserves(s.total, t, s.waitings);
      Exchange(InPlay(t), multiset(Spent(s.stock, k)), multiset(served.issued));
    }
  }

  lemma StepConserves(s: Sequence, e: Event)
    requires NoZero(s.stock)
    ensures var m := Step(s, e);
            InPlay(s.stock) + multiset(m.issued) == InPlay(m.sequence.stock) + multiset(m.spent)
  {
    match e
    case LockMsg(conn, wait) =>
      LockConserves(s, conn, wait);
    case UnlockMsg(conn, name, rollback) =>
      UnlockConserves(s, conn, name, rollback);
    case Disconnect(conn) =>
      CleanConserves(s, conn);
  }

  lemma LockConserves(s: Sequence, conn: Conn, wait: bool)
    requires NoZero(s.stock)
    ensures var l := Lock(s, conn, wait);
            InPlay(s.stock) + multiset(l.issued) == InPlay(l.sequence.stock) + multiset([])
  {
    GrantConserves(s.stock, conn);
    NothingMore(InPlay(Lock(s, conn, wait).sequence.stock));
  }

  lemma UnlockConserves(s: Sequence, conn: Conn, name: string, rollback: bool)
    requires NoZero(s.stock)
    ensures var c := Unlock(s, conn, name, rollback);
            InPlay(s.stock) + multiset(c.issued) == InPlay(c.sequence.stock) + multiset(c.spent)
  {
    if UnlockCheck(s, conn, name) == Accepted {
      var k := FirstWith(s.stock.holders, conn);
      ValuesMarked(s.stock.holders, k, rollback);
      CleanConserves(s.(stock := Marked(s.stock, k, rollback)), conn);
    }
  }

  lemma NothingMore(a: multiset<uint32>)
    ensures a + multiset([]) == a
  {
  }

  lemma {:induction false} RunConserves(s: Sequence, es: seq<Event>)
    requires NoZero(s.stock)
    ensures var r := Run(s, es);
            InPlay(s.stock) + multiset(r.issued) == InPlay(r.sequence.stock) + multiset(r.spent)
    decreases |es|
  {
    if es == [] {
    } else {
      var m := Step(s, es[0]);
      var r := Run(m.sequence, es[1..]);
      StepKeepsNoZero(s, es[0]);
      StepConserves(s, es[0]);
      RunConserves(m.sequence, es[1..]);
      AppendContents(m.issued, r.issued);
      AppendContents(m.spent, r.spent);
      TwoExchanges(InPlay(s.stock), multiset(m.issued), InPlay(m.sequence.stock), multiset(m.spent),
                   multiset(r.issued), InPlay(r.sequence.stock), multiset(r.spent));
    }
  }

  // ----- who leaves the queue -----------------------------------------------

  /** A pass leaves the others in their order. */
  lemma {:induction false} ServeKeepsOrder(total: int32, t: Stock, queue: seq<Conn>)
    ensures Subsequence(Serve(total, t, queue).rest, queue)
    decreases |queue|
  {
    if queue == [] {
    } else {
      var t1 := if CanLock(total, t.locked) then Grant(t, queue[0]).stock else t;
      assert [queue[0]] + queue[1..] == queue;
      ServeKeepsOrder(total, t1, queue[1..]);
      SubsequenceLater(Serve(total, t1, queue[1..]).rest, queue[0], queue[1..]);
    }
  }

  /** A clean-up keeps the order of the queue. If the connection holds no value,
      its first request leaves the queue, if it has any, and nothing else
      changes. */
  lemma CleanQueue(s: Sequence, conn: Conn)
    ensures var c := Clean(s, conn);
            && Subsequence(c.sequence.waitings, s.waitings)
            && ((forall i | 0 <= i < |s.stock.holders| :: s.stock.holders[i].conn != conn) ==>
                  && c.granted == [] && c.issued == [] && c.spent == []
                  && c.sequence == s.(waitings := c.sequence.waitings)
                  && LosesFirst(s.waitings, c.sequence.waitings, Itself, conn))
  {
    var k := FirstWith(s.stock.holders, conn);
    if k < |s.stock.holders| {
      ServeKeepsOrder(s.total, PutBack(s.stock, k), s.waitings);
    } else {
      DropFirstPicks(s.waitings, Itself, conn);
      SubsequenceSame(s.waitings);
    }
  }

  // ----- what the counter issues --------------------------------------------

  /** All 32-bit values but zero. */
  const SPAN := TWO_TO_THE_32 - 1

  /** The values go round: 1, 2, 3 up to the last one, and again from 1. */
  function IssuedAt(k: nat): (v: uint32)
    ensures v != 0
  {
    k % SPAN + 1
  }

  function Issued(start: nat, n: nat): (r: seq<uint32>)
    ensures |r| == n
    decreases n
  {
    if n == 0 then [] else [IssuedAt(start)] + Issued(start + 1, n - 1)
  }

  lemma {:induction false} IssuedJoin(start: nat, m: nat, n: nat)
    ensures Issued(start, m) + Issued(start + m, n) == Issued(start, m + n)
    decreases m
  {
    if m == 0 {
      assert [] + Issued(start, n) == Issued(start, n);
    } else {
      IssuedJoin(start + 1, m - 1, n);
      ConsJoin(IssuedAt(start), Issued(start + 1, m - 1), Issued(start + m, n));
    }
  }

  lemma ConsJoin(x: uint32, a: seq<uint32>, b: seq<uint32>)
    ensures ([x] + a) + b == [x] + (a + b)
  {
  }

  /** The counter is about to issue the value at position `k`. */
  predicate AtPosition(next: uint32, k: nat) {
    (if next == 0 then 1 else next) == IssuedAt(k)
  }

  lemma NextPosition(v: uint32, k: nat)
    requires v == IssuedAt(k)
    ensures AtPosition(Increment(v), k + 1)
  {
    if k % SPAN == SPAN - 1 {
      assert (k + 1) % SPAN == 0;
    } else {
      assert (k + 1) % SPAN == k % SPAN + 1;
    }
  }

  predicate IssuesFrom(after: uint32, issued: seq<uint32>, k: nat) {
    issued == Issued(k, |issued|) && AtPosition(after, k + |issued|)
  }

  lemma IssuesJoin(between: uint32, after: uint32, a: seq<uint32>, b: seq<uint32>, k: nat)
    requires IssuesFrom(between, a, k) && IssuesFrom(after, b, k + |a|)
    ensures IssuesFrom(after, a + b, k)
  {
    IssuedJoin(k, |a|, |b|);
  }

  lemma GetIssues(next: uint32, rolledBack: Option<seq<uint32>>, k: nat)
    requires AtPosition(next, k)
    ensures var d := Get(next, rolledBack); IssuesFrom(d.next, d.issued, k)
  {
    NextPosition(if next == 0 then 1 else next, k);
    assert Issued(k, 1) == [IssuedAt(k)];
  }

  lemma {:induction false} ServeIssues(total: int32, t: Stock, queue: seq<Conn>, k: nat)
    requires AtPosition(t.next, k)
    ensures var s := Serve(total, t, queue); IssuesFrom(s.stock.next, s.issued, k)
    decreases |queue|
  {
    if queue == [] {
    } else {
      if CanLock(total, t.locked) {
        var g := Grant(t, queue[0]);
        GetIssues(t.next, t.rolledBack, k);
        ServeIssues(total, g.stock, queue[1..], k + |g.issued|);
        var s := Serve(total, g.stock, queue[1..]);
        IssuesJoin(g.stock.next, s.stock.next, g.issued, s.issued, k);
      } else {
        ServeIssues(total, t, queue[1..], k);
      }
    }
  }

  lemma StepIssues(s: Sequence, e: Event, k: nat)
    requires AtPosition(s.stock.next, k)
    ensures var m := Step(s, e); IssuesFrom(m.sequence.stock.next, m.issued, k)
  {
    match e
    case LockMsg(conn, wait) =>
      GetIssues(s.stock.next, s.stock.rolledBack, k);
    case UnlockMsg(conn, name, rollback) =>
      if UnlockCheck(s, conn, name) == Accepted {
        var i := FirstWith(s.stock.holders, conn);
        var marked := s.(stock := Marked(s.stock, i, rollback));
        CleanIssues(marked, conn, k);
      }
    case Disconnect(conn) =>
      CleanIssues(s, conn, k);
  }

  lemma CleanIssues(s: Sequence, conn: Conn, k: nat)
    requires AtPosition(s.stock.next, k)
    ensures var c := Clean(s, conn); IssuesFrom(c.sequence.stock.next, c.issued, k)
  {
    var i := FirstWith(s.stock.holders, conn);
    if i < |s.stock.holders| {
      ServeIssues(s.total, PutBack(s.stock, i), s.waitings, k);
    }
  }

  lemma {:induction false} RunIssues(s: Sequence, es: seq<Event>, k: nat)
    requires AtPosition(s.stock.next, k)
    ensures var r := Run(s, es); IssuesFrom(r.sequence.stock.next, r.issued, k)
    decreases |es|
  {
    if es == [] {
    } else {
      var m := Step(s, es[0]);
      var r := Run(m.sequence, es[1..]);
      assert Run(s, es) == Moved(r.sequence, m.issued + r.issued, m.spent + r.spent);
      StepIssues(s, es[0], k);
      RunIssues(m.sequence, es[1..], k + |m.issued|);
      IssuesJoin(m.sequence.stock.next, r.sequence.stock.next, m.issued, r.issued, k);
    }
  }

  predicate NoneTwice(vs: multiset<uint32>) {
    forall v | v in vs :: vs[v] == 1
  }

  lemma IssuedAtEarly(k: nat)
    requires k <= SPAN
    ensures IssuedAt(k) == if k < SPAN then k + 1 else 1
  {
  }

  lemma CountSnoc(s: seq<uint32>, x: uint32, v: uint32)
    ensures multiset(s + [x])[v] == multiset(s)[v] + if x == v then 1 else 0
  {
  }

  lemma IssuedSnoc(n: nat)
    ensures Issued(0, n + 1) == Issued(0, n) + [IssuedAt(n)]
  {
    IssuedJoin(0, n, 1);
    assert Issued(n, 1) == [IssuedAt(n)];
  }

  lemma CountIssued(n: nat, v: uint32)
    ensures multiset(Issued(0, n + 1))[v] == multiset(Issued(0, n))[v] + if IssuedAt(n) == v then 1 else 0
  {
    IssuedSnoc(n);
    CountSnoc(Issued(0, n), IssuedAt(n), v);
  }

  /** Before the counter wraps, each of the first `n` values is issued once. */
  lemma {:induction false} IssuedOnce(n: nat, v: uint32)
    requires n <= SPAN
    ensures multiset(Issued(0, n))[v] == if 1 <= v <= n then 1 else 0
  {
    if n == 0 {
      assert Issued(0, 0) == [];
    } else {
      IssuedOnce(n - 1, v);
      IssuedAtEarly(n - 1);
      CountIssued(n - 1, v);
    }
  }

  lemma {:induction false} IssuedTwice(n: nat)
    requires n >= SPAN
    ensures multiset(Issued(0, n + 1))[1] >= 2
    decreases n
  {
    if n == SPAN { SecondOne(n); } else { IssuedTwice(n - 1); }
    IssuedMore(n, 1);
  }

  lemma ManyIssuedTwice(n: nat)
    requires n > SPAN
    ensures multiset(Issued(0, n))[1] >= 2
  {
    IssuedTwice(n - 1);
  }

  lemma IssuedMore(n: nat, v: uint32)
    ensures multiset(Issued(0, n + 1))[v] >= multiset(Issued(0, n))[v]
    ensures IssuedAt(n) == v ==> multiset(Issued(0, n + 1))[v] > multiset(Issued(0, n))[v]
  {
    CountIssued(n, v);
  }

  /** The last value of a round is followed by a one. */
  lemma SecondOne(n: nat)
    requires n == SPAN
    ensures multiset(Issued(0, n))[1] == 1 && IssuedAt(n) == 1
  {
    IssuedOnce(n, 1);
    IssuedAtEarly(n);
  }

  // ----- the partition ------------------------------------------------------

  /** Over any run, the values drawn are 1, 2, 3 and so on with zero skipped,
      and each is held, rolled back or spent, counted with repetition. */
  lemma RunAccounts(name: string, total: int32, transactional: bool, es: seq<Event>)
    ensures var r := Run(Init(name, total, transactional), es);
            && r.issued == Issued(0, |r.issued|)
            && multiset(r.issued) == InPlay(r.sequence.stock) + multiset(r.spent)
            && AtPosition(r.sequence.stock.next, |r.issued|)
  {
    var s := Init(name, total, transactional);
    RunConserves(s, es);
    RunIssues(s, es, 0);
  }

  /** The values in play or spent are without repetition exactly as long as the
      counter has issued no more than there are non-zero values: no value has
      two holders and no spent value comes back. */
  lemma NoRepeatUntilWrap(name: string, total: int32, transactional: bool, es: seq<Event>)
    ensures var r := Run(Init(name, total, transactional), es);
            NoneTwice(InPlay(r.sequence.stock) + multiset(r.spent)) <==> |r.issued| <= SPAN
  {
    RunAccounts(name, total, transactional, es);
    var n := |Run(Init(name, total, transactional), es).issued|;
    if n <= SPAN {
      forall v: uint32 ensures multiset(Issued(0, n))[v] <= 1 { IssuedOnce(n, v); }
    } else {
      ManyIssuedTwice(n);
    }
  }

  /** A client that locks and commits, again and again. */
  function Commits(name: string, n: nat): seq<Event> {
    if n == 0 then [] else [LockMsg(0, true), UnlockMsg(0, name, false)] + Commits(name, n - 1)
  }

  /** Nobody holds or waits, and nothing is rolled back. */
  predicate Idle(s: Sequence) {
    s.total >= 1 && s.stock.locked == 0 && s.stock.holders == [] && RolledBack(s.stock) == [] && s.waitings == []
  }

  lemma CommitIssuesOne(s: Sequence) returns (s': Sequence)
    requires Idle(s)
    ensures Idle(s') && s'.name == s.name
    ensures var m := Step(s, LockMsg(0, true));
            var u := Step(m.sequence, UnlockMsg(0, s.name, false));
            u.sequence == s' && |m.issued| == 1 && u.issued == []
  {
    var m := Step(s, LockMsg(0, true)).sequence;
    assert FirstWith(m.stock.holders, 0) == 0;
    s' := Step(m, UnlockMsg(0, s.name, false)).sequence;
  }

  lemma {:induction false} CommitsIssue(s: Sequence, n: nat)
    requires Idle(s)
    ensures |Run(s, Commits(s.name, n)).issued| == n
    decreases n
  {
    if n > 0 {
      var s' := CommitIssuesOne(s);
      CommitsIssue(s', n - 1);
      RunTwoFirst(s, LockMsg(0, true), UnlockMsg(0, s.name, false), Commits(s.name, n - 1));
    }
  }

  lemma RunTwoFirst(s: Sequence, a: Event, b: Event, es: seq<Event>)
    ensures var m := Step(s, a);
            var u := Step(m.sequence, b);
            Run(s, [a, b] + es).issued == m.issued + (u.issued + Run(u.sequence, es).issued)
  {
    assert ([a, b] + es)[1..] == [b] + es && ([b] + es)[1..] == es;
  }

  /** The repetition after the wrap does happen. */
  lemma RepeatsAfterWrap(name: string, total: int32, transactional: bool)
    requires total >= 1
    ensures var r := Run(Init(name, total, transactional), Commits(name, SPAN + 1));
            !NoneTwice(InPlay(r.sequence.stock) + multiset(r.spent))
  {
    CommitsIssue(Init(name, total, transactional), SPAN + 1);
    NoRepeatUntilWrap(name, total, transactional, Commits(name, SPAN + 1));
  }

  /** Until the wrap the values below the counter are split among the holders, the
      rolled back queue and the spent ones, each value in one place once. */
  lemma Partition(name: string, total: int32, transactional: bool, es: seq<Event>, v: uint32)
    requires |Run(Init(name, total, transactional), es).issued| < SPAN
    ensures var r := Run(Init(name, total, transactional), es);
            Values(r.sequence.stock.holders)[v] + multiset(RolledBack(r.sequence.stock))[v] + multiset(r.spent)[v]
            == if 1 <= v < r.sequence.stock.next then 1 else 0
  {
    RunAccounts(name, total, transactional, es);
    var r := Run(Init(name, total, transactional), es);
    IssuedOnce(|r.issued|, v);
    IssuedAtEarly(|r.issued|);
    CountApart(Values(r.sequence.stock.holders), multiset(RolledBack(r.sequence.stock)), multiset(r.spent), v);
  }

  lemma CountApart(a: multiset<uint32>, b: multiset<uint32>, c: multiset<uint32>, v: uint32)
    ensures (a + b + c)[v] == a[v] + b[v] + c[v]
  {
  }

  /** With nothing held and nothing to reissue, the spent values have no gap. */
  lemma GapFree(name: string, total: int32, transactional: bool, es: seq<Event>)
    requires var r := Run(Init(name, total, transactional), es);
             r.sequence.stock.holders == [] && RolledBack(r.sequence.stock) == []
    ensures var r := Run(Init(name, total, transactional), es);
            multiset(r.spent) == multiset(Issued(0, |r.issued|))
  {
    RunAccounts(name, total, transactional, es);
  }
}
