/** The handoff of client connections from the main thread to the lockers, and
    the termination of a locker, as interleaved steps of all threads. The
    sources rely on the order of a few shared reads and writes instead of locks;
    here that order is a parameter, so that what depends on it can be stated. */
module Handoff {
  import opened Records

  const MAX_IDLE_PERIODS := 1

  /** Where in the handling of a token the locker zeroes its idle periods;
      `BetweenHalves` is between the import of the connection and the publication
      of the sequence, whichever comes first. */
  datatype Zeroing = BeforeToken | AfterToken | AfterPointer | BetweenHalves | AtEnd

  /** `sequenceFirst`: the main thread compares the sequences before it reads
      the idle periods. `importFirst`: the locker imports the connection before
      it publishes the sequence. */
  datatype Order = Order(sequenceFirst: bool, zeroing: Zeroing, importFirst: bool)

  const SOURCE_ORDER := Order(true, BeforeToken, true)

  // ----- the state ----------------------------------------------------------

  datatype Item = Token(sequence: nat) | Pointer(conn: Conn)

  /** Where a locker is: in poll, after a poll that timed out, or at one of the
      points of the handling of a token. */
  datatype LockerAt =
    | Polling
    | TimedOut
    | Readable
    | Reading
    | GotToken(sequence: nat)
    | GotPointer(sequence: nat, conn: Conn)
    | Imported(sequence: nat)
    | Published(conn: Conn)
    | Handled
    | Exited

  datatype Locker = Locker(writeSequence: nat, readSequence: nat, idlePeriods: nat,
                           writeOpen: bool, readOpen: bool, joined: bool,
                           pipe: seq<Item>, conns: multiset<Conn>, at: LockerAt)

  datatype MainAt =
    | Idle
    | SentToken(k: nat, conn: Conn)
    | Detached(k: nat, conn: Conn)
    | Checking(k: nat)

  datatype State = State(conns: multiset<Conn>, at: MainAt, lockers: seq<Locker>)

  const INIT := State(multiset{}, Idle, [])

  const NEW_LOCKER := Locker(0, 0, 0, true, true, false, [], multiset{}, Polling)

  // ----- the steps ----------------------------------------------------------

  datatype Action =
    | Arrive(conn: Conn)
    | Leave(conn: Conn)
    | StartLocker
    | SendToken(k: nat, conn: Conn)
    | Detach
    | SendPointer
    | CheckFirst(k: nat)
    | CheckSecond
    | LockerStep(k: nat, move: Move)

  datatype Move =
    | PollTimeout
    | CountIdle
    | PollReadable
    | StartReading
    | ReadToken
    | ReadPointer
    | FirstHalf
    | SecondHalf
    | EndHandling
    | ClientData(conn: Conn, gone: bool)
    | ClientHangup(conn: Conn)
    | PipeHangup
    | Exit

  predicate Quiet(l: Locker) { l.idlePeriods > MAX_IDLE_PERIODS }

  predicate Consumed(l: Locker) { l.writeSequence == l.readSequence }

  /** The first and the second of the two reads of the termination check. */
  predicate FirstTest(o: Order, l: Locker) { if o.sequenceFirst then Consumed(l) else Quiet(l) }

  predicate SecondTest(o: Order, l: Locker) { if o.sequenceFirst then Quiet(l) else Consumed(l) }

  /** Both tests passed: close the write end; or, both ends being closed, join
      the thread once it has ended. */
  function Terminate(l: Locker): Locker {
    if l.writeOpen then l.(writeOpen := false)
    else if !l.readOpen && l.at == Exited then l.(joined := true)
    else l
  }

  /** Connections in the locker's array, the control connection included. */
  function Used(l: Locker): nat {
    |l.conns| + if l.readOpen then 1 else 0
  }

  /** The move together with which the idle periods are zeroed. What it does
      besides is not visible to the main thread. */
  function ZeroMove(o: Order): Move {
    match o.zeroing
    case BeforeToken => StartReading
    case AfterToken => ReadToken
    case AfterPointer => ReadPointer
    case BetweenHalves => if o.importFirst then FirstHalf else SecondHalf
    case AtEnd => EndHandling
  }

  function PublishMove(o: Order): Move { if o.importFirst then SecondHalf else FirstHalf }

  /** The moves of the handling in their order. */
  function Place(m: Move): nat {
    match m
    case StartReading => 1 case ReadToken => 2 case ReadPointer => 3
    case FirstHalf => 4 case SecondHalf => 5 case EndHandling => 6 case _ => 0
  }

  /** The idle periods are zero before the sequence is published. */
  predicate ZeroedInTime(o: Order) { Place(ZeroMove(o)) < Place(PublishMove(o)) }

  function IdleAfter(o: Order, l: Locker, m: Move): nat { if m == ZeroMove(o) then 0 else l.idlePeriods }

  /** A move that is not possible leaves the locker as it is. */
  function MoveLocker(o: Order, l: Locker, m: Move): Locker {
    match m
    case PollTimeout =>
      if l.at == Polling && Used(l) > 0 && l.pipe == [] && (l.writeOpen || !l.readOpen) then l.(at := TimedOut) else l
    case CountIdle =>
      if l.at == TimedOut then
        l.(at := Polling, idlePeriods := if Used(l) == 1 then l.idlePeriods + 1 else l.idlePeriods)
      else l
    case PollReadable =>
      if l.at == Polling && l.readOpen && l.pipe != [] then l.(at := Readable) else l
    case StartReading =>
      if l.at == Readable then l.(at := Reading, idlePeriods := IdleAfter(o, l, m)) else l
    case ReadToken =>
      if l.at == Reading && l.pipe != [] && l.pipe[0].Token?
      then l.(at := GotToken(l.pipe[0].sequence), pipe := l.pipe[1..], idlePeriods := IdleAfter(o, l, m)) else l
    case ReadPointer =>
      if l.at.GotToken? && l.pipe != [] && l.pipe[0].Pointer?
      then l.(at := GotPointer(l.at.sequence, l.pipe[0].conn), pipe := l.pipe[1..], idlePeriods := IdleAfter(o, l, m))
      else l
    case FirstHalf =>
      if !l.at.GotPointer? then l
      else if o.importFirst
      then l.(at := Imported(l.at.sequence), conns := l.conns + multiset{l.at.conn},
              idlePeriods := IdleAfter(o, l, m))
      else l.(at := Published(l.at.conn), readSequence := l.at.sequence, idlePeriods := IdleAfter(o, l, m))
    case SecondHalf =>
      if l.at.Imported? then l.(at := Handled, readSequence := l.at.sequence, idlePeriods := IdleAfter(o, l, m))
      else if l.at.Published?
      then l.(at := Handled, conns := l.conns + multiset{l.at.conn}, idlePeriods := IdleAfter(o, l, m))
      else l
    case EndHandling =>
      if l.at == Handled then l.(at := Polling, idlePeriods := IdleAfter(o, l, m)) else l
    case ClientData(conn, gone) =>
      if l.at == Polling && conn in l.conns
      then l.(idlePeriods := 0, conns := if gone then l.conns - multiset{conn} else l.conns) else l
    case ClientHangup(conn) =>
      if l.at == Polling && conn in l.conns then l.(conns := l.conns - multiset{conn}) else l
    case PipeHangup =>
      if l.at == Polling && l.readOpen && !l.writeOpen && l.pipe == [] then l.(readOpen := false) else l
    case Exit =>
      if l.at == Polling && Used(l) == 0 then l.(at := Exited) else l
  }

  /** Only a locker with both ends open is given connections. */
  predicate Active(l: Locker) { l.writeOpen && l.readOpen && !l.joined }

  function Step(o: Order, s: State, a: Action): State {
    match a
    case Arrive(conn) =>
      if s.at == Idle && Places(s, conn) == 0 then s.(conns := s.conns + multiset{conn}) else s
    case Leave(conn) =>
      if s.at == Idle && conn in s.conns then s.(conns := s.conns - multiset{conn}) else s
    case StartLocker =>
      if s.at == Idle then s.(lockers := s.lockers + [NEW_LOCKER]) else s
    case SendToken(k, conn) =>
      if s.at == Idle && k < |s.lockers| && Active(s.lockers[k]) && conn in s.conns then
        var l := s.lockers[k];
        var n := l.writeSequence + 1;
        s.(at := SentToken(k, conn), lockers := s.lockers[k := l.(writeSequence := n, pipe := l.pipe + [Token(n)])])
      else s
    case Detach =>
      if s.at.SentToken? then s.(at := Detached(s.at.k, s.at.conn), conns := s.conns - multiset{s.at.conn}) else s
    case SendPointer =>
      if s.at.Detached? && s.at.k < |s.lockers| then
        var l := s.lockers[s.at.k];
        s.(at := Idle, lockers := s.lockers[s.at.k := l.(pipe := l.pipe + [Pointer(s.at.conn)])])
      else s
    case CheckFirst(k) =>
      if s.at == Idle && k < |s.lockers| && FirstTest(o, s.lockers[k]) then s.(at := Checking(k)) else s
    case CheckSecond =>
      if s.at.Checking? && s.at.k < |s.lockers| then
        var l := s.lockers[s.at.k];
        s.(at := Idle, lockers := s.lockers[s.at.k := if SecondTest(o, l) then Terminate(l) else l])
      else s
    case LockerStep(k, move) =>
      if k < |s.lockers| then s.(lockers := s.lockers[k := MoveLocker(o, s.lockers[k], move)]) else s
  }

  /** Any interleaving: the choices are arbitrary. */
  function Run(o: Order, s: State, actions: seq<Action>): State
    decreases |actions|
  {
    if actions == [] then s else Run(o, Step(o, s, actions[0]), actions[1..])
  }

  // ----- who has which connection -------------------------------------------

  function InPipe(pipe: seq<Item>, conn: Conn): nat {
    if pipe == [] then 0 else (if pipe[0] == Pointer(conn) then 1 else 0) + InPipe(pipe[1..], conn)
  }

  function InHand(at: LockerAt, conn: Conn): nat {
    match at
    case GotPointer(_, c) => if c == conn then 1 else 0
    case Published(c) => if c == conn then 1 else 0
    case _ => 0
  }

  /** How often a locker has a connection: in its pipe, in its hands or in its
      array. */
  function Has(l: Locker, conn: Conn): nat {
    InPipe(l.pipe, conn) + InHand(l.at, conn) + l.conns[conn]
  }

  function Have(lockers: seq<Locker>, conn: Conn): nat {
    if lockers == [] then 0 else Has(lockers[0], conn) + Have(lockers[1..], conn)
  }

  function InTransit(at: MainAt, conn: Conn): nat {
    if at.Detached? && at.conn == conn then 1 else 0
  }

  /** The number of places in the daemon where a connection is. */
  function Places(s: State, conn: Conn): nat {
    s.conns[conn] + InTransit(s.at, conn) + Have(s.lockers, conn)
  }

  // ----- safe termination ---------------------------------------------------

  /** Nothing is left with a locker whose write end is closed, and nothing is
      being sent to it. */
  ghost predicate NothingStranded(s: State) {
    forall k | 0 <= k < |s.lockers| && !s.lockers[k].writeOpen ::
      s.lockers[k].pipe == [] && !MidSend(s.at, k) && forall conn :: Has(s.lockers[k], conn) == 0
  }

  predicate MidSend(at: MainAt, k: nat) {
    (at.SentToken? || at.Detached?) && at.k == k
  }

  /** The pipe holds, in order, the pairs numbered after `n` up to `last`; of
      the last one perhaps only the token. */
  predicate Pairs(pipe: seq<Item>, n: nat, last: nat, half: bool)
    decreases |pipe|
  {
    if |pipe| == 0 then n == last && !half
    else if |pipe| == 1 then half && last == n + 1 && pipe[0] == Token(last)
    else pipe[0] == Token(n + 1) && pipe[1].Pointer? && Pairs(pipe[2..], n + 1, last, half)
  }

  /** What the locker has still to take, numbered after what it published. */
  predicate InOrder(l: Locker, half: bool) {
    match l.at
    case GotToken(n) => n == l.readSequence + 1 && Pairs([Token(n)] + l.pipe, l.readSequence, l.writeSequence, half)
    case GotPointer(n, _) => n == l.readSequence + 1 && Pairs(l.pipe, n, l.writeSequence, half)
    case Imported(n) => n == l.readSequence + 1 && Pairs(l.pipe, n, l.writeSequence, half)
    case _ => Pairs(l.pipe, l.readSequence, l.writeSequence, half)
  }

  predicate Waiting(at: LockerAt) {
    at in {Polling, TimedOut, Readable, Exited}
  }

  /** The handling has not come to the zeroing yet. */
  predicate NotYetZeroed(o: Order, at: LockerAt) {
    match at
    case Reading => Place(ZeroMove(o)) > Place(StartReading)
    case GotToken(_) => Place(ZeroMove(o)) > Place(ReadToken)
    case GotPointer(_, _) => Place(ZeroMove(o)) > Place(ReadPointer)
    case _ => false
  }

  /** Idle periods are counted only while the locker has no client. */
  predicate IdleMeansEmpty(o: Order, l: Locker) {
    l.idlePeriods > 0 ==> l.conns == multiset{} && (Waiting(l.at) || NotYetZeroed(o, l.at))
  }

  predicate ClosedMeansDone(l: Locker) {
    && (!l.writeOpen ==> Consumed(l) && l.pipe == [] && l.conns == multiset{} && Quiet(l))
    && (!l.writeOpen ==> Waiting(l.at) && l.at != Readable)
    && (!l.readOpen ==> !l.writeOpen && l.at in {Polling, Exited})
    && (l.at in {Readable, Reading} ==> l.pipe != [])
    && (l.at == Exited ==> !l.readOpen)
    && (l.joined ==> l.at == Exited)
  }

  predicate Healthy(o: Order, l: Locker, half: bool) {
    InOrder(l, half) && IdleMeansEmpty(o, l) && ClosedMeansDone(l) && (!l.writeOpen ==> !half)
  }

  predicate MainHealthy(s: State) {
    match s.at
    case Idle => true
    case SentToken(k, conn) => k < |s.lockers| && s.lockers[k].writeOpen && conn in s.conns
    case Detached(k, conn) => k < |s.lockers| && s.lockers[k].writeOpen
    case Checking(k) => k < |s.lockers| && Consumed(s.lockers[k])
  }

  predicate AllHealthy(o: Order, s: State) {
    MainHealthy(s) && LockersHealthy(o, s.lockers, s.at)
  }

  lemma {:induction false} PairsToken(pipe: seq<Item>, n: nat, last: nat)
    requires Pairs(pipe, n, last, false)
    ensures Pairs(pipe + [Token(last + 1)], n, last + 1, true)
    decreases |pipe|
  {
    if |pipe| < 2 {
    } else {
      PairsToken(pipe[2..], n + 1, last);
      assert (pipe + [Token(last + 1)])[2..] == pipe[2..] + [Token(last + 1)];
    }
  }

  lemma {:induction false} PairsPointer(pipe: seq<Item>, n: nat, last: nat, conn: Conn)
    requires Pairs(pipe, n, last, true)
    ensures Pairs(pipe + [Pointer(conn)], n, last, false)
    decreases |pipe|
  {
    if |pipe| >= 2 {
      PairsPointer(pipe[2..], n + 1, last, conn);
      assert (pipe + [Pointer(conn)])[2..] == pipe[2..] + [Pointer(conn)];
    } else {
      assert (pipe + [Pointer(conn)])[2..] == [];
    }
  }

  lemma {:induction false} PairsCount(pipe: seq<Item>, n: nat, last: nat, half: bool)
    requires Pairs(pipe, n, last, half)
    ensures n <= last && (n == last <==> pipe == [])
    decreases |pipe|
  {
    if |pipe| < 2 {
    } else {
      PairsCount(pipe[2..], n + 1, last, half);
    }
  }

  lemma ConsumedMeansEmpty(o: Order, l: Locker, half: bool)
    requires Healthy(o, l, half) && Consumed(l)
    ensures l.pipe == [] && !half && l.at !in {Readable, Reading} && !l.at.GotToken? && !l.at.GotPointer?
            && !l.at.Imported?
  {
    match l.at {
      case GotToken(n) => PairsCount([Token(n)] + l.pipe, l.readSequence, l.writeSequence, half);
      case GotPointer(n, _) => PairsCount(l.pipe, n, l.writeSequence, half);
      case Imported(n) => PairsCount(l.pipe, n, l.writeSequence, half);
      case _ => PairsCount(l.pipe, l.readSequence, l.writeSequence, half);
    }
  }

  lemma TokenReadKeepsHealthy(o: Order, l: Locker, half: bool)
    requires ZeroedInTime(o) && Healthy(o, l, half)
    ensures MovesWell(o, l, half, ReadToken)
  {
    if Consumed(l) { ConsumedMeansEmpty(o, l, half); }
    if l.at == Reading { assert [l.pipe[0]] + l.pipe[1..] == l.pipe; }
  }

  lemma PointerReadKeepsHealthy(o: Order, l: Locker, half: bool)
    requires ZeroedInTime(o) && Healthy(o, l, half)
    ensures MovesWell(o, l, half, ReadPointer)
  {
    if Consumed(l) { ConsumedMeansEmpty(o, l, half); }
    if l.at.GotToken? && l.pipe != [] {
      assert ([Token(l.at.sequence)] + l.pipe)[2..] == l.pipe[1..];
    }
  }

  lemma HalvesKeepHealthy(o: Order, l: Locker, half: bool, m: Move)
    requires ZeroedInTime(o) && Healthy(o, l, half) && m in {FirstHalf, SecondHalf}
    ensures MovesWell(o, l, half, m)
  {
    if Consumed(l) { ConsumedMeansEmpty(o, l, half); }
  }

  lemma PollingKeepsHealthy(o: Order, l: Locker, half: bool, m: Move)
    requires Healthy(o, l, half) && m in {PollTimeout, CountIdle, PollReadable, PipeHangup, Exit}
    ensures MovesWell(o, l, half, m)
  {
  }

  lemma AroundKeepsHealthy(o: Order, l: Locker, half: bool, m: Move)
    requires ZeroedInTime(o) && Healthy(o, l, half) && m in {StartReading, EndHandling}
    ensures MovesWell(o, l, half, m)
  {
  }

  lemma ClientKeepsHealthy(o: Order, l: Locker, half: bool, m: Move)
    requires Healthy(o, l, half) && (m.ClientData? || m.ClientHangup?)
    ensures MovesWell(o, l, half, m)
  {
  }

  /** The move keeps the locker healthy, its write end as it is, and what was
      consumed consumed. */
  predicate MovesWell(o: Order, l: Locker, half: bool, m: Move) {
    var after := MoveLocker(o, l, m);
    Healthy(o, after, half) && after.writeOpen == l.writeOpen && (Consumed(l) ==> Consumed(after))
  }

  lemma MoveKeepsHealthy(o: Order, l: Locker, half: bool, m: Move)
    requires ZeroedInTime(o) && Healthy(o, l, half)
    ensures Healthy(o, MoveLocker(o, l, m), half)
    ensures MoveLocker(o, l, m).writeOpen == l.writeOpen
    ensures Consumed(l) ==> Consumed(MoveLocker(o, l, m))
  {
    match m {
      case ReadToken => TokenReadKeepsHealthy(o, l, half);
      case ReadPointer => PointerReadKeepsHealthy(o, l, half);
      case FirstHalf => HalvesKeepHealthy(o, l, half, m);
      case SecondHalf => HalvesKeepHealthy(o, l, half, m);
      case StartReading => AroundKeepsHealthy(o, l, half, m);
      case EndHandling => AroundKeepsHealthy(o, l, half, m);
      case ClientData(conn, gone) => ClientKeepsHealthy(o, l, half, m);
      case ClientHangup(conn) => ClientKeepsHealthy(o, l, half, m);
      case _ => PollingKeepsHealthy(o, l, half, m);
    }
    assert MovesWell(o, l, half, m);
  }

  lemma TerminateKeepsHealthy(o: Order, l: Locker)
    requires Healthy(o, l, false) && Consumed(l) && Quiet(l)
    ensures Healthy(o, Terminate(l), false)
  {
    ConsumedMeansEmpty(o, l, false);
  }

  /** All lockers are healthy when the main thread is at `at`. */
  predicate LockersHealthy(o: Order, lockers: seq<Locker>, at: MainAt) {
    forall k | 0 <= k < |lockers| :: Healthy(o, lockers[k], MidSend(at, k))
  }

  lemma PutKeepsHealthy(o: Order, lockers: seq<Locker>, at: MainAt, k: nat, l: Locker, after: MainAt)
    requires LockersHealthy(o, lockers, at) && k < |lockers| && Healthy(o, l, MidSend(after, k))
    requires forall j | j != k :: MidSend(at, j) == MidSend(after, j)
    ensures LockersHealthy(o, lockers[k := l], after)
  {
  }

  lemma SendKeepsHealthy(o: Order, s: State, a: Action)
    requires AllHealthy(o, s) && (a.SendToken? || a == SendPointer)
    ensures AllHealthy(o, Step(o, s, a))
  {
    if a.SendToken? && Step(o, s, a) != s {
      TokenKeepsHealthy(o, s.lockers[a.k]);
      PutKeepsHealthy(o, s.lockers, s.at, a.k, Step(o, s, a).lockers[a.k], SentToken(a.k, a.conn));
    } else if a == SendPointer && s.at.Detached? {
      PointerKeepsHealthy(o, s.lockers[s.at.k], s.at.conn);
      PutKeepsHealthy(o, s.lockers, s.at, s.at.k, Step(o, s, a).lockers[s.at.k], Idle);
    }
  }

  lemma CheckKeepsHealthy(o: Order, s: State)
    requires o.sequenceFirst && AllHealthy(o, s)
    ensures AllHealthy(o, Step(o, s, CheckSecond))
  {
    if s.at.Checking? {
      var l := s.lockers[s.at.k];
      if Quiet(l) { TerminateKeepsHealthy(o, l); }
      PutKeepsHealthy(o, s.lockers, s.at, s.at.k, if Quiet(l) then Terminate(l) else l, Idle);
    }
  }

  lemma MovedKeepsHealthy(o: Order, s: State, k: nat, move: Move)
    requires ZeroedInTime(o) && AllHealthy(o, s)
    ensures AllHealthy(o, Step(o, s, LockerStep(k, move)))
  {
    if k < |s.lockers| {
      MoveKeepsHealthy(o, s.lockers[k], MidSend(s.at, k), move);
      PutKeepsHealthy(o, s.lockers, s.at, k, MoveLocker(o, s.lockers[k], move), s.at);
    }
  }

  lemma StepKeepsHealthy(o: Order, s: State, a: Action)
    requires o.sequenceFirst && ZeroedInTime(o) && AllHealthy(o, s)
    ensures AllHealthy(o, Step(o, s, a))
  {
    match a
    case SendToken(k, conn) => SendKeepsHealthy(o, s, a);
    case SendPointer => SendKeepsHealthy(o, s, a);
    case CheckSecond => CheckKeepsHealthy(o, s);
    case LockerStep(k, move) => MovedKeepsHealthy(o, s, k, move);
    case _ =>
  }

  lemma TokenKeepsHealthy(o: Order, l: Locker)
    requires Healthy(o, l, false) && l.writeOpen
    ensures var n := l.writeSequence + 1;
            Healthy(o, l.(writeSequence := n, pipe := l.pipe + [Token(n)]), true)
  {
    var last := l.writeSequence;
    match l.at {
      case GotToken(n) =>
        PairsToken([Token(n)] + l.pipe, l.readSequence, last);
        assert [Token(n)] + l.pipe + [Token(last + 1)] == [Token(n)] + (l.pipe + [Token(last + 1)]);
      case GotPointer(n, _) => PairsToken(l.pipe, n, last);
      case Imported(n) => PairsToken(l.pipe, n, last);
      case _ => PairsToken(l.pipe, l.readSequence, last);
    }
  }

  lemma PointerKeepsHealthy(o: Order, l: Locker, conn: Conn)
    requires Healthy(o, l, true)
    ensures Healthy(o, l.(pipe := l.pipe + [Pointer(conn)]), false)
  {
    var last := l.writeSequence;
    match l.at {
      case GotToken(n) =>
        PairsPointer([Token(n)] + l.pipe, l.readSequence, last, conn);
        assert [Token(n)] + l.pipe + [Pointer(conn)] == [Token(n)] + (l.pipe + [Pointer(conn)]);
      case GotPointer(n, _) => PairsPointer(l.pipe, n, last, conn);
      case Imported(n) => PairsPointer(l.pipe, n, last, conn);
      case _ => PairsPointer(l.pipe, l.readSequence, last, conn);
    }
  }

  lemma {:induction false} RunKeepsHealthy(o: Order, s: State, actions: seq<Action>)
    requires o.sequenceFirst && ZeroedInTime(o) && AllHealthy(o, s)
    ensures AllHealthy(o, Run(o, s, actions))
    decreases |actions|
  {
    if actions == [] {
    } else {
      StepKeepsHealthy(o, s, actions[0]);
      RunKeepsHealthy(o, Step(o, s, actions[0]), actions[1..]);
    }
  }

  lemma HealthyStrandsNothing(o: Order, s: State)
    requires AllHealthy(o, s)
    ensures NothingStranded(s)
  {
    forall k | 0 <= k < |s.lockers| && !s.lockers[k].writeOpen
      ensures s.lockers[k].pipe == [] && !MidSend(s.at, k) && forall conn :: Has(s.lockers[k], conn) == 0
    {
      assert Healthy(o, s.lockers[k], MidSend(s.at, k));
    }
  }

  // ----- what the order is for ----------------------------------------------

  lemma {:induction false} RunLast(o: Order, s: State, actions: seq<Action>, a: Action)
    ensures Run(o, s, actions + [a]) == Step(o, Run(o, s, actions), a)
    decreases |actions|
  {
    if actions == [] {
      assert [] + [a] == [a] && [a][1..] == [];
    } else {
      assert (actions + [a])[1..] == actions[1..] + [a];
      RunLast(o, Step(o, s, actions[0]), actions[1..], a);
    }
  }

  predicate Reaches(o: Order, actions: seq<Action>, s: State) {
    Run(o, INIT, actions) == s
  }

  lemma Then(o: Order, actions: seq<Action>, s: State, a: Action, after: State) returns (longer: seq<Action>)
    requires Reaches(o, actions, s) && Step(o, s, a) == after
    ensures Reaches(o, longer, after)
  {
    RunLast(o, INIT, actions, a);
    longer := actions + [a];
  }

  /** A move of the only locker. */
  lemma ThenMove(o: Order, actions: seq<Action>, at: MainAt, l: Locker, m: Move, after: Locker)
    returns (longer: seq<Action>)
    requires Reaches(o, actions, State(multiset{}, at, [l])) && MoveLocker(o, l, m) == after
    ensures Reaches(o, longer, State(multiset{}, at, [after]))
  {
    longer := Then(o, actions, State(multiset{}, at, [l]), LockerStep(0, m), State(multiset{}, at, [after]));
  }

  /** A locker that has counted two idle periods. */
  lemma BecomesQuiet(o: Order) returns (actions: seq<Action>)
    ensures Reaches(o, actions, State(multiset{}, Idle, [NEW_LOCKER.(idlePeriods := 2)]))
  {
    var l := NEW_LOCKER;
    actions := Then(o, [], INIT, StartLocker, State(multiset{}, Idle, [l]));
    actions := ThenMove(o, actions, Idle, l, PollTimeout, l.(at := TimedOut));
    actions := ThenMove(o, actions, Idle, l.(at := TimedOut), CountIdle, l.(idlePeriods := 1));
    actions := ThenMove(o, actions, Idle, l.(idlePeriods := 1), PollTimeout, l.(idlePeriods := 1, at := TimedOut));
    actions := ThenMove(o, actions, Idle, l.(idlePeriods := 1, at := TimedOut), CountIdle, l.(idlePeriods := 2));
  }

  /** The same locker after a client was handed to it. */
  const HANDED := Locker(1, 0, 2, true, true, false, [Token(1), Pointer(7)], multiset{}, Polling)

  lemma GetsClient(o: Order) returns (actions: seq<Action>)
    ensures Reaches(o, actions, State(multiset{}, Idle, [HANDED]))
  {
    actions := BecomesQuiet(o);
    var l := NEW_LOCKER.(idlePeriods := 2);
    var m := l.(writeSequence := 1, pipe := [Token(1)]);
    assert Have([l][1..], 7) == 0;
    actions := Then(o, actions, State(multiset{}, Idle, [l]), Arrive(7), State(multiset{7}, Idle, [l]));
    assert l.pipe + [Token(1)] == m.pipe && [l][0 := m] == [m];
    actions := Then(o, actions, State(multiset{7}, Idle, [l]), SendToken(0, 7),
                    State(multiset{7}, SentToken(0, 7), [m]));
    assert multiset{7} - multiset{7} == multiset{};
    actions := Then(o, actions, State(multiset{7}, SentToken(0, 7), [m]), Detach,
                    State(multiset{}, Detached(0, 7), [m]));
    assert m.pipe + [Pointer(7)] == HANDED.pipe;
    actions := Then(o, actions, State(multiset{}, Detached(0, 7), [m]), SendPointer,
                    State(multiset{}, Idle, [HANDED]));
  }

  /** The count that the handling has left after its move number `place`. */
  function IdleLeft(o: Order, place: nat): nat { if Place(ZeroMove(o)) <= place then 0 else 2 }

  /** The handling of the client up to the reading of the pointer. */
  lemma TakesClient(o: Order, actions: seq<Action>, at: MainAt) returns (longer: seq<Action>)
    requires Reaches(o, actions, State(multiset{}, at, [HANDED]))
    ensures Reaches(o, longer, State(multiset{}, at, [Taken(o)]))
  {
    var l := HANDED.(at := Readable);
    longer := ThenMove(o, actions, at, HANDED, PollReadable, l);
    var r := HANDED.(at := Reading, idlePeriods := IdleLeft(o, 1));
    longer := ThenMove(o, longer, at, l, StartReading, r);
    var t := r.(at := GotToken(1), pipe := [Pointer(7)], idlePeriods := IdleLeft(o, 2));
    longer := ThenMove(o, longer, at, r, ReadToken, t);
    longer := ThenMove(o, longer, at, t, ReadPointer, Taken(o));
  }

  const TAKEN := Locker(1, 0, 0, true, true, false, [], multiset{}, GotPointer(1, 7))

  function Taken(o: Order): Locker { TAKEN.(idlePeriods := IdleLeft(o, 3)) }

  /** Up to the point where both the import and the publication are done. */
  lemma HandlesClient(o: Order, actions: seq<Action>, at: MainAt) returns (longer: seq<Action>)
    requires Reaches(o, actions, State(multiset{}, at, [HANDED]))
    ensures Reaches(o, longer, State(multiset{}, at, [AfterHandling(o)]))
  {
    longer := TakesClient(o, actions, at);
    var h := MoveLocker(o, Taken(o), FirstHalf);
    longer := ThenMove(o, longer, at, Taken(o), FirstHalf, h);
    longer := ThenMove(o, longer, at, h, SecondHalf, AfterHandling(o));
  }

  function AfterHandling(o: Order): Locker {
    Locker(1, 1, IdleLeft(o, 5), true, true, false, [], multiset{7}, Handled)
  }

  /** Just published, not yet imported. */
  const PUBLISHED := Locker(1, 1, 2, true, true, false, [], multiset{}, Published(7))

  /** Up to the publication, where the zeroing is late. */
  lemma Publishes(o: Order, actions: seq<Action>) returns (longer: seq<Action>, l: Locker)
    requires !ZeroedInTime(o) && Reaches(o, actions, State(multiset{}, Idle, [HANDED]))
    ensures Reaches(o, longer, State(multiset{}, Idle, [l]))
    ensures Consumed(l) && Quiet(l) && l.writeOpen && Has(l, 7) == 1
  {
    if o.importFirst {
      l := AfterHandling(o);
      longer := HandlesClient(o, actions, Idle);
    } else {
      l := PUBLISHED;
      longer := TakesClient(o, actions, Idle);
      longer := ThenMove(o, longer, Idle, Taken(o), FirstHalf, l);
    }
  }

  /** Reading the idle periods first lets the main thread act on a count made
      before the client was handed over. */
  lemma IdleFirstStrands(o: Order) returns (actions: seq<Action>)
    requires !o.sequenceFirst
    ensures !NothingStranded(Run(o, INIT, actions))
  {
    actions := GetsClient(o);
    actions := Then(o, actions, State(multiset{}, Idle, [HANDED]), CheckFirst(0),
                    State(multiset{}, Checking(0), [HANDED]));
    actions := HandlesClient(o, actions, Checking(0));
    actions := ChecksSecond(o, actions, AfterHandling(o));
  }

  /** Zeroing the count after the publication lets both tests pass between the
      two. */
  lemma LateZeroStrands(o: Order) returns (actions: seq<Action>)
    requires o.sequenceFirst && !ZeroedInTime(o)
    ensures !NothingStranded(Run(o, INIT, actions))
  {
    var l;
    actions := GetsClient(o);
    actions, l := Publishes(o, actions);
    actions := Then(o, actions, State(multiset{}, Idle, [l]), CheckFirst(0), State(multiset{}, Checking(0), [l]));
    actions := ChecksSecond(o, actions, l);
  }

  /** The second test passes, and the write end of a locker with a client is
      closed. */
  lemma ChecksSecond(o: Order, actions: seq<Action>, l: Locker) returns (longer: seq<Action>)
    requires Reaches(o, actions, State(multiset{}, Checking(0), [l]))
    requires SecondTest(o, l) && l.writeOpen && Has(l, 7) > 0
    ensures !NothingStranded(Run(o, INIT, longer))
  {
    var closed := l.(writeOpen := false);
    assert [l][0 := closed] == [closed];
    longer := Then(o, actions, State(multiset{}, Checking(0), [l]), CheckSecond, State(multiset{}, Idle, [closed]));
    assert Has(closed, 7) > 0 && Run(o, INIT, longer).lockers[0] == closed;
  }

  /** Termination is safe in every interleaving exactly when the main thread
      compares the sequences before it reads the idle periods and the locker
      zeroes these before it publishes the sequence. Whether it imports the
      connection before or after the publication does not matter. */
  lemma SafeOrders(o: Order)
    ensures (forall actions :: NothingStranded(Run(o, INIT, actions))) <==> o.sequenceFirst && ZeroedInTime(o)
  {
    if !o.sequenceFirst {
      var actions := IdleFirstStrands(o);
      assert !NothingStranded(Run(o, INIT, actions));
    } else if !ZeroedInTime(o) {
      var actions := LateZeroStrands(o);
      assert !NothingStranded(Run(o, INIT, actions));
    } else {
      forall actions: seq<Action> ensures NothingStranded(Run(o, INIT, actions)) {
        RunKeepsHealthy(o, INIT, actions);
        HealthyStrandsNothing(o, Run(o, INIT, actions));
      }
    }
  }

  // ----- termination completes ----------------------------------------------

  /** A locker left to itself after its write end was closed. */
  function WindDown(o: Order, l: Locker): Locker {
    MoveLocker(o, MoveLocker(o, MoveLocker(o, l, CountIdle), PipeHangup), Exit)
  }

  lemma WindDownEnds(o: Order, l: Locker)
    requires Healthy(o, l, false) && !l.writeOpen
    ensures var e := WindDown(o, l); e.at == Exited && Consumed(e) && Quiet(e) && !e.writeOpen && !e.readOpen
  {
  }

  /** From every reachable state in which a write end is closed, the locker can
      end and the next check of the main thread joins it. */
  lemma TerminationCompletes(actions: seq<Action>, k: nat)
    requires var s := Run(SOURCE_ORDER, INIT, actions);
             s.at == Idle && k < |s.lockers| && !s.lockers[k].writeOpen
    ensures var s := Run(SOURCE_ORDER, INIT, actions);
            var t := Run(SOURCE_ORDER, s, [LockerStep(k, CountIdle), LockerStep(k, PipeHangup), LockerStep(k, Exit)]);
            Run(SOURCE_ORDER, t, [CheckFirst(k), CheckSecond]).lockers
            == s.lockers[k := WindDown(SOURCE_ORDER, s.lockers[k]).(joined := true)]
  {
    RunKeepsHealthy(SOURCE_ORDER, INIT, actions);
    WindDownIsJoined(SOURCE_ORDER, Run(SOURCE_ORDER, INIT, actions), k);
  }

  lemma WindDownIsJoined(o: Order, s: State, k: nat)
    requires o.sequenceFirst && AllHealthy(o, s) && s.at == Idle && k < |s.lockers| && !s.lockers[k].writeOpen
    ensures var t := Run(o, s, [LockerStep(k, CountIdle), LockerStep(k, PipeHangup), LockerStep(k, Exit)]);
            Run(o, t, [CheckFirst(k), CheckSecond]).lockers
            == s.lockers[k := WindDown(o, s.lockers[k]).(joined := true)]
  {
    var l := s.lockers[k];
    assert Healthy(o, l, MidSend(s.at, k));
    WindDownEnds(o, l);
    var l1 := MoveLocker(o, l, CountIdle);
    var l2 := MoveLocker(o, l1, PipeHangup);
    var t := s.(lockers := s.lockers[k := WindDown(o, l)]);
    RunThree(o, s, LockerStep(k, CountIdle), LockerStep(k, PipeHangup), LockerStep(k, Exit));
    MoveAgain(o, s, k, l1, PipeHangup);
    MoveAgain(o, s, k, l2, Exit);
    RunTwo(o, t, CheckFirst(k), CheckSecond);
    assert Step(o, t, CheckFirst(k)) == t.(at := Checking(k));
  }

  lemma MoveAgain(o: Order, s: State, k: nat, l: Locker, m: Move)
    requires k < |s.lockers|
    ensures Step(o, s.(lockers := s.lockers[k := l]), LockerStep(k, m))
         == s.(lockers := s.lockers[k := MoveLocker(o, l, m)])
  {
    assert s.lockers[k := l][k := MoveLocker(o, l, m)] == s.lockers[k := MoveLocker(o, l, m)];
  }

  lemma RunOne(o: Order, s: State, a: Action)
    ensures Run(o, s, [a]) == Step(o, s, a)
  {
    assert [a][1..] == [];
  }

  lemma RunTwo(o: Order, s: State, a: Action, b: Action)
    ensures Run(o, s, [a, b]) == Step(o, Step(o, s, a), b)
  {
    assert [a, b][1..] == [b];
    RunOne(o, Step(o, s, a), b);
  }

  lemma RunThree(o: Order, s: State, a: Action, b: Action, c: Action)
    ensures Run(o, s, [a, b, c]) == Step(o, Step(o, Step(o, s, a), b), c)
  {
    assert [a, b, c][1..] == [b, c];
    RunTwo(o, Step(o, s, a), b, c);
  }

  // ----- termination under fair scheduling ----------------------------------

  /** How far a locker with a closed write end is from its end. */
  function Rank(l: Locker): nat {
    if l.at == Exited then 0 else if l.at == TimedOut then 3 else if l.readOpen then 2 else 1
  }

  /** The move that brings it nearer. */
  function Helpful(rank: nat): Move {
    if rank == 3 then CountIdle else if rank == 2 then PipeHangup else Exit
  }

  lemma MoveRank(o: Order, l: Locker, m: Move)
    requires Healthy(o, l, false) && !l.writeOpen
    ensures Rank(MoveLocker(o, l, m)) <= Rank(l)
    ensures m == Helpful(Rank(l)) && Rank(l) > 0 ==> Rank(MoveLocker(o, l, m)) < Rank(l)
  {
  }

  ghost predicate Closing(s: State, k: nat) {
    AllHealthy(SOURCE_ORDER, s) && k < |s.lockers| && !s.lockers[k].writeOpen
  }

  /** No step of any thread takes a closing locker further from its end. */
  lemma StepRank(s: State, a: Action, k: nat)
    requires Closing(s, k)
    ensures var t := Step(SOURCE_ORDER, s, a);
            && Closing(t, k) && Rank(t.lockers[k]) <= Rank(s.lockers[k])
            && (a == LockerStep(k, Helpful(Rank(s.lockers[k]))) && Rank(s.lockers[k]) > 0 ==>
                  Rank(t.lockers[k]) < Rank(s.lockers[k]))
  {
    StepKeepsHealthy(SOURCE_ORDER, s, a);
    var l := s.lockers[k];
    assert Healthy(SOURCE_ORDER, l, MidSend(s.at, k));
    if a.LockerStep? && a.k == k {
      MoveKeepsHealthy(SOURCE_ORDER, l, false, a.move);
      MoveRank(SOURCE_ORDER, l, a.move);
    }
  }

  lemma {:induction false} RunRank(s: State, actions: seq<Action>, k: nat)
    requires Closing(s, k)
    ensures var t := Run(SOURCE_ORDER, s, actions);
            && Closing(t, k) && Rank(t.lockers[k]) <= Rank(s.lockers[k])
            && (LockerStep(k, Helpful(Rank(s.lockers[k]))) in actions && Rank(s.lockers[k]) > 0 ==>
                  Rank(t.lockers[k]) < Rank(s.lockers[k]))
    decreases |actions|
  {
    if actions == [] {
    } else {
      StepRank(s, actions[0], k);
      RunRank(Step(SOURCE_ORDER, s, actions[0]), actions[1..], k);
    }
  }

  /** A stretch of any interleaving in which the locker gets to make each of the
      moves that end it at least once. */
  predicate Round(actions: seq<Action>, k: nat) {
    LockerStep(k, CountIdle) in actions && LockerStep(k, PipeHangup) in actions && LockerStep(k, Exit) in actions
  }

  /** Whatever all threads do, after three such stretches the locker has ended. */
  lemma FairTermination(actions: seq<Action>, k: nat, a: seq<Action>, b: seq<Action>, c: seq<Action>)
    requires var s := Run(SOURCE_ORDER, INIT, actions); k < |s.lockers| && !s.lockers[k].writeOpen
    requires Round(a, k) && Round(b, k) && Round(c, k)
    ensures var s := Run(SOURCE_ORDER, INIT, actions);
            var t := Run(SOURCE_ORDER, Run(SOURCE_ORDER, Run(SOURCE_ORDER, s, a), b), c);
            k < |t.lockers| && t.lockers[k].at == Exited && Closing(t, k)
  {
    RunKeepsHealthy(SOURCE_ORDER, INIT, actions);
    ThreeRounds(Run(SOURCE_ORDER, INIT, actions), k, a, b, c);
  }

  lemma ThreeRounds(s: State, k: nat, a: seq<Action>, b: seq<Action>, c: seq<Action>)
    requires Closing(s, k) && Round(a, k) && Round(b, k) && Round(c, k)
    ensures var t := Run(SOURCE_ORDER, Run(SOURCE_ORDER, Run(SOURCE_ORDER, s, a), b), c);
            Closing(t, k) && t.lockers[k].at == Exited
  {
    RunRank(s, a, k);
    var s1 := Run(SOURCE_ORDER, s, a);
    RunRank(s1, b, k);
    var s2 := Run(SOURCE_ORDER, s1, b);
    RunRank(s2, c, k);
  }

  /** Then every complete check of the main thread joins it, whatever happens
      between its two reads. */
  lemma CheckJoins(s: State, k: nat, between: seq<Action>)
    requires Closing(s, k) && s.at == Idle && s.lockers[k].at == Exited && CheckSecond !in between
    ensures var t := Run(SOURCE_ORDER, Step(SOURCE_ORDER, s, CheckFirst(k)), between);
            k < |t.lockers| && Step(SOURCE_ORDER, t, CheckSecond).lockers[k].joined
  {
    assert Healthy(SOURCE_ORDER, s.lockers[k], MidSend(s.at, k));
    StepRank(s, CheckFirst(k), k);
    BetweenReads(Step(SOURCE_ORDER, s, CheckFirst(k)), k, between);
    var t := Run(SOURCE_ORDER, Step(SOURCE_ORDER, s, CheckFirst(k)), between);
    assert Healthy(SOURCE_ORDER, t.lockers[k], MidSend(t.at, k));
  }

  lemma {:induction false} BetweenReads(s: State, k: nat, between: seq<Action>)
    requires Closing(s, k) && s.at == Checking(k) && s.lockers[k].at == Exited && CheckSecond !in between
    ensures var t := Run(SOURCE_ORDER, s, between);
            Closing(t, k) && t.at == Checking(k) && t.lockers[k].at == Exited
    decreases |between|
  {
    if between == [] {
    } else {
      assert between[0] in between;
      StepRank(s, between[0], k);
      var t := Step(SOURCE_ORDER, s, between[0]);
      assert Rank(t.lockers[k]) == 0;
      BetweenReads(t, k, between[1..]);
    }
  }

  // ----- exactly once -------------------------------------------------------

  lemma {:induction false} HavePut(lockers: seq<Locker>, k: nat, l: Locker, conn: Conn)
    requires k < |lockers|
    ensures Have(lockers[k := l], conn) == Have(lockers, conn) - Has(lockers[k], conn) + Has(l, conn)
  {
    if k == 0 {
      assert lockers[0 := l][1..] == lockers[1..];
    } else {
      HavePut(lockers[1..], k - 1, l, conn);
      assert lockers[k := l][1..] == lockers[1..][k - 1 := l];
    }
  }

  lemma {:induction false} HaveLast(lockers: seq<Locker>, l: Locker, conn: Conn)
    ensures Have(lockers + [l], conn) == Have(lockers, conn) + Has(l, conn)
  {
    if lockers == [] {
      assert [] + [l] == [l] && [l][1..] == [];
    } else {
      HaveLast(lockers[1..], l, conn);
      assert (lockers + [l])[1..] == lockers[1..] + [l];
    }
  }

  lemma {:induction false} InPipeLast(pipe: seq<Item>, i: Item, conn: Conn)
    ensures InPipe(pipe + [i], conn) == InPipe(pipe, conn) + if i == Pointer(conn) then 1 else 0
  {
    if pipe == [] {
      assert [] + [i] == [i] && [i][1..] == [];
    } else {
      InPipeLast(pipe[1..], i, conn);
      assert (pipe + [i])[1..] == pipe[1..] + [i];
    }
  }

  /** Whether a move of a locker ends a connection. */
  predicate Ends(l: Locker, m: Move, conn: Conn) {
    l.at == Polling && conn in l.conns && (m == ClientData(conn, true) || m == ClientHangup(conn))
  }

  lemma ReadConserves(o: Order, l: Locker, m: Move, conn: Conn)
    requires m == ReadToken || m == ReadPointer
    ensures Has(MoveLocker(o, l, m), conn) == Has(l, conn)
  {
  }

  lemma ImportConserves(o: Order, l: Locker, m: Move, conn: Conn)
    requires m == FirstHalf || m == SecondHalf
    ensures Has(MoveLocker(o, l, m), conn) == Has(l, conn)
  {
    assert MoveLocker(o, l, m).pipe == l.pipe;
  }

  lemma ClientConserves(o: Order, l: Locker, m: Move, conn: Conn)
    requires m.ClientData? || m.ClientHangup?
    ensures Has(MoveLocker(o, l, m), conn) == Has(l, conn) - if Ends(l, m, conn) then 1 else 0
  {
    assert MoveLocker(o, l, m).pipe == l.pipe && MoveLocker(o, l, m).at == l.at;
  }

  lemma MoveConserves(o: Order, l: Locker, m: Move, conn: Conn)
    ensures Has(MoveLocker(o, l, m), conn) == Has(l, conn) - if Ends(l, m, conn) then 1 else 0
  {
    match m {
      case ReadToken => ReadConserves(o, l, m, conn);
      case ReadPointer => ReadConserves(o, l, m, conn);
      case FirstHalf => ImportConserves(o, l, m, conn);
      case SecondHalf => ImportConserves(o, l, m, conn);
      case ClientData(c, gone) => ClientConserves(o, l, m, conn);
      case ClientHangup(c) => ClientConserves(o, l, m, conn);
      case _ => assert MoveLocker(o, l, m).conns == l.conns && MoveLocker(o, l, m).pipe == l.pipe;
    }
  }

  /** How a step changes the number of places: only an arriving connection
      gets one and only an ended one loses one. */
  function Change(s: State, a: Action, conn: Conn): int {
    match a
    case Arrive(c) => if c == conn && s.at == Idle && Places(s, conn) == 0 then 1 else 0
    case Leave(c) => if c == conn && s.at == Idle && conn in s.conns then -1 else 0
    case LockerStep(k, move) => if k < |s.lockers| && Ends(s.lockers[k], move, conn) then -1 else 0
    case _ => 0
  }

  lemma SendConserves(o: Order, s: State, a: Action, conn: Conn)
    requires MainHealthy(s) && (a.SendToken? || a == SendPointer)
    ensures Places(Step(o, s, a), conn) == Places(s, conn)
  {
    if a.SendToken? && Step(o, s, a) != s {
      var l, n := s.lockers[a.k], s.lockers[a.k].writeSequence + 1;
      InPipeLast(l.pipe, Token(n), conn);
      HavePut(s.lockers, a.k, l.(writeSequence := n, pipe := l.pipe + [Token(n)]), conn);
    } else if a == SendPointer && s.at.Detached? {
      var l := s.lockers[s.at.k];
      InPipeLast(l.pipe, Pointer(s.at.conn), conn);
      HavePut(s.lockers, s.at.k, l.(pipe := l.pipe + [Pointer(s.at.conn)]), conn);
    }
  }

  lemma CheckConserves(o: Order, s: State, conn: Conn)
    requires MainHealthy(s)
    ensures Places(Step(o, s, CheckSecond), conn) == Places(s, conn)
  {
    if s.at.Checking? {
      var l := s.lockers[s.at.k];
      HavePut(s.lockers, s.at.k, if SecondTest(o, l) then Terminate(l) else l, conn);
    }
  }

  lemma StepConserves(o: Order, s: State, a: Action, conn: Conn)
    requires MainHealthy(s)
    ensures Places(Step(o, s, a), conn) == Places(s, conn) + Change(s, a, conn)
  {
    match a
    case StartLocker => HaveLast(s.lockers, NEW_LOCKER, conn);
    case SendToken(k, c) => SendConserves(o, s, a, conn);
    case SendPointer => SendConserves(o, s, a, conn);
    case CheckSecond => CheckConserves(o, s, conn);
    case LockerStep(k, move) =>
      if k < |s.lockers| {
        MoveConserves(o, s.lockers[k], move, conn);
        HavePut(s.lockers, k, MoveLocker(o, s.lockers[k], move), conn);
      }
    case _ =>
  }

  /** Whether a connection has arrived and not ended, from what the steps of
      the run did to it. */
  function Stands(o: Order, s: State, actions: seq<Action>, conn: Conn, now: bool): bool
    decreases |actions|
  {
    if actions == [] then now
    else
      var change := Change(s, actions[0], conn);
      Stands(o, Step(o, s, actions[0]), actions[1..], conn, if change == 0 then now else change > 0)
  }

  lemma {:induction false} RunPlaces(o: Order, s: State, actions: seq<Action>, conn: Conn, now: bool)
    requires o.sequenceFirst && ZeroedInTime(o) && AllHealthy(o, s) && Places(s, conn) == (if now then 1 else 0)
    ensures Places(Run(o, s, actions), conn) == if Stands(o, s, actions, conn, now) then 1 else 0
    decreases |actions|
  {
    if actions == [] {
    } else {
      var change := Change(s, actions[0], conn);
      StepKeepsHealthy(o, s, actions[0]);
      StepConserves(o, s, actions[0], conn);
      RunPlaces(o, Step(o, s, actions[0]), actions[1..], conn, if change == 0 then now else change > 0);
    }
  }

  /** In every interleaving a connection that has arrived and not ended is in
      exactly one place and any other in none, and the pipe of every locker
      holds in order the pairs not yet taken. */
  lemma ExactlyOnce(actions: seq<Action>, conn: Conn)
    ensures var s := Run(SOURCE_ORDER, INIT, actions);
            && Places(s, conn) == (if Stands(SOURCE_ORDER, INIT, actions, conn, false) then 1 else 0)
            && forall k | 0 <= k < |s.lockers| :: InOrder(s.lockers[k], MidSend(s.at, k))
  {
    RunKeepsHealthy(SOURCE_ORDER, INIT, actions);
    RunPlaces(SOURCE_ORDER, INIT, actions, conn, false);
    var s := Run(SOURCE_ORDER, INIT, actions);
    forall k | 0 <= k < |s.lockers| ensures InOrder(s.lockers[k], MidSend(s.at, k)) {
      assert Healthy(SOURCE_ORDER, s.lockers[k], MidSend(s.at, k));
    }
  }

  /** A step neither loses nor duplicates a connection. */
  lemma NeverLost(actions: seq<Action>, a: Action, conn: Conn)
    ensures var s := Run(SOURCE_ORDER, INIT, actions);
            Places(Step(SOURCE_ORDER, s, a), conn) == Places(s, conn) + Change(s, a, conn)
  {
    RunKeepsHealthy(SOURCE_ORDER, INIT, actions);
    StepConserves(SOURCE_ORDER, Run(SOURCE_ORDER, INIT, actions), a, conn);
  }

  // ----- what is sent arrives -----------------------------------------------

  /** What a locker does next when it is left to itself with a full pipe. */
  function NextMove(at: LockerAt): Move {
    match at
    case Polling => PollReadable
    case TimedOut => CountIdle
    case Readable => StartReading
    case Reading => ReadToken
    case GotToken(_) => ReadPointer
    case GotPointer(_, _) => FirstHalf
    case Imported(_) => SecondHalf
    case Published(_) => SecondHalf
    case Handled => EndHandling
    case Exited => Exit
  }

  /** How much it has to do until its pipe is empty and it polls again. */
  function Work(l: Locker): nat {
    10 * |l.pipe|
    + match l.at
      case Reading => 1 case Readable => 2 case Polling => 3 case TimedOut => 4 case Handled => 5
      case Imported(_) => 6 case Published(_) => 6 case GotPointer(_, _) => 7 case GotToken(_) => 8 case Exited => 0
  }

  predicate Busy(l: Locker) {
    l.at != Exited && l.readOpen && !(l.at == Polling && l.pipe == [])
  }

  lemma NextMoveWorks(o: Order, l: Locker)
    requires Healthy(o, l, false) && Busy(l)
    ensures Work(MoveLocker(o, l, NextMove(l.at))) < Work(l)
    ensures MoveLocker(o, l, NextMove(l.at)).readOpen && MoveLocker(o, l, NextMove(l.at)).at != Exited
  {
    if l.at.GotToken? { assert ([Token(l.at.sequence)] + l.pipe)[1] == l.pipe[0]; }
  }

  function StepsOf(k: nat, moves: seq<Move>): seq<Action> {
    if moves == [] then [] else [LockerStep(k, moves[0])] + StepsOf(k, moves[1..])
  }

  /** The locker has taken everything: what it had anywhere is in its array. */
  ghost predicate AllTaken(before: Locker, after: Locker) {
    && after.at == Polling && after.pipe == [] && Consumed(after)
    && forall conn :: after.conns[conn] == Has(before, conn)
  }

  lemma NothingToDo(o: Order, l: Locker)
    requires Healthy(o, l, false) && l.at == Polling && l.pipe == []
    ensures AllTaken(l, l)
  {
    PairsCount(l.pipe, l.readSequence, l.writeSequence, false);
  }

  lemma {:induction false} LockerTakesAll(o: Order, s: State, k: nat) returns (moves: seq<Move>)
    requires o.sequenceFirst && ZeroedInTime(o) && AllHealthy(o, s)
    requires k < |s.lockers| && !MidSend(s.at, k) && s.lockers[k].at != Exited && s.lockers[k].readOpen
    ensures var t := Run(o, s, StepsOf(k, moves));
            k < |t.lockers| && AllTaken(s.lockers[k], t.lockers[k]) && t.at == s.at && t.conns == s.conns
    decreases Work(s.lockers[k])
  {
    var l := s.lockers[k];
    assert Healthy(o, l, MidSend(s.at, k));
    if !Busy(l) {
      moves := [];
      NothingToDo(o, l);
    } else {
      var m := NextMove(l.at);
      NextMoveWorks(o, l);
      StepKeepsHealthy(o, s, LockerStep(k, m));
      var more := LockerTakesAll(o, Step(o, s, LockerStep(k, m)), k);
      moves := [m] + more;
      assert StepsOf(k, moves) == [LockerStep(k, m)] + StepsOf(k, more);
      forall conn ensures Has(MoveLocker(o, l, m), conn) == Has(l, conn) { MoveConserves(o, l, m, conn); }
    }
  }

  /** From every reachable state in which nothing is half sent to it, an open
      locker left to itself takes all connections it was sent into its array. */
  lemma Delivers(actions: seq<Action>, k: nat) returns (moves: seq<Move>)
    requires var s := Run(SOURCE_ORDER, INIT, actions);
             k < |s.lockers| && !MidSend(s.at, k) && s.lockers[k].writeOpen
    ensures var s := Run(SOURCE_ORDER, INIT, actions);
            var t := Run(SOURCE_ORDER, s, StepsOf(k, moves));
            k < |t.lockers| && AllTaken(s.lockers[k], t.lockers[k])
  {
    RunKeepsHealthy(SOURCE_ORDER, INIT, actions);
    var s := Run(SOURCE_ORDER, INIT, actions);
    assert Healthy(SOURCE_ORDER, s.lockers[k], MidSend(s.at, k));
    moves := LockerTakesAll(SOURCE_ORDER, s, k);
  }
}
