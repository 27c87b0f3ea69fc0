/** One lock call of a client against the daemon: the messages of steps 16 and
    24, the incubator and the queue, in any interleaving with other clients.
    When does "granted" mean the same on both sides? */
module Agreement {
  import opened Answers
  import opened Listing
  import opened Records
  import opened Words
  import H = HierResource
  import T = HierTree
  import N = NumericPool
  import Q = SequenceValues

  const STEP_INCR := 8

  datatype Answer = Answer(step: nat, rc: Rc)

  // ----- the client ---------------------------------------------------------

  datatype Failure = Told(rc: Rc) | ProtocolError | CantLock | InternalError

  datatype Outcome = Asking | Waiting | Done | Failed(why: Failure)

  /** The first answer decides or puts the client in the waiting loop. */
  function First(a: Answer): Outcome {
    if a.step != 2 * STEP_INCR then Failed(ProtocolError)
    else match a.rc
      case Ok => Done
      case Enqueued => Waiting
      case WaitResource => Waiting
      case InvalidResourceName => Failed(ProtocolError)
      case _ => Failed(Told(a.rc))
  }

  /** The first answer grants only with "ok" at its own step, and a failure the
      client is told about is the daemon's code. */
  lemma FirstMeans(a: Answer)
    ensures First(a) == Done <==> a == Answer(2 * STEP_INCR, Ok)
    ensures First(a) == Waiting <==> a.step == 2 * STEP_INCR && a.rc in {Enqueued, WaitResource}
    ensures forall rc :: First(a) == Failed(Told(rc)) ==> a.rc == rc && a.step == 2 * STEP_INCR
  {
  }

  /** In the loop only step 32 looks at the code for a failure; any code but
      "enqueued" ends it. */
  function Later(a: Answer): Outcome {
    if a.step != 2 * STEP_INCR && a.step != 3 * STEP_INCR && a.step != 4 * STEP_INCR then Failed(ProtocolError)
    else if a.step == 4 * STEP_INCR && a.rc != Ok then Failed(CantLock)
    else if a.rc == Enqueued then Waiting
    else if a.step == 2 * STEP_INCR then Failed(InternalError)
    else Done
  }

  /** In the loop an answer grants exactly at step 24 with any code but
      "enqueued", or at step 32 with "ok". */
  lemma LaterMeans(a: Answer)
    ensures Later(a) == Done <==>
            (a.step == 3 * STEP_INCR && a.rc != Enqueued) || (a.step == 4 * STEP_INCR && a.rc == Ok)
    ensures Later(a) == Waiting <==> a.step in {2 * STEP_INCR, 3 * STEP_INCR} && a.rc == Enqueued
  {
  }

  function Receive(o: Outcome, a: Answer): Outcome {
    match o
    case Asking => First(a)
    case Waiting => Later(a)
    case _ => o
  }

  function After(answers: seq<Answer>): Outcome
    decreases |answers|
  {
    if answers == [] then Asking
    else Receive(After(answers[..|answers| - 1]), answers[|answers| - 1])
  }

  // ----- the daemon's side --------------------------------------------------

  type Name = p: T.Path | p != [] witness [""]

  datatype Kind =
    | HierKind
    | NumericKind(name: string, total: int32)
    | SequenceKind(name: string, total: int32, transactional: bool)

  function Created(k: Kind, name: Name): Resource {
    match k
    case HierKind => Hier(H.Init(name))
    case NumericKind(n, total) => Numeric(N.Init(n, total))
    case SequenceKind(n, total, transactional) => Sequence(Q.Init(n, total, transactional))
  }

  datatype Session = Session(kind: Kind, conn: Conn, create: bool, wish: Wish)

  datatype Phase = Silent | Asked | Incubated | Handed(lastStep: nat) | Queued | Held | Refused

  /** `sent` are the answers in the client's channel, `read` how many of them
      it has read. */
  datatype World = World(at: Phase, resource: Option<Resource>, sent: seq<Answer>, read: nat)

  const INIT := World(Silent, None, [], 0)

  datatype Action =
    | Ask
    | MainHandles(name: Name)
    | LockerHandles
    | OtherCreates(name: Name)
    | LockerEnds
    | OtherActs(event: Event)
    | Read

  /** One message for every grant to the connection. */
  function Grants(granted: seq<Conn>, conn: Conn): seq<Answer> {
    if granted == [] then []
    else (if granted[0] == conn then [Answer(3 * STEP_INCR, Ok)] else []) + Grants(granted[1..], conn)
  }

  function PhaseAfter(rc: Rc): Phase {
    match rc
    case Ok => Held
    case Enqueued => Queued
    case _ => Refused
  }

  function Step(x: Session, w: World, a: Action): World {
    match a
    case Ask =>
      if w.at == Silent then w.(at := Asked) else w
    case MainHandles(name) =>
      if w.at != Asked then w
      else if w.resource.Some? then w.(at := Handed(STEP_INCR))
      else if x.create then w.(at := Handed(STEP_INCR), resource := Some(Created(x.kind, name)))
      else if !x.wish.wait then w.(at := Refused, sent := w.sent + [Answer(2 * STEP_INCR, CantWait)])
      else w.(at := Incubated, sent := w.sent + [Answer(2 * STEP_INCR, WaitResource)])
    case LockerHandles =>
      if w.at.Handed? && w.resource.Some? then
        var l := Lock(w.resource.value, x.conn, x.wish);
        w.(at := PhaseAfter(l.rc), resource := Some(l.resource),
           sent := w.sent + [Answer(w.at.lastStep + STEP_INCR, l.rc)])
      else w
    case OtherCreates(name) =>
      if w.resource == None then
        w.(resource := Some(Created(x.kind, name)), at := if w.at == Incubated then Handed(2 * STEP_INCR) else w.at)
      else w
    case LockerEnds =>
      if w.at in {Silent, Asked, Refused} then w.(resource := None) else w
    case OtherActs(event) =>
      if w.resource.Some? && Sender(event) != x.conn then
        var f := React(w.resource.value, event);
        w.(resource := Some(f.resource), sent := w.sent + Grants(f.granted, x.conn),
           at := if w.at == Queued && x.conn in f.granted then Held else w.at)
      else w
    case Read =>
      if w.read < |w.sent| then w.(read := w.read + 1) else w
  }

  function Run(x: Session, w: World, actions: seq<Action>): World
    decreases |actions|
  {
    if actions == [] then w else Run(x, Step(x, w, actions[0]), actions[1..])
  }

  // ----- the invariant ------------------------------------------------------

  ghost predicate IsHolder(w: World, conn: Conn) {
    w.resource.Some? && Holds(w.resource.value, conn)
  }

  ghost predicate IsWaiter(w: World, conn: Conn) {
    w.resource.Some? && Waits(w.resource.value, conn)
  }

  predicate IsOfKind(k: Kind, r: Resource) {
    match (k, r)
    case (HierKind, Hier(_)) => true
    case (NumericKind(_, total), Numeric(s)) => s.total == total
    case (SequenceKind(_, _, _), Sequence(_)) => true
    case _ => false
  }

  /** The one request that is refused with an answer the client misreads: it
      waited in the incubator for a pool that can never satisfy it. */
  predicate Misread(x: Session) {
    x.kind.NumericKind? && !x.create && x.wish.wait && x.wish.quantity > x.kind.total
  }

  /** What a failure says about the request. */
  predicate Justified(x: Session, why: Failure) {
    match why
    case Told(Impossible) => x.kind.NumericKind? && x.wish.quantity > x.kind.total
    case Told(Busy) => !x.wish.wait
    case Told(CantWait) => !x.create && !x.wish.wait
    case _ => false
  }

  ghost predicate Listed(x: Session, w: World) {
    match w.at
    case Silent => After(w.sent) == Asking && !IsHolder(w, x.conn) && !IsWaiter(w, x.conn)
    case Asked => After(w.sent) == Asking && !IsHolder(w, x.conn) && !IsWaiter(w, x.conn)
    case Incubated => After(w.sent) == Waiting && w.resource == None && x.wish.wait && !x.create
    case Handed(last) =>
      && w.resource.Some? && !IsHolder(w, x.conn) && !IsWaiter(w, x.conn)
      && ((last == STEP_INCR && After(w.sent) == Asking)
          || (last == 2 * STEP_INCR && After(w.sent) == Waiting && x.wish.wait && !x.create))
    case Queued => After(w.sent) == Waiting && IsWaiter(w, x.conn) && !IsHolder(w, x.conn)
    case Held => After(w.sent) == Done && IsHolder(w, x.conn)
    case Refused =>
      && !IsHolder(w, x.conn) && !IsWaiter(w, x.conn)
      && if After(w.sent).Failed? then Justified(x, After(w.sent).why) else Misread(x) && After(w.sent) == Done
  }

  ghost predicate Sane(x: Session, w: World) {
    && Listed(x, w) && w.read <= |w.sent|
    && (w.resource.Some? ==> IsOfKind(x.kind, w.resource.value))
  }

  predicate Final(o: Outcome) {
    o == Done || o.Failed?
  }

  lemma AfterOne(answers: seq<Answer>, a: Answer)
    ensures After(answers + [a]) == Receive(After(answers), a)
  {
    assert (answers + [a])[..|answers|] == answers;
  }

  /** A client that has its result does not look at later answers. */
  lemma {:induction false} FinalStays(answers: seq<Answer>, n: nat)
    requires n <= |answers| && Final(After(answers[..n]))
    ensures After(answers) == After(answers[..n])
    decreases |answers|
  {
    if n < |answers| {
      var m := |answers| - 1;
      assert answers[..m][..n] == answers[..n];
      FinalStays(answers[..m], n);
    } else {
      assert answers[..n] == answers;
    }
  }

  lemma {:induction false} GrantsTell(answers: seq<Answer>, granted: seq<Conn>, conn: Conn)
    requires After(answers) == Waiting || Final(After(answers))
    ensures conn in granted && After(answers) == Waiting ==> After(answers + Grants(granted, conn)) == Done
    ensures conn !in granted || Final(After(answers)) ==> After(answers + Grants(granted, conn)) == After(answers)
    decreases |granted|
  {
    if granted == [] {
      assert answers + [] == answers;
    } else if granted[0] == conn {
      GrantsFirst(answers, granted, conn);
      AfterOne(answers, Answer(3 * STEP_INCR, Ok));
      GrantsTell(answers + [Answer(3 * STEP_INCR, Ok)], granted[1..], conn);
    } else {
      GrantsTell(answers, granted[1..], conn);
      assert Grants(granted, conn) == Grants(granted[1..], conn);
    }
  }

  lemma GrantsFirst(answers: seq<Answer>, granted: seq<Conn>, conn: Conn)
    requires granted != [] && granted[0] == conn
    ensures answers + Grants(granted, conn) == answers + [Answer(3 * STEP_INCR, Ok)] + Grants(granted[1..], conn)
  {
  }

  lemma NobodyAtFirst(k: Kind, name: Name, conn: Conn)
    ensures !Holds(Created(k, name), conn) && !Waits(Created(k, name), conn) && IsOfKind(k, Created(k, name))
  {
    if k == HierKind { H.EmptyChain(name, []); }
  }

  lemma OthersKeepKind(k: Kind, r: Resource, e: Event)
    requires IsOfKind(k, r)
    ensures IsOfKind(k, React(r, e).resource)
  {
  }

  lemma LockAnswers(k: Kind, r: Resource, conn: Conn, w: Wish)
    requires IsOfKind(k, r)
    ensures var l := Lock(r, conn, w);
            && IsOfKind(k, l.resource) && l.rc in {Ok, Enqueued, Busy, Impossible}
            && (l.rc == Enqueued ==> w.wait) && (l.rc == Busy ==> !w.wait)
            && (l.rc == Impossible ==> k.NumericKind? && w.quantity > k.total)
  {
  }

  lemma HandlingKeepsSane(x: Session, w: World)
    requires Sane(x, w)
    ensures Sane(x, Step(x, w, LockerHandles))
  {
    if w.at.Handed? {
      var l := Lock(w.resource.value, x.conn, x.wish);
      LockLists(w.resource.value, x.conn, x.wish);
      LockAnswers(x.kind, w.resource.value, x.conn, x.wish);
      AfterOne(w.sent, Answer(w.at.lastStep + STEP_INCR, l.rc));
    }
  }

  lemma NoGrants(granted: seq<Conn>, conn: Conn)
    requires conn !in granted
    ensures Grants(granted, conn) == []
  {
  }

  lemma OthersKeepSane(x: Session, w: World, event: Event)
    requires Sane(x, w)
    ensures Sane(x, Step(x, w, OtherActs(event)))
  {
    if w.resource.Some? && Sender(event) != x.conn {
      var f := React(w.resource.value, event);
      OthersRespect(w.resource.value, event, x.conn);
      OthersKeepKind(x.kind, w.resource.value, event);
      if x.conn in f.granted || w.at == Held || w.at == Refused {
        GrantsTell(w.sent, f.granted, x.conn);
      } else {
        NoGrants(f.granted, x.conn);
        assert w.sent + [] == w.sent;
      }
    }
  }

  lemma MainKeepsSane(x: Session, w: World, name: Name)
    requires Sane(x, w)
    ensures Sane(x, Step(x, w, MainHandles(name)))
  {
    NobodyAtFirst(x.kind, name, x.conn);
    AfterOne(w.sent, Answer(2 * STEP_INCR, CantWait));
    AfterOne(w.sent, Answer(2 * STEP_INCR, WaitResource));
  }

  lemma StepKeepsSane(x: Session, w: World, a: Action)
    requires Sane(x, w)
    ensures Sane(x, Step(x, w, a))
  {
    match a
    case MainHandles(name) =>
      MainKeepsSane(x, w, name);
    case OtherCreates(name) =>
      NobodyAtFirst(x.kind, name, x.conn);
    case LockerHandles =>
      HandlingKeepsSane(x, w);
    case OtherActs(event) =>
      OthersKeepSane(x, w, event);
    case _ =>
  }

  lemma {:induction false} RunKeepsSane(x: Session, w: World, actions: seq<Action>)
    requires Sane(x, w)
    ensures Sane(x, Run(x, w, actions))
    decreases |actions|
  {
    if actions == [] {
    } else {
      StepKeepsSane(x, w, actions[0]);
      RunKeepsSane(x, Step(x, w, actions[0]), actions[1..]);
    }
  }

  // ----- agreement ----------------------------------------------------------

  function ClientOutcome(w: World): Outcome
    requires w.read <= |w.sent|
  {
    After(w.sent[..w.read])
  }

  /** A client told "granted" is listed as a holder; one told of a failure is
      listed nowhere. */
  ghost predicate Agrees(x: Session, w: World) {
    && w.read <= |w.sent|
    && (ClientOutcome(w) == Done ==> IsHolder(w, x.conn))
    && (ClientOutcome(w).Failed? ==> !IsHolder(w, x.conn) && !IsWaiter(w, x.conn))
  }

  lemma SaneAgrees(x: Session, w: World)
    requires Sane(x, w) && !Misread(x)
    ensures Agrees(x, w)
  {
    if Final(ClientOutcome(w)) { FinalStays(w.sent, w.read); }
  }

  const TOLD_TO_WAIT := Answer(2 * STEP_INCR, WaitResource)
  const TOLD_IMPOSSIBLE := Answer(3 * STEP_INCR, Impossible)

  /** The misread refusal: no pool with that total can satisfy the request. */
  lemma MisreadDisagrees(x: Session) returns (actions: seq<Action>)
    requires Misread(x)
    ensures !Agrees(x, Run(x, INIT, actions))
  {
    var name: Name := [""];
    actions := [Ask, MainHandles(name), OtherCreates(name), LockerHandles, Read, Read];
    RunSix(x, INIT, actions);
    MisreadRun(x, name);
    MisreadAnswers();
    NobodyAtFirst(x.kind, name, x.conn);
  }

  lemma MisreadRun(x: Session, name: Name)
    requires Misread(x)
    ensures Step(x, Step(x, Step(x, Step(x, Step(x, Step(x, INIT, Ask), MainHandles(name)), OtherCreates(name)),
                                 LockerHandles), Read), Read)
         == World(Refused, Some(Created(x.kind, name)), [TOLD_TO_WAIT, TOLD_IMPOSSIBLE], 2)
  {
    var pool := Created(x.kind, name);
    var w1 := World(Incubated, None, [TOLD_TO_WAIT], 0);
    var w2 := World(Handed(2 * STEP_INCR), Some(pool), [TOLD_TO_WAIT], 0);
    var w3 := World(Refused, Some(pool), [TOLD_TO_WAIT, TOLD_IMPOSSIBLE], 0);
    assert Step(x, Step(x, INIT, Ask), MainHandles(name)) == w1;
    assert Step(x, w1, OtherCreates(name)) == w2;
    assert Step(x, w2, LockerHandles) == w3 by {
      assert Lock(pool, x.conn, x.wish).rc == Impossible;
    }
    assert Step(x, Step(x, w3, Read), Read) == w3.(read := 2);
  }

  lemma MisreadAnswers()
    ensures After([TOLD_TO_WAIT, TOLD_IMPOSSIBLE][..2]) == Done
  {
    AfterOne([], TOLD_TO_WAIT);
    AfterOne([TOLD_TO_WAIT], TOLD_IMPOSSIBLE);
    assert [TOLD_TO_WAIT, TOLD_IMPOSSIBLE][..2] == [TOLD_TO_WAIT] + [TOLD_IMPOSSIBLE];
    assert [] + [TOLD_TO_WAIT] == [TOLD_TO_WAIT];
  }

  lemma RunSix(x: Session, w: World, a: seq<Action>)
    requires |a| == 6
    ensures Run(x, w, a)
         == Step(x, Step(x, Step(x, Step(x, Step(x, Step(x, w, a[0]), a[1]), a[2]), a[3]), a[4]), a[5])
  {
    var w2 := Step(x, Step(x, w, a[0]), a[1]);
    RunTwo(x, w, a);
    RunTwo(x, w2, a[2..]);
    RunTwo(x, Step(x, Step(x, w2, a[2]), a[3]), a[4..]);
    assert a[2..][2..] == a[4..] && a[4..][2..] == [];
  }

  lemma RunTwo(x: Session, w: World, a: seq<Action>)
    requires |a| >= 2
    ensures Run(x, w, a) == Run(x, Step(x, Step(x, w, a[0]), a[1]), a[2..])
  {
    assert a[1..][1..] == a[2..];
  }

  /** Client and daemon agree in every run exactly when the request is not one
      for more than the total of a numeric resource that somebody else is to
      create. */
  lemma AgreementExactly(x: Session)
    ensures (forall actions :: Agrees(x, Run(x, INIT, actions))) <==> !Misread(x)
  {
    if Misread(x) {
      var actions := MisreadDisagrees(x);
      assert !Agrees(x, Run(x, INIT, actions));
    } else {
      forall actions: seq<Action> ensures Agrees(x, Run(x, INIT, actions)) {
        RunKeepsSane(x, INIT, actions);
        SaneAgrees(x, Run(x, INIT, actions));
      }
    }
  }

  /** A client is told "impossible" only if it asked for more than the total,
      "busy" only if it does not wait, and "cannot wait" only if it neither waits
      nor creates; it is told of no other failure. */
  lemma FailureMeans(x: Session, actions: seq<Action>)
    ensures var w := Run(x, INIT, actions);
            w.read <= |w.sent| && (ClientOutcome(w).Failed? ==> Justified(x, ClientOutcome(w).why))
  {
    RunKeepsSane(x, INIT, actions);
    var w := Run(x, INIT, actions);
    if Final(ClientOutcome(w)) { FinalStays(w.sent, w.read); }
  }

  /** Once all answers are read, "granted" and "holder" are the same. */
  lemma GrantedIffHolder(x: Session, actions: seq<Action>)
    requires !Misread(x)
    ensures var w := Run(x, INIT, actions);
            w.read == |w.sent| ==> (ClientOutcome(w) == Done <==> IsHolder(w, x.conn))
  {
    RunKeepsSane(x, INIT, actions);
    var w := Run(x, INIT, actions);
    if w.read == |w.sent| { assert w.sent[..w.read] == w.sent; }
  }
}
