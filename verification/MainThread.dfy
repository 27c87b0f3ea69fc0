/** The main thread: which locker a client is handed to, when a new locker is
    started, and the incubator of clients waiting for somebody else to create
    the resource they want. */
module MainThread {
  import opened Answers
  import opened Connections
  import opened HierResource
  import opened HierTree
  import opened Records

  // ----- which resource a name belongs to -----------------------------------

  const SEPARATOR := '/'

  /** Among valid names, those that start with the separator are hierarchical
      and no other are. */
  predicate IsHier(name: string) {
    name != "" && name[0] == SEPARATOR
  }

  function FirstLevel(s: string): (r: string)
    ensures SEPARATOR !in r
  {
    if s == "" || s[0] == SEPARATOR then "" else [s[0]] + FirstLevel(s[1..])
  }

  /** The first level of a name is all of it up to the first separator. */
  predicate UpToSeparator(f: string, s: string) {
    SEPARATOR !in f && f <= s && (|f| < |s| ==> s[|f|] == SEPARATOR)
  }

  lemma {:induction false} FirstLevelMeans(s: string)
    ensures UpToSeparator(FirstLevel(s), s)
    decreases |s|
  {
    if s == "" || s[0] == SEPARATOR {
    } else {
      FirstLevelMeans(s[1..]);
      assert s == [s[0]] + s[1..];
      assert |FirstLevel(s)| < |s| ==> s[|FirstLevel(s)|] == s[1..][|FirstLevel(s[1..])|];
    }
  }

  /** There is only one such prefix. */
  lemma {:induction false} FirstLevelOnly(f: string, s: string)
    requires UpToSeparator(f, s)
    ensures f == FirstLevel(s)
    decreases |f|
  {
    if f == "" {
    } else {
      assert f[0] == s[0] && f == [f[0]] + f[1..];
      assert |f| < |s| ==> s[1..][|f[1..]|] == s[|f|];
      FirstLevelOnly(f[1..], s[1..]);
    }
  }

  /** A hierarchical locker compares only the first level. */
  predicate Manages(lockerName: string, name: string) {
    if IsHier(lockerName) then IsHier(name) && FirstLevel(name[1..]) == FirstLevel(lockerName[1..])
    else lockerName == name
  }

  /** Of two hierarchical names one manages the other exactly when, after the
      leading separator, they are the same up to the next one. */
  lemma ManagesMeans(a: string, b: string)
    requires IsHier(a) && IsHier(b)
    ensures Manages(a, b) <==> exists f :: UpToSeparator(f, a[1..]) && UpToSeparator(f, b[1..])
  {
    FirstLevelMeans(a[1..]);
    FirstLevelMeans(b[1..]);
    if f :| UpToSeparator(f, a[1..]) && UpToSeparator(f, b[1..]) {
      FirstLevelOnly(f, a[1..]);
      FirstLevelOnly(f, b[1..]);
    }
  }

  function Key(name: string): string {
    if IsHier(name) then [SEPARATOR] + FirstLevel(name[1..]) else name
  }

  /** The comparison is an equivalence: both names have the same key. */
  lemma ManagesIsSameKey(a: string, b: string)
    ensures Manages(a, b) <==> Key(a) == Key(b)
  {
    if IsHier(a) {
      assert Key(a)[1..] == FirstLevel(a[1..]);
      if IsHier(b) { assert Key(b)[1..] == FirstLevel(b[1..]); }
    }
  }

  function Levels(s: string): (p: Path)
    ensures p != []
    decreases |s|
  {
    var n := |FirstLevel(s)|;
    if n < |s| then [FirstLevel(s)] + Levels(s[n + 1..]) else [FirstLevel(s)]
  }

  function Join(p: Path): string
    requires p != []
  {
    if |p| == 1 then p[0] else p[0] + [SEPARATOR] + Join(p[1..])
  }

  /** The levels are free of separators, and joined by them give back the name. */
  lemma {:induction false} LevelsJoin(s: string)
    ensures Join(Levels(s)) == s
    ensures forall i | 0 <= i < |Levels(s)| :: SEPARATOR !in Levels(s)[i]
    decreases |s|
  {
    var f := FirstLevel(s);
    FirstLevelMeans(s);
    if |f| < |s| {
      LevelsJoin(s[|f| + 1..]);
      assert Levels(s)[1..] == Levels(s[|f| + 1..]);
      assert s == f + [SEPARATOR] + s[|f| + 1..];
    }
  }

  /** No other path does. */
  lemma {:induction false} JoinLevels(p: Path)
    requires p != [] && forall i | 0 <= i < |p| :: SEPARATOR !in p[i]
    ensures Levels(Join(p)) == p
    decreases |p|
  {
    var s := Join(p);
    if |p| == 1 {
      FirstLevelOnly(p[0], s);
    } else {
      FirstLevelOnly(p[0], s);
      JoinLevels(p[1..]);
      assert s[|p[0]| + 1..] == Join(p[1..]);
      assert [p[0]] + p[1..] == p;
    }
  }

  /** A client handed to a hierarchical locker locks below that locker's root,
      which is what the safety of the resource needs. */
  lemma HandedLocksAreLocal(lockerName: string, name: string)
    requires IsHier(lockerName) && Manages(lockerName, name)
    ensures SameResource(Init(Levels(lockerName[1..])).root, Levels(name[1..]))
  {
  }

  // ----- the state ----------------------------------------------------------

  /** A locker as the main thread sees it, with all it was handed so far. */
  datatype Managed = Managed(name: string, writeOpen: bool, readOpen: bool, writeSequence: nat, handed: seq<Client>)

  datatype Main = Main(conns: seq<Client>, lockers: seq<Managed>)

  predicate Active(l: Managed) {
    l.writeOpen && l.readOpen
  }

  predicate Serves(l: Managed, name: string) {
    Active(l) && Manages(l.name, name)
  }

  /** The first locker with both pipes open that manages the name. */
  function FindLocker(lockers: seq<Managed>, name: string): (k: nat)
    ensures k <= |lockers|
    ensures k < |lockers| ==> Serves(lockers[k], name)
    ensures forall i | 0 <= i < k :: !Serves(lockers[i], name)
  {
    if lockers == [] || Serves(lockers[0], name) then 0 else 1 + FindLocker(lockers[1..], name)
  }

  // ----- flom_accept_loop_transfer ------------------------------------------

  function HandOver(l: Managed, c: Client): Managed {
    l.(writeSequence := l.writeSequence + 1, handed := l.handed + [c.(state := Locker)])
  }

  predicate Leaves(lockerName: string, c: Client) {
    c.waiting && Manages(lockerName, c.request.name)
  }

  function LeavesFor(lockerName: string): Client -> bool {
    c => Leaves(lockerName, c)
  }

  function AllHandedOver(l: Managed, cs: seq<Client>): Managed
    decreases |cs|
  {
    if cs == [] then l else AllHandedOver(HandOver(l, cs[0]), cs[1..])
  }

  /** The drain of the incubator: from index 1 on, every connection that waits
      for a name the new locker manages is handed to it. */
  function Drain(conns: seq<Client>, i: nat, l: Managed): (seq<Client>, Managed) {
    var t := Sift(conns, i, LeavesFor(l.name));
    (t.rest, AllHandedOver(l, t.removed))
  }

  datatype Transferred = Transferred(main: Main, answer: Option<Rc>)

  function HandedTo(m: Main, id: nat, k: nat): Transferred
    requires id < |m.conns| && k < |m.lockers|
  {
    Transferred(Main(RemoveFast(m.conns, id), m.lockers[k := HandOver(m.lockers[k], m.conns[id])]), None)
  }

  /** The request of connection `id`. `starts` is false when the resource could
      not be initialised. */
  function Transfer(m: Main, id: nat, starts: bool): Transferred
    requires id < |m.conns|
  {
    var c := m.conns[id];
    var k := FindLocker(m.lockers, c.request.name);
    if !c.request.valid then Transferred(m, Some(InvalidResourceName))
    else if k < |m.lockers| then HandedTo(m, id, k)
    else if !c.request.create then
      if !c.request.wait then Transferred(m, Some(CantWait))
      else Transferred(m.(conns := m.conns[id := c.(waiting := true)]), Some(WaitResource))
    else if !starts then Transferred(m, None)
    else
      var drained := Drain(RemoveFast(m.conns, id), 1, HandOver(Managed(c.request.name, true, true, 0, []), c));
      Transferred(Main(drained.0, m.lockers + [drained.1]), None)
  }

  datatype Event =
    | Accept(conn: Conn)
    | Ask(id: nat, request: Request, starts: bool)
    | Close(id: nat)
    | CleanUp
    | CloseWrite(k: nat)
    | CloseRead(k: nat)
    | Join(k: nat)

  /** Slot 0 is the listener: it asks nothing and is not closed. A closed
      connection asks nothing either, and a pipe is closed or a locker joined in
      the order the threads keep. Any client may ask again, also one in the
      incubator. */
  function Step(m: Main, e: Event): Main {
    match e
    case Accept(conn) =>
      m.(conns := m.conns + [Client(conn, Daemon, false, Request("", false, false, false))])
    case Ask(id, request, starts) =>
      if 0 < id < |m.conns| && m.conns[id].state == Daemon
      then Transfer(m.(conns := m.conns[id := m.conns[id].(request := request)]), id, starts).main
      else m
    case Close(id) =>
      if 0 < id < |m.conns| then m.(conns := m.conns[id := m.conns[id].(state := Remove)]) else m
    case CleanUp =>
      m.(conns := Sift(m.conns, 0, IsRemoved).rest)
    case CloseWrite(k) =>
      if k < |m.lockers| then m.(lockers := m.lockers[k := m.lockers[k].(writeOpen := false)]) else m
    case CloseRead(k) =>
      if k < |m.lockers| && !m.lockers[k].writeOpen
      then m.(lockers := m.lockers[k := m.lockers[k].(readOpen := false)]) else m
    case Join(k) =>
      if k < |m.lockers| && !m.lockers[k].writeOpen && !m.lockers[k].readOpen
      then m.(lockers := Drop(m.lockers, k)) else m
  }

  function Run(m: Main, es: seq<Event>): Main
    decreases |es|
  {
    if es == [] then m else Run(Step(m, es[0]), es[1..])
  }

  // ----- the drain ----------------------------------------------------------

  function Moved(cs: seq<Client>): seq<Client> {
    if cs == [] then [] else [cs[0].(state := Locker)] + Moved(cs[1..])
  }

  lemma {:induction false} AllHandedOverMeans(l: Managed, cs: seq<Client>)
    ensures AllHandedOver(l, cs)
         == l.(writeSequence := l.writeSequence + |cs|, handed := l.handed + Moved(cs))
    decreases |cs|
  {
    if cs == [] {
      assert l.handed + [] == l.handed;
    } else {
      AllHandedOverMeans(HandOver(l, cs[0]), cs[1..]);
      Joined(l.handed, cs[0].(state := Locker), Moved(cs[1..]));
    }
  }

  lemma Joined(a: seq<Client>, c: Client, b: seq<Client>)
    ensures a + [c] + b == a + ([c] + b)
  {
  }

  lemma DrainStep(conns: seq<Client>, i: nat, l: Managed)
    requires i < |conns|
    ensures Drain(conns, i, l) ==
            if Leaves(l.name, conns[i]) then Drain(RemoveFast(conns, i), i, HandOver(l, conns[i]))
            else Drain(conns, i + 1, l)
  {
    if Leaves(l.name, conns[i]) {
      var t := Sift(RemoveFast(conns, i), i, LeavesFor(l.name));
      assert ([conns[i]] + t.removed)[1..] == t.removed;
    }
  }

  /** The drain hands over exactly the matching waiting connections, each once
      and with its own sequence number, and leaves slot 0 where it is. */
  lemma DrainMoves(conns: seq<Client>, l: Managed) returns (moved: seq<Client>)
    requires conns != []
    ensures var d := Drain(conns, 1, l);
            && multiset(conns) == multiset(d.0) + multiset(moved)
            && (forall k | 0 <= k < |moved| :: Leaves(l.name, moved[k]))
            && d.0 != [] && d.0[0] == conns[0]
            && (forall k | 1 <= k < |d.0| :: !Leaves(l.name, d.0[k]))
            && d.1 == l.(writeSequence := l.writeSequence + |moved|, handed := l.handed + Moved(moved))
  {
    SiftContents(conns, 1, LeavesFor(l.name));
    var t := Sift(conns, 1, LeavesFor(l.name));
    moved := t.removed;
    AllHandedOverMeans(l, moved);
    assert t.rest[0] == t.rest[..1][0] && conns[0] == conns[..1][0];
  }

  /** A second slot that does not wait, such as the multicast listener, stays
      in place too. */
  lemma DrainKeepsSecond(conns: seq<Client>, l: Managed)
    requires |conns| >= 2 && !conns[1].waiting
    ensures |Drain(conns, 1, l).0| >= 2 && Drain(conns, 1, l).0[1] == conns[1]
  {
    SiftKeepsFront(conns, 1, 2, LeavesFor(l.name));
    var r := Drain(conns, 1, l).0;
    assert r[1] == r[..2][1] && conns[1] == conns[..2][1];
  }

  // ----- one active locker, nobody forgotten --------------------------------

  ghost predicate OneActive(lockers: seq<Managed>) {
    forall i, j | 0 <= i < j < |lockers| && Active(lockers[i]) && Active(lockers[j]) ::
      Key(lockers[i].name) != Key(lockers[j].name)
  }

  /** No connection of the array waits for a name that an active locker
      manages. */
  ghost predicate NobodyForgotten(conns: seq<Client>, lockers: seq<Managed>) {
    forall c, l | c in conns && l in lockers && c.waiting :: !Serves(l, c.request.name)
  }

  predicate Listening(conns: seq<Client>) {
    conns != [] && conns[0].state == Daemon && !conns[0].waiting
  }

  ghost predicate Consistent(m: Main) {
    OneActive(m.lockers) && NobodyForgotten(m.conns, m.lockers) && Listening(m.conns)
  }

  /** The one event after which a client is forgotten: a client in the
      incubator asks again with an invalid name that an active locker manages.
      It is refused, but it goes on waiting, now under that name. */
  ghost predicate Forgets(m: Main, e: Event) {
    && e.Ask? && 0 < e.id < |m.conns| && m.conns[e.id].state == Daemon && m.conns[e.id].waiting
    && !e.request.valid && exists l :: l in m.lockers && Serves(l, e.request.name)
  }

  lemma FewerWaiters(before: seq<Client>, after: seq<Client>, lockers: seq<Managed>)
    requires NobodyForgotten(before, lockers)
    requires forall c | c in after && c.waiting :: c in before
    ensures NobodyForgotten(after, lockers)
  {
  }

  lemma FewerActive(conns: seq<Client>, lockers: seq<Managed>, k: nat, l: Managed)
    requires k < |lockers| && OneActive(lockers) && NobodyForgotten(conns, lockers)
    requires l.name == lockers[k].name && (Active(l) ==> Active(lockers[k]))
    ensures OneActive(lockers[k := l]) && NobodyForgotten(conns, lockers[k := l])
  {
    forall c, a | c in conns && a in lockers[k := l] && c.waiting ensures !Serves(a, c.request.name) {
      var i :| 0 <= i < |lockers| && lockers[k := l][i] == a;
      assert lockers[i] in lockers;
    }
  }

  lemma OneLockerLess(conns: seq<Client>, lockers: seq<Managed>, k: nat)
    requires k < |lockers| && OneActive(lockers) && NobodyForgotten(conns, lockers)
    ensures OneActive(Drop(lockers, k)) && NobodyForgotten(conns, Drop(lockers, k))
  {
    var ls := Drop(lockers, k);
    forall i, j | 0 <= i < j < |ls| && Active(ls[i]) && Active(ls[j]) ensures Key(ls[i].name) != Key(ls[j].name) {
      var a, b := if i < k then i else i + 1, if j < k then j else j + 1;
      assert ls[i] == lockers[a] && ls[j] == lockers[b];
    }
    forall l | l in ls ensures l in lockers {
      assert l in lockers[..k] || l in lockers[k + 1..];
    }
  }

  lemma FindNobody(lockers: seq<Managed>, name: string)
    requires FindLocker(lockers, name) == |lockers|
    ensures forall l | l in lockers && Active(l) :: Key(l.name) != Key(name)
  {
    forall l | l in lockers && Active(l) ensures Key(l.name) != Key(name) {
      ManagesIsSameKey(l.name, name);
    }
  }

  lemma HandKeepsConsistent(m: Main, id: nat, k: nat)
    requires ConsistentBut(m, id) && k < |m.lockers|
    ensures Consistent(Main(RemoveFast(m.conns, id), m.lockers[k := HandOver(m.lockers[k], m.conns[id])]))
  {
    FewerActive(RemoveFast(m.conns, id), m.lockers, k, HandOver(m.lockers[k], m.conns[id]));
  }

  lemma StartKeepsConsistent(m: Main, id: nat, name: string, l: Managed)
    requires ConsistentBut(m, id) && FindLocker(m.lockers, name) == |m.lockers| && l.name == name
    ensures var d := Drain(RemoveFast(m.conns, id), 1, l); Consistent(Main(d.0, m.lockers + [d.1]))
  {
    var conns := RemoveFast(m.conns, id);
    var d := Drain(conns, 1, l);
    var moved := DrainMoves(conns, l);
    FindNobody(m.lockers, name);
    forall c | c in d.0 && c.waiting ensures c in conns && !Serves(d.1, c.request.name) {
      assert c in multiset(conns);
    }
    FewerWaiters(conns, d.0, m.lockers);
  }

  /** Consistent but for one client whose request is being looked at. */
  ghost predicate ConsistentBut(m: Main, id: nat) {
    && OneActive(m.lockers) && Listening(m.conns) && 0 < id < |m.conns|
    && NobodyForgotten(RemoveFast(m.conns, id), m.lockers)
  }

  ghost predicate Unserved(lockers: seq<Managed>, name: string) {
    forall l | l in lockers :: !Serves(l, name)
  }

  lemma PutBackInPlace(m: Main, id: nat, c: Client)
    requires ConsistentBut(m, id) && (c.waiting ==> Unserved(m.lockers, c.request.name))
    ensures Consistent(m.(conns := m.conns[id := c]))
  {
    var conns := m.conns[id := c];
    forall o, l | o in conns && l in m.lockers && o.waiting ensures !Serves(l, o.request.name) {
      if o != c {
        var i :| 0 <= i < |conns| && conns[i] == o;
        StillThere(m.conns, id, i);
      }
    }
  }

  lemma StillThere(conns: seq<Client>, id: nat, i: nat)
    requires id < |conns| && i < |conns| && i != id
    ensures conns[i] in RemoveFast(conns, id)
  {
    var r := RemoveFast(conns, id);
    if i < |conns| - 1 { assert r[i] == conns[i]; } else { assert r[id] == conns[i]; }
  }

  lemma TransferKeepsConsistent(m: Main, id: nat, starts: bool)
    requires ConsistentBut(m, id)
    requires m.conns[id].waiting && !m.conns[id].request.valid ==> Unserved(m.lockers, m.conns[id].request.name)
    ensures Consistent(Transfer(m, id, starts).main)
  {
    var c := m.conns[id];
    var k := FindLocker(m.lockers, c.request.name);
    assert m.conns[id := c] == m.conns;
    if !c.request.valid {
      PutBackInPlace(m, id, c);
    } else if k < |m.lockers| {
      HandKeepsConsistent(m, id, k);
    } else if !c.request.create {
      FoundNobody(m.lockers, c.request.name);
      PutBackInPlace(m, id, c);
      PutBackInPlace(m, id, c.(waiting := true));
    } else if starts {
      StartKeepsConsistent(m, id, c.request.name, HandOver(Managed(c.request.name, true, true, 0, []), c));
    } else {
      FoundNobody(m.lockers, c.request.name);
      PutBackInPlace(m, id, c);
    }
  }

  lemma FoundNobody(lockers: seq<Managed>, name: string)
    requires FindLocker(lockers, name) == |lockers|
    ensures Unserved(lockers, name)
  {
  }

  lemma CleanUpKeepsConsistent(m: Main)
    requires Consistent(m)
    ensures Consistent(m.(conns := Sift(m.conns, 0, IsRemoved).rest))
  {
    var rest := Sift(m.conns, 0, IsRemoved).rest;
    SiftContents(m.conns, 0, IsRemoved);
    SiftKeepsFront(m.conns, 0, 1, IsRemoved);
    assert rest[0] == rest[..1][0] && m.conns[0] == m.conns[..1][0];
    forall c | c in rest && c.waiting ensures c in m.conns {
      assert c in multiset(rest) && c in multiset(m.conns);
    }
  }

  lemma AskKeepsConsistent(m: Main, id: nat, request: Request, starts: bool)
    requires Consistent(m) && 0 < id < |m.conns| && m.conns[id].state == Daemon
    ensures Consistent(Step(m, Ask(id, request, starts))) <==> !Forgets(m, Ask(id, request, starts))
  {
    var c := m.conns[id].(request := request);
    var asked := m.(conns := m.conns[id := c]);
    assert RemoveFast(asked.conns, id) == RemoveFast(m.conns, id);
    FewerWaiters(m.conns, RemoveFast(m.conns, id), m.lockers);
    if Forgets(m, Ask(id, request, starts)) {
      assert asked.conns[id] in asked.conns;
    } else {
      TransferKeepsConsistent(asked, id, starts);
    }
  }

  /** Every event of the main loop keeps the state consistent, except exactly
      the one that forgets a client. */
  lemma StepConsistentExactly(m: Main, e: Event)
    requires Consistent(m)
    ensures Consistent(Step(m, e)) <==> !Forgets(m, e)
  {
    match e
    case Ask(id, request, starts) =>
      if 0 < id < |m.conns| && m.conns[id].state == Daemon { AskKeepsConsistent(m, id, request, starts); }
    case Close(id) =>
      if 0 < id < |m.conns| { CloseKeepsConsistent(m, id); }
    case CleanUp =>
      CleanUpKeepsConsistent(m);
    case CloseWrite(k) =>
      if k < |m.lockers| { FewerActive(m.conns, m.lockers, k, m.lockers[k].(writeOpen := false)); }
    case CloseRead(k) =>
      if k < |m.lockers| { FewerActive(m.conns, m.lockers, k, m.lockers[k].(readOpen := false)); }
    case Join(k) =>
      if k < |m.lockers| { OneLockerLess(m.conns, m.lockers, k); }
    case Accept(conn) =>
      FewerWaiters(m.conns, Step(m, e).conns, m.lockers);
  }

  lemma CloseKeepsConsistent(m: Main, id: nat)
    requires Consistent(m) && 0 < id < |m.conns|
    ensures Consistent(m.(conns := m.conns[id := m.conns[id].(state := Remove)]))
  {
    assert m.conns[id] in m.conns;
  }

  /** The state before the first client: the listener and, with multicast, a
      second socket of the daemon's own. */
  predicate Fresh(m: Main) {
    m.lockers == [] && Listening(m.conns) && forall i | 0 <= i < |m.conns| :: !m.conns[i].waiting
  }

  /** No event of the run forgets a client. */
  ghost predicate NeverForgets(m: Main, es: seq<Event>)
    decreases |es|
  {
    es == [] || (!Forgets(m, es[0]) && NeverForgets(Step(m, es[0]), es[1..]))
  }

  /** Consistent after every event. */
  ghost predicate StaysConsistent(m: Main, es: seq<Event>)
    decreases |es|
  {
    Consistent(m) && (es == [] || StaysConsistent(Step(m, es[0]), es[1..]))
  }

  /** A run stays consistent exactly when none of its events forgets a client:
      then no two lockers with both pipes open manage the same resource, and no
      incubated client waits for a resource that an active locker manages. */
  lemma {:induction false} RunConsistentExactly(m: Main, es: seq<Event>)
    requires Consistent(m)
    ensures StaysConsistent(m, es) <==> NeverForgets(m, es)
    ensures NeverForgets(m, es) ==> Consistent(Run(m, es))
    decreases |es|
  {
    if es == [] {
    } else {
      StepConsistentExactly(m, es[0]);
      if Consistent(Step(m, es[0])) {
        RunConsistentExactly(Step(m, es[0]), es[1..]);
      } else {
        assert !StaysConsistent(Step(m, es[0]), es[1..]);
      }
    }
  }

  lemma RunsAreConsistent(m: Main, es: seq<Event>)
    requires Fresh(m)
    ensures StaysConsistent(m, es) <==> NeverForgets(m, es)
  {
    RunConsistentExactly(m, es);
  }

  /** The failing input. A client waits for "/b" while "/a" has its locker; it
      asks again for "/a/", which is no valid name but has the same first level,
      and waits for a resource that exists. */
  lemma ForgottenClient(listener: Client)
    requires Listening([listener])
    ensures !Consistent(Run(Main([listener], []), [
      Accept(1), Ask(1, Request("/a", true, true, true), true),
      Accept(2), Ask(1, Request("/b", true, false, true), true),
      Ask(1, Request("/a/", false, true, true), true)]))
  {
    var nothing := Request("", false, false, false);
    var a, b, bad := Request("/a", true, true, true), Request("/b", true, false, true),
        Request("/a/", false, true, true);
    var one, two := Client(1, Daemon, false, nothing), Client(2, Daemon, false, nothing);
    var locker := HandOver(Managed("/a", true, true, 0, []), one.(request := a));
    var m0 := Main([listener], []);
    var m1 := Main([listener, one], []);
    var m2 := Main([listener], [locker]);
    var m3 := Main([listener, two], [locker]);
    var m4 := Main([listener, two.(request := b, waiting := true)], [locker]);
    var m5 := Main([listener, two.(request := bad, waiting := true)], [locker]);
    OnlyOneKey();
    assert Step(m0, Accept(1)) == m1;
    StartsAlone(listener, one.(request := a));
    assert m1.conns[1 := one.(request := a)] == [listener, one.(request := a)];
    assert Step(m1, Ask(1, a, true)) == m2;
    assert Step(m2, Accept(2)) == m3;
    assert m3.conns[1 := two.(request := b)] == [listener, two.(request := b)];
    assert [listener, two.(request := b)][1 := two.(request := b, waiting := true)] == m4.conns;
    assert Step(m3, Ask(1, b, true)) == m4;
    assert m4.conns[1 := two.(request := bad, waiting := true)] == m5.conns;
    assert Step(m4, Ask(1, bad, true)) == m5;
    RunFive(m0, Accept(1), Ask(1, a, true), Accept(2), Ask(1, b, true), Ask(1, bad, true));
    assert m5.conns[1] in m5.conns && m5.lockers[0] in m5.lockers;
  }

  lemma OnlyOneKey()
    ensures !Manages("/a", "/b") && Manages("/a", "/a/")
  {
    assert "/a"[1..] == "a" && "/b"[1..] == "b" && "/a/"[1..] == "a/";
    FirstLevelOfOne('a', "");
    FirstLevelOfOne('b', "");
    FirstLevelOfOne('a', "/");
  }

  lemma FirstLevelOfOne(c: char, rest: string)
    requires c != SEPARATOR && (rest == "" || rest[0] == SEPARATOR)
    ensures FirstLevel([c] + rest) == [c]
  {
    assert ([c] + rest)[1..] == rest;
  }

  /** The first locker of an otherwise idle daemon. */
  lemma StartsAlone(listener: Client, c: Client)
    requires !listener.waiting && c.request.valid && c.request.create
    ensures Transfer(Main([listener, c], []), 1, true).main
         == Main([listener], [HandOver(Managed(c.request.name, true, true, 0, []), c)])
  {
    assert RemoveFast([listener, c], 1) == [listener];
  }

  lemma RunFive(m: Main, a: Event, b: Event, c: Event, d: Event, e: Event)
    ensures Run(m, [a, b, c, d, e]) == Step(Step(Step(Step(Step(m, a), b), c), d), e)
  {
    var m2 := Step(Step(m, a), b);
    assert [a, b, c, d, e][1..] == [b, c, d, e] && [b, c, d, e][1..] == [c, d, e];
    RunThree(m2, c, d, e);
  }

  lemma RunThree(m: Main, a: Event, b: Event, c: Event)
    ensures Run(m, [a, b, c]) == Step(Step(Step(m, a), b), c)
  {
    assert [a, b, c][1..] == [b, c] && [b, c][1..] == [c] && [c][1..] == [];
    assert Run(Step(Step(m, a), b), [c]) == Step(Step(Step(m, a), b), c);
  }

  // ----- what holds without any condition -----------------------------------

  lemma StartKeepsOneActive(m: Main, id: nat, l: Managed)
    requires OneActive(m.lockers) && Listening(m.conns) && 0 < id < |m.conns|
    requires FindLocker(m.lockers, l.name) == |m.lockers|
    ensures var d := Drain(RemoveFast(m.conns, id), 1, l); OneActive(m.lockers + [d.1]) && Listening(d.0)
  {
    var moved := DrainMoves(RemoveFast(m.conns, id), l);
    FindNobody(m.lockers, l.name);
  }

  lemma AskKeepsOneActive(m: Main, id: nat, starts: bool)
    requires OneActive(m.lockers) && Listening(m.conns) && 0 < id < |m.conns|
    ensures var t := Transfer(m, id, starts).main; OneActive(t.lockers) && Listening(t.conns)
  {
    var c := m.conns[id];
    if FindLocker(m.lockers, c.request.name) == |m.lockers| {
      StartKeepsOneActive(m, id, HandOver(Managed(c.request.name, true, true, 0, []), c));
    }
  }

  lemma StepKeepsOneActive(m: Main, e: Event)
    requires OneActive(m.lockers) && Listening(m.conns)
    ensures OneActive(Step(m, e).lockers) && Listening(Step(m, e).conns)
  {
    match e
    case Ask(id, request, starts) =>
      if 0 < id < |m.conns| && m.conns[id].state == Daemon {
        AskKeepsOneActive(m.(conns := m.conns[id := m.conns[id].(request := request)]), id, starts);
      }
    case CleanUp =>
      SiftContents(m.conns, 0, IsRemoved);
      SiftKeepsFront(m.conns, 0, 1, IsRemoved);
      var rest := Sift(m.conns, 0, IsRemoved).rest;
      assert rest[0] == rest[..1][0] && m.conns[0] == m.conns[..1][0];
    case CloseWrite(k) =>
      if k < |m.lockers| { FewerActive([], m.lockers, k, m.lockers[k].(writeOpen := false)); }
    case CloseRead(k) =>
      if k < |m.lockers| { FewerActive([], m.lockers, k, m.lockers[k].(readOpen := false)); }
    case Join(k) =>
      if k < |m.lockers| { OneLockerLess([], m.lockers, k); }
    case _ =>
  }

  /** In every reachable state, whatever the clients ask, no two lockers with
      both pipes open manage the same resource and the listener is in slot 0. */
  lemma {:induction false} OneActiveAlways(m: Main, es: seq<Event>)
    requires OneActive(m.lockers) && Listening(m.conns)
    ensures OneActive(Run(m, es).lockers) && Listening(Run(m, es).conns)
    decreases |es|
  {
    if es == [] {
    } else {
      StepKeepsOneActive(m, es[0]);
      OneActiveAlways(Step(m, es[0]), es[1..]);
    }
  }

  // ----- the daemon's own sockets -------------------------------------------

  /** Slots 0 and 1 are sockets of the daemon's own. */
  predicate TwoListening(conns: seq<Client>) {
    Listening(conns) && |conns| >= 2 && conns[1].state == Daemon && !conns[1].waiting
  }

  /** An event of the client in that slot. */
  predicate Concerns(e: Event, id: nat) {
    (e.Ask? && e.id == id) || (e.Close? && e.id == id)
  }

  lemma AskKeepsListeners(m: Main, id: nat, starts: bool)
    requires TwoListening(m.conns) && 1 < id < |m.conns|
    ensures |Transfer(m, id, starts).main.conns| >= 2 && Transfer(m, id, starts).main.conns[..2] == m.conns[..2]
  {
    var rest := RemoveFast(m.conns, id);
    RemoveFastContents(m.conns, id);
    assert rest[..2] == rest[..id][..2] && m.conns[..2] == m.conns[..id][..2];
    assert rest[1] == rest[..2][1] && m.conns[1] == m.conns[..2][1];
    SiftKeepsFront(rest, 1, 2, LeavesFor(m.conns[id].request.name));
  }

  lemma StepKeepsListeners(m: Main, e: Event)
    requires TwoListening(m.conns) && !Concerns(e, 1)
    ensures TwoListening(Step(m, e).conns) && Step(m, e).conns[..2] == m.conns[..2]
  {
    var after := Step(m, e).conns;
    match e {
      case Ask(id, request, starts) =>
        if 0 < id < |m.conns| && m.conns[id].state == Daemon {
          var asked := m.(conns := m.conns[id := m.conns[id].(request := request)]);
          AskKeepsListeners(asked, id, starts);
          assert asked.conns[..2] == m.conns[..2];
        }
      case CleanUp => SiftKeepsFront(m.conns, 0, 2, IsRemoved);
      case _ =>
    }
    assert |after| >= 2 && after[..2] == m.conns[..2];
    assert after[0] == after[..2][0] && after[1] == after[..2][1];
    assert m.conns[0] == m.conns[..2][0] && m.conns[1] == m.conns[..2][1];
  }

  /** A daemon with a second socket of its own, the multicast listener, keeps
      both in their slots over every run in which that socket sends no request
      and is not closed. */
  lemma {:induction false} ListenersStay(m: Main, es: seq<Event>)
    requires TwoListening(m.conns) && forall i | 0 <= i < |es| :: !Concerns(es[i], 1)
    ensures TwoListening(Run(m, es).conns) && Run(m, es).conns[..2] == m.conns[..2]
    decreases |es|
  {
    if es == [] {
    } else {
      StepKeepsListeners(m, es[0]);
      assert forall i | 0 <= i < |es[1..]| :: es[1..][i] == es[i + 1];
      ListenersStay(Step(m, es[0]), es[1..]);
    }
  }

  // ----- what a request leads to --------------------------------------------

  /** An invalid name is refused and changes nothing. A valid request goes to
      the only locker that serves it, wherever in the array that is; the create
      and wait flags matter only if there is none. */
  lemma TransferDecides(m: Main, id: nat, starts: bool)
    requires OneActive(m.lockers) && id < |m.conns|
    ensures var r := m.conns[id].request;
            var t := Transfer(m, id, starts);
            var served := exists l :: l in m.lockers && Serves(l, r.name);
            && (t.answer == Some(InvalidResourceName) <==> !r.valid)
            && (t.answer.Some? ==> t.main.lockers == m.lockers && |t.main.conns| == |m.conns|)
            && (t.answer.Some? && t.answer != Some(WaitResource) ==> t.main == m)
            && (t.answer == Some(WaitResource) ==>
                  t.main.conns == m.conns[id := m.conns[id].(waiting := true)])
            && (r.valid ==>
                  && (forall k | 0 <= k < |m.lockers| && Serves(m.lockers[k], r.name) :: t == HandedTo(m, id, k))
                  && (t.answer == Some(CantWait) <==> !served && !r.create && !r.wait)
                  && (t.answer == Some(WaitResource) <==> !served && !r.create && r.wait)
                  && (t.answer == None && |t.main.lockers| > |m.lockers| <==> !served && r.create && starts)
                  && (t.answer == None && !served && !starts ==> t.main == m))
  {
    var r := m.conns[id].request;
    var j := FindLocker(m.lockers, r.name);
    if j < |m.lockers| { assert m.lockers[j] in m.lockers; }
    forall k | 0 <= k < |m.lockers| && Serves(m.lockers[k], r.name) ensures k == j {
      ManagesIsSameKey(m.lockers[k].name, r.name);
      ManagesIsSameKey(m.lockers[j].name, r.name);
    }
  }
}
