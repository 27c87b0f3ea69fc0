/** The client's side of a lock call as the program runs it: one answer decides
    or leads into a loop that overwrites the last answer until a final one. */
module Client {
  import opened Agreement
  import opened Answers

  /** Of the answers `before`, the first `n` were read and led from `seen` to
      `o`, and no fewer would have: the client stops at its result. */
  ghost predicate Consumed(before: seq<Answer>, after: seq<Answer>, seen: seq<Answer>, o: Outcome, n: nat) {
    && n <= |before| && after == before[n..]
    && o == After(seen + before[..n])
    && (forall k | 0 <= k < n :: !Final(After(seen + before[..k])))
  }

  lemma ReadOneMore(before: seq<Answer>, seen: seq<Answer>, o: Outcome, n: nat)
    requires n < |before| && Consumed(before, before[n..], seen, o, n) && !Final(o)
    ensures Consumed(before, before[n + 1..], seen, Receive(o, before[n]), n + 1)
  {
    AfterOne(seen + before[..n], before[n]);
    assert seen + before[..n + 1] == seen + before[..n] + [before[n]];
  }

  lemma ReadFirst(before: seq<Answer>)
    requires before != []
    ensures Consumed(before, before[1..], [], First(before[0]), 1) && After([before[0]]) == First(before[0])
  {
    assert [] + before[..0] == [];
    ReadOneMore(before, [], Asking, 0);
    assert [] + before[..1] == [before[0]];
  }

  /** `inbox` holds the answers that have arrived and were not read yet. */
  class Session {
    var inbox: seq<Answer>
    var lastStep: nat

    constructor (inbox: seq<Answer>)
      ensures this.inbox == inbox && lastStep == 0
    {
      this.inbox, lastStep := inbox, 0;
    }

    /** The waiting loop; it gives up when no further answer arrives. */
    method WaitLock(ghost seen: seq<Answer>) returns (o: Outcome, ghost n: nat)
      requires After(seen) == Waiting
      modifies this
      ensures Consumed(old(inbox), inbox, seen, o, n) && (Final(o) || inbox == [])
      ensures n > 0 ==> lastStep == old(inbox)[n - 1].step
    {
      o, n := Waiting, 0;
      assert seen + inbox[..0] == seen;
      while inbox != [] && o == Waiting
        invariant Consumed(old(inbox), inbox, seen, o, n) && (o == Waiting || Final(o))
        invariant n > 0 ==> lastStep == old(inbox)[n - 1].step
        decreases |inbox|
      {
        var a := inbox[0];
        ReadOneMore(old(inbox), seen, o, n);
        inbox, lastStep := inbox[1..], a.step;
        if a.step != 2 * STEP_INCR && a.step != 3 * STEP_INCR && a.step != 4 * STEP_INCR {
          o := Failed(ProtocolError);
        } else if a.step == 4 * STEP_INCR && a.rc != Ok {
          o := Failed(CantLock);
        } else if a.rc != Enqueued {
          o := if a.step == 3 * STEP_INCR || a.step == 4 * STEP_INCR then Done else Failed(InternalError);
        }
        n := n + 1;
      }
    }

    /** The first answer must be that of step 16. */
    method Lock() returns (o: Outcome, ghost n: nat)
      modifies this
      ensures Consumed(old(inbox), inbox, [], o, n) && (Final(o) || inbox == [])
    {
      o, n := Asking, 0;
      if inbox == [] { return; }
      var a := inbox[0];
      ReadFirst(inbox);
      inbox, lastStep := inbox[1..], a.step;
      n := 1;
      if a.step != 2 * STEP_INCR { return Failed(ProtocolError), n; }
      match a.rc {
        case Ok => o := Done;
        case Enqueued => o := Waiting;
        case WaitResource => o := Waiting;
        case InvalidResourceName => o := Failed(ProtocolError);
        case _ => o := Failed(Told(a.rc));
      }
      if o == Waiting {
        ghost var m;
        o, m := WaitLock([a]);
        ReadLater(old(inbox), inbox, o, m);
        n := m + 1;
      }
    }
  }

  lemma ReadLater(before: seq<Answer>, after: seq<Answer>, o: Outcome, m: nat)
    requires before != [] && After([before[0]]) == Waiting
    requires Consumed(before[1..], after, [before[0]], o, m)
    ensures Consumed(before, after, [], o, m + 1)
  {
    forall k | 0 <= k <= m ensures [] + before[..k + 1] == [before[0]] + before[1..][..k] {}
    forall k | 0 <= k < m + 1 ensures !Final(After([] + before[..k])) {
      if k > 0 { assert [] + before[..k] == [before[0]] + before[1..][..k - 1]; }
    }
  }

  /** The answers of any run, read by the call above: a client that ends with
      "granted" is a holder, one that ends with a failure is not even queued and
      is told why. */
  lemma CallMeansWhatItSays(x: Agreement.Session, actions: seq<Action>, after: seq<Answer>, o: Outcome, n: nat)
    requires !Misread(x)
    requires var w := Run(x, INIT, actions); Consumed(w.sent, after, [], o, n)
    ensures var w := Run(x, INIT, actions);
            && (o == Done ==> IsHolder(w, x.conn))
            && (o.Failed? ==> !IsHolder(w, x.conn) && !IsWaiter(w, x.conn) && Justified(x, o.why))
  {
    RunKeepsSane(x, INIT, actions);
    SaneEnds(x, Run(x, INIT, actions), o, n);
  }

  lemma SaneEnds(x: Agreement.Session, w: World, o: Outcome, n: nat)
    requires Sane(x, w) && !Misread(x) && n <= |w.sent| && o == After([] + w.sent[..n])
    ensures o == Done ==> IsHolder(w, x.conn)
    ensures o.Failed? ==> !IsHolder(w, x.conn) && !IsWaiter(w, x.conn) && Justified(x, o.why)
  {
    assert [] + w.sent[..n] == w.sent[..n];
    if Final(o) { FinalStays(w.sent, n); }
  }
}
