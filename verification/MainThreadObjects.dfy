/** The main thread as the program keeps it: an array of connections and one of
    lockers, changed in place by the transfer of a client. */
module MainThreadObjects {
  import opened Answers
  import opened Connections
  import opened MainThread
  import opened Records

  class LockerHandle {
    const name: string
    var writeOpen: bool
    var readOpen: bool
    var writeSequence: nat
    ghost var handed: seq<Client>

    constructor (name: string)
      ensures Value() == Managed(name, true, true, 0, [])
    {
      this.name, writeOpen, readOpen, writeSequence, handed := name, true, true, 0, [];
    }

    ghost function Value(): Managed
      reads this
    {
      Managed(name, writeOpen, readOpen, writeSequence, handed)
    }
  }

  ghost function ManagedBy(ls: seq<LockerHandle>): (ms: seq<Managed>)
    reads ls
    ensures |ms| == |ls|
    ensures forall i | 0 <= i < |ls| :: ms[i] == ls[i].Value()
  {
    if ls == [] then [] else [ls[0].Value()] + ManagedBy(ls[1..])
  }

  twostate lemma ManagedSame(ls: seq<LockerHandle>)
    requires forall l | l in ls :: l.Value() == old(l.Value())
    ensures ManagedBy(ls) == old(ManagedBy(ls))
  {
  }

  lemma ManagedLast(ls: seq<LockerHandle>, l: LockerHandle)
    ensures ManagedBy(ls + [l]) == ManagedBy(ls) + [l.Value()]
  {
  }

  class AcceptLoop {
    const conns: ConnectionArray
    var lockers: seq<LockerHandle>

    constructor (conns: ConnectionArray)
      ensures this.conns == conns && lockers == []
    {
      this.conns, lockers := conns, [];
    }

    ghost predicate Valid()
      reads this, conns, lockers
    {
      && Distinct(conns.items)
      && forall i, j | 0 <= i < j < |lockers| :: lockers[i] != lockers[j]
    }

    ghost function View(): Main
      reads this, conns, conns.items, lockers
    {
      Main(conns.View(), ManagedBy(lockers))
    }

    /** Lockers that are terminating are skipped. */
    method FindLocker(name: string) returns (k: nat)
      ensures k == MainThread.FindLocker(ManagedBy(lockers), name)
    {
      k := 0;
      while k < |lockers|
        invariant k <= MainThread.FindLocker(ManagedBy(lockers), name)
      {
        if lockers[k].writeOpen && lockers[k].readOpen && Manages(lockers[k].name, name) {
          return;
        }
        k := k + 1;
      }
    }

    /** The sequence number is taken before the connection leaves the array. */
    method TransferConn(id: nat, locker: LockerHandle)
      requires Distinct(conns.items) && id < |conns.items|
      modifies conns, conns.items[id], locker
      ensures Distinct(conns.items)
      ensures conns.items == RemoveFast(old(conns.items), id)
      ensures conns.View() == RemoveFast(old(conns.View()), id)
      ensures locker.Value() == HandOver(old(locker.Value()), old(conns.View())[id])
    {
      locker.writeSequence := locker.writeSequence + 1;
      assert conns.View() == old(conns.View());
      var c := conns.TransferFd(id);
      label taken:
      assert c.Value() == old(conns.View())[id].(state := Locker);
      locker.handed := locker.handed + [c.Value()];
      assert conns.View() == old@taken(conns.View());
    }

    method DrainIncubator(locker: LockerHandle)
      requires Distinct(conns.items)
      modifies conns, conns.items, locker
      ensures Distinct(conns.items)
      ensures (conns.View(), locker.Value()) == Drain(old(conns.View()), 1, old(locker.Value()))
    {
      var i := 1;
      while i < |conns.items|
        invariant 1 <= i && Distinct(conns.items)
        invariant forall c | c in conns.items :: c in old(conns.items)
        invariant Drain(conns.View(), i, locker.Value()) == Drain(old(conns.View()), 1, old(locker.Value()))
        decreases |conns.items| - i
      {
        DrainStep(conns.View(), i, locker.Value());
        var c := conns.items[i];
        assert c in old(conns.items);
        if c.waiting && Manages(locker.name, c.request.name) {
          TransferConn(i, locker);
        } else {
          i := i + 1;
        }
      }
    }

    method HandToExisting(id: nat, k: nat)
      requires Valid() && id < |conns.items| && k < |lockers|
      modifies conns, conns.items[id], lockers[k]
      ensures Valid()
      ensures Transferred(View(), None) == HandedTo(old(View()), id, k)
    {
      TransferConn(id, lockers[k]);
    }

    method StartLocker(id: nat, name: string) returns (locker: LockerHandle)
      requires Distinct(conns.items) && id < |conns.items|
      modifies conns, conns.items
      ensures fresh(locker) && Distinct(conns.items)
      ensures (conns.View(), locker.Value()) ==
              var m := old(conns.View());
              Drain(RemoveFast(m, id), 1, HandOver(Managed(name, true, true, 0, []), m[id]))
    {
      locker := new LockerHandle(name);
      TransferConn(id, locker);
      DrainIncubator(locker);
    }

    method StartAndHand(id: nat, name: string)
      requires Valid() && id < |conns.items|
      modifies this`lockers, conns, conns.items
      ensures Valid()
      ensures var m := old(View());
              var d := Drain(RemoveFast(m.conns, id), 1, HandOver(Managed(name, true, true, 0, []), m.conns[id]));
              View() == Main(d.0, m.lockers + [d.1])
    {
      var locker := StartLocker(id, name);
      ManagedSame(lockers);
      AddLocker(locker);
    }

    method AddLocker(locker: LockerHandle)
      requires Valid() && locker !in lockers
      modifies this`lockers
      ensures Valid()
      ensures View() == old(View()).(lockers := old(View()).lockers + [locker.Value()])
    {
      ManagedLast(lockers, locker);
      lockers := lockers + [locker];
    }

    method Incubate(id: nat)
      requires Valid() && id < |conns.items|
      modifies conns.items[id]
      ensures Valid()
      ensures View() == old(View()).(conns := old(View()).conns[id := old(View()).conns[id].(waiting := true)])
    {
      conns.SetWaiting(id);
      ManagedSame(lockers);
    }

    /** No active locker serves the request. */
    method TransferToNobody(id: nat, starts: bool) returns (answer: Option<Rc>)
      requires Valid() && id < |conns.items| && conns.items[id].request.valid
      requires MainThread.FindLocker(View().lockers, conns.items[id].request.name) == |lockers|
      modifies this`lockers, conns, conns.items
      ensures Valid()
      ensures Transferred(View(), answer) == MainThread.Transfer(old(View()), id, starts)
    {
      answer := None;
      var request := conns.items[id].request;
      if !request.create {
        if !request.wait { return Some(CantWait); }
        answer := Some(WaitResource);
        Incubate(id);
      } else if starts {
        StartAndHand(id, request.name);
      }
    }

    method Transfer(id: nat, starts: bool) returns (answer: Option<Rc>)
      requires Valid() && id < |conns.items|
      modifies this`lockers, conns, conns.items, lockers
      ensures Valid()
      ensures Transferred(View(), answer) == MainThread.Transfer(old(View()), id, starts)
    {
      ghost var m, want := View(), MainThread.Transfer(View(), id, starts);
      var request := conns.items[id].request;
      assert m.conns[id].request == request;
      if !request.valid { return Some(InvalidResourceName); }
      var k := FindLocker(request.name);
      if k < |lockers| {
        assert want == HandedTo(m, id, k);
        HandToExisting(id, k);
        answer := None;
      } else {
        answer := TransferToNobody(id, starts);
      }
    }
  }
}
