/** The sequence resource as the program keeps it: fields updated in place. */
module SequenceResource {
  import opened Answers
  import opened Records
  import opened SequenceValues
  import opened Words

  class Resource {
    const name: string
    const total: int32
    var locked: int32
    var next: uint32
    var rolledBack: Option<seq<uint32>>
    var holders: seq<Holding>
    var waitings: seq<Conn>

    ghost function Stocked(): Stock
      reads this
    {
      Stock(locked, next, rolledBack, holders)
    }

    ghost function View(): Sequence
      reads this
    {
      Sequence(name, total, Stocked(), waitings)
    }

    constructor (name: string, total: int32, transactional: bool)
      ensures View() == Init(name, total, transactional)
    {
      this.name, this.total, locked, next := name, total, 0, 1;
      rolledBack := if transactional then Some([]) else None;
      holders, waitings := [], [];
    }

    predicate CanLock()
      reads this
    {
      SequenceValues.CanLock(total, locked)
    }

    /** The counter is incremented once more when it has just issued zero. */
    method Get() returns (value: uint32, ghost issued: seq<uint32>)
      modifies this`next, this`rolledBack
      ensures Drawn(value, next, rolledBack, issued) == SequenceValues.Get(old(next), old(rolledBack))
    {
      value, issued := 0, [];
      if rolledBack.Some? && rolledBack.value != [] {
        value := rolledBack.value[0];
        rolledBack := Some(rolledBack.value[1..]);
      }
      if value == 0 {
        value := next;
        next := Increment(next);
        if value == 0 {
          value := next;
          next := Increment(next);
        }
        issued := [value];
      }
    }

    method Grant(conn: Conn) returns (cl: Holding, ghost issued: seq<uint32>)
      modifies this`locked, this`next, this`rolledBack, this`holders
      ensures Granted(Stocked(), cl, issued) == SequenceValues.Grant(old(Stocked()), conn)
    {
      var value, drawn := Get();
      cl := Record(conn, Slot(value, true));
      holders := [cl] + holders;
      locked := Wrap(locked + 1);
      issued := drawn;
    }

    method Waitings() returns (granted: seq<Holding>, ghost issued: seq<uint32>)
      modifies this`locked, this`next, this`rolledBack, this`holders, this`waitings
      ensures Served(Stocked(), waitings, granted, issued) == Serve(total, old(Stocked()), old(waitings))
    {
      var i := 0;
      granted, issued := [], [];
      ghost var queue, k := waitings, 0;
      while i < |waitings|
        invariant 0 <= i <= |waitings| && 0 <= k <= |queue|
        invariant waitings[i..] == queue[k..]
        invariant Serve(total, old(Stocked()), queue[..k]) == Served(Stocked(), waitings[..i], granted, issued)
        decreases |queue| - k
      {
        var conn := waitings[i];
        assert queue[..k + 1] == queue[..k] + [conn] && queue[k..][1..] == queue[k + 1..];
        ServeLast(total, old(Stocked()), queue[..k], conn);
        if CanLock() {
          waitings := waitings[..i] + waitings[i + 1..];
          var cl, drawn := Grant(conn);
          granted, issued := granted + [cl], issued + drawn;
        } else {
          i := i + 1;
        }
        k := k + 1;
      }
      assert queue[..k] == queue && waitings[..i] == waitings;
    }

    method Clean(conn: Conn) returns (granted: seq<Holding>, ghost issued: seq<uint32>, ghost spent: seq<uint32>)
      modifies this`locked, this`next, this`rolledBack, this`holders, this`waitings
      ensures Cleaned(View(), granted, issued, spent) == SequenceValues.Clean(old(View()), conn)
    {
      var p := FindFirst(holders, ConnOf, conn);
      if p < |holders| {
        spent := Spent(Stocked(), p);
        if rolledBack.Some? && holders[p].info.rollback {
          rolledBack := Some(rolledBack.value + [holders[p].info.value]);
        }
        holders := holders[..p] + holders[p + 1..];
        locked := Wrap(locked - 1);
        granted, issued := Waitings();
      } else {
        granted, issued, spent := [], [], [];
        waitings := DropFirst(waitings, Itself, conn);
      }
    }

    /** A granted answer carries the value. */
    method Lock(conn: Conn, wait: bool) returns (rc: Rc, element: Option<uint32>, ghost issued: seq<uint32>)
      modifies this`locked, this`next, this`rolledBack, this`holders, this`waitings
      ensures Locked(View(), rc, issued) == SequenceValues.Lock(old(View()), conn, wait)
      ensures element == if rc == Ok then Some(holders[0].info.value) else None
    {
      if CanLock() {
        var cl, drawn := Grant(conn);
        rc, element, issued := Ok, Some(cl.info.value), drawn;
      } else {
        element, issued := None, [];
        if wait {
          waitings := waitings + [conn];
          rc := Enqueued;
        } else {
          rc := Busy;
        }
      }
    }

    method Unlock(conn: Conn, name: string, rollback: bool)
      returns (result: Refusal, granted: seq<Holding>, ghost issued: seq<uint32>, ghost spent: seq<uint32>)
      modifies this`locked, this`next, this`rolledBack, this`holders, this`waitings
      ensures result == UnlockCheck(old(View()), conn, name)
      ensures Cleaned(View(), granted, issued, spent) == SequenceValues.Unlock(old(View()), conn, name, rollback)
    {
      granted, issued, spent := [], [], [];
      if name != this.name { return InvalidOption, granted, issued, spent; }
      var p := FindFirst(holders, ConnOf, conn);
      if p == |holders| { return ObjCorrupted, granted, issued, spent; }
      holders := holders[p := holders[p].(info := holders[p].info.(rollback := rollback))];
      result := Accepted;
      granted, issued, spent := Clean(conn);
    }
  }
}
