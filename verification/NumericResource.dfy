/** The numeric resource as the program keeps it: fields updated in place. */
module NumericResource {
  import opened Answers
  import opened NumericPool
  import opened Records
  import opened Words

  class Resource {
    const name: string
    const total: int32
    var locked: int32
    var holders: seq<Request>
    var waitings: seq<Request>

    ghost function View(): Pool
      reads this
    {
      Pool(name, total, locked, holders, waitings)
    }

    constructor (name: string, total: int32)
      ensures View() == Init(name, total)
    {
      this.name, this.total, locked, holders, waitings := name, total, 0, [], [];
    }

    predicate CanLock(quantity: int32)
      reads this
    {
      NumericPool.CanLock(total, locked, quantity)
    }

    /** A granted waiter leaves the queue and its successor takes its index. */
    method Waitings() returns (granted: seq<Request>)
      modifies this`locked, this`holders, this`waitings
      ensures Served(locked, holders, waitings, granted)
           == Serve(total, old(locked), old(holders), old(waitings))
    {
      var i := 0;
      granted := [];
      ghost var queue, k := waitings, 0;
      while i < |waitings|
        invariant 0 <= i <= |waitings| && 0 <= k <= |queue|
        invariant waitings[i..] == queue[k..]
        invariant Serve(total, old(locked), old(holders), queue[..k])
                  == Served(locked, holders, waitings[..i], granted)
        decreases |queue| - k
      {
        var cl := waitings[i];
        assert queue[..k + 1] == queue[..k] + [cl] && queue[k..][1..] == queue[k + 1..];
        ServeLast(total, old(locked), old(holders), queue[..k], cl);
        if CanLock(cl.info) {
          waitings := waitings[..i] + waitings[i + 1..];
          holders := [cl] + holders;
          locked := Wrap(locked + cl.info);
          granted := granted + [cl];
        } else {
          i := i + 1;
        }
        k := k + 1;
      }
      assert queue[..k] == queue && waitings[..i] == waitings;
    }

    method Clean(conn: Conn) returns (granted: seq<Request>)
      modifies this`locked, this`holders, this`waitings
      ensures Cleaned(View(), granted) == NumericPool.Clean(old(View()), conn)
    {
      var p := FindFirst(holders, ConnOf, conn);
      if p < |holders| {
        locked := Wrap(locked - holders[p].info);
        holders := holders[..p] + holders[p + 1..];
        granted := Waitings();
      } else {
        granted := [];
        waitings := DropFirst(waitings, ConnOf, conn);
      }
    }

    method Lock(conn: Conn, quantity: int32, wait: bool) returns (rc: Rc)
      modifies this`locked, this`holders, this`waitings
      ensures Locked(View(), rc) == NumericPool.Lock(old(View()), conn, quantity, wait)
    {
      var impossible, canWait := quantity > total, quantity <= total && wait;
      if CanLock(quantity) {
        holders := [Record(conn, quantity)] + holders;
        locked := Wrap(locked + quantity);
        rc := Ok;
      } else if canWait {
        waitings := waitings + [Record(conn, quantity)];
        rc := Enqueued;
      } else {
        rc := if impossible then Impossible else Busy;
      }
    }

    method Unlock(conn: Conn, name: string) returns (valid: bool, granted: seq<Request>)
      modifies this`locked, this`holders, this`waitings
      ensures valid == (name == this.name)
      ensures Cleaned(View(), granted) == NumericPool.Unlock(old(View()), conn, name)
    {
      valid, granted := name == this.name, [];
      if valid { granted := Clean(conn); }
    }
  }
}
