/** The array of connections of a thread. Elements are taken out by putting the
    last one in their place, so a loop that removes must look at the same index
    again. */
module Connections {
  import opened Records

  /** What a client asked for in its first message; `valid` says whether the
      name is that of a resource of a known type. */
  datatype Request = Request(name: string, valid: bool, create: bool, wait: bool)

  datatype ConnState = Daemon | Locker | Remove

  datatype Client = Client(conn: Conn, state: ConnState, waiting: bool, request: Request)

  predicate IsRemoved(c: Client) {
    c.state == Remove
  }

  // ----- removal by index ---------------------------------------------------

  /** The last element takes the place of the removed one. */
  function RemoveFast<T>(s: seq<T>, i: nat): (r: seq<T>)
    requires i < |s|
    ensures |r| == |s| - 1
  {
    s[i := s[|s| - 1]][..|s| - 1]
  }

  lemma RemoveFastContents<T>(s: seq<T>, i: nat)
    requires i < |s|
    ensures multiset(s) == multiset(RemoveFast(s, i)) + multiset{s[i]}
    ensures RemoveFast(s, i)[..i] == s[..i]
  {
    var n := |s| - 1;
    if i < n {
      InPieces(s, i);
      LastInPlace(s[..i], s[i], s[i + 1..n], s[n]);
    } else {
      assert s == s[..n] + [s[n]] && RemoveFast(s, i) == s[..n];
    }
  }

  lemma RemoveFastForgets<T>(s: seq<T>, i: nat, x: T)
    requires i < |s|
    ensures RemoveFast(s[i := x], i) == RemoveFast(s, i)
  {
  }

  lemma InPieces<T>(s: seq<T>, i: nat)
    requires i < |s| - 1
    ensures var n := |s| - 1;
            s == s[..i] + [s[i]] + s[i + 1..n] + [s[n]] && RemoveFast(s, i) == s[..i] + [s[n]] + s[i + 1..n]
  {
  }

  lemma LastInPlace<T>(a: seq<T>, x: T, b: seq<T>, y: T)
    ensures multiset(a + [x] + b + [y]) == multiset(a + [y] + b) + multiset{x}
  {
    assert multiset(a + [x] + b + [y]) == multiset(a) + multiset{x} + multiset(b) + multiset{y};
    assert multiset(a + [y] + b) == multiset(a) + multiset{y} + multiset(b);
  }

  // ----- a loop that removes ------------------------------------------------

  datatype Sifted<T> = Sifted(rest: seq<T>, removed: seq<T>)

  /** From index `i` on, take out the elements that satisfy `out`. */
  function Sift<T>(s: seq<T>, i: nat, out: T -> bool): Sifted<T>
    decreases |s| - i
  {
    if i >= |s| then Sifted(s, [])
    else if out(s[i]) then
      var t := Sift(RemoveFast(s, i), i, out);
      t.(removed := [s[i]] + t.removed)
    else Sift(s, i + 1, out)
  }

  lemma {:induction false} SiftPartition<T>(s: seq<T>, i: nat, out: T -> bool)
    ensures multiset(s) == multiset(Sift(s, i, out).rest) + multiset(Sift(s, i, out).removed)
    decreases |s| - i
  {
    if i < |s| {
      if out(s[i]) {
        var t := Sift(RemoveFast(s, i), i, out);
        RemoveFastContents(s, i);
        SiftPartition(RemoveFast(s, i), i, out);
        ConsContents(s[i], t.removed);
        Move(s[i], multiset(t.rest), multiset(t.removed));
      } else {
        SiftPartition(s, i + 1, out);
      }
    }
  }

  /** What the loop takes out are exactly the elements from `i` on that satisfy
      `out`, each once, and what it leaves are the others. */
  lemma {:induction false} SiftContents<T>(s: seq<T>, i: nat, out: T -> bool)
    requires i <= |s|
    ensures var t := Sift(s, i, out);
            && multiset(s) == multiset(t.rest) + multiset(t.removed)
            && |t.rest| >= i && t.rest[..i] == s[..i]
            && (forall k | i <= k < |t.rest| :: !out(t.rest[k]))
            && (forall k | 0 <= k < |t.removed| :: out(t.removed[k]))
    decreases |s| - i
  {
    SiftPartition(s, i, out);
    if i < |s| {
      if out(s[i]) {
        RemoveFastContents(s, i);
        SiftContents(RemoveFast(s, i), i, out);
      } else {
        SiftContents(s, i + 1, out);
        var t := Sift(s, i + 1, out);
        assert t.rest[..i] == t.rest[..i + 1][..i] && s[..i + 1][..i] == s[..i];
      }
    }
  }

  /** The elements before the first one to be taken out stay where they are. */
  lemma {:induction false} SiftKeepsFront<T>(s: seq<T>, i: nat, n: nat, out: T -> bool)
    requires i <= n <= |s| && forall k | i <= k < n :: !out(s[k])
    ensures |Sift(s, i, out).rest| >= n && Sift(s, i, out).rest[..n] == s[..n]
    decreases n - i
  {
    if i < n { SiftKeepsFront(s, i + 1, n, out); } else { SiftContents(s, i, out); }
  }

  // ----- the objects --------------------------------------------------------

  class Connection {
    const conn: Conn
    var state: ConnState
    var waiting: bool
    var request: Request

    constructor (conn: Conn, request: Request)
      ensures Value() == Client(conn, Daemon, false, request)
    {
      this.conn, state, waiting, this.request := conn, Daemon, false, request;
    }

    function Value(): Client
      reads this
    {
      Client(conn, state, waiting, request)
    }
  }

  function Values(cs: seq<Connection>): (vs: seq<Client>)
    reads cs
    ensures |vs| == |cs|
    ensures forall i | 0 <= i < |cs| :: vs[i] == cs[i].Value()
  {
    if cs == [] then [] else [cs[0].Value()] + Values(cs[1..])
  }

  predicate Distinct(cs: seq<Connection>) {
    forall i, j | 0 <= i < j < |cs| :: cs[i] != cs[j]
  }

  class ConnectionArray {
    var items: seq<Connection>

    constructor ()
      ensures items == []
    {
      items := [];
    }

    ghost function View(): seq<Client>
      reads this, items
    {
      Values(items)
    }

    method Import(c: Connection)
      requires Distinct(items) && c !in items
      modifies this
      ensures items == old(items) + [c] && Distinct(items)
    {
      items := items + [c];
    }

    method RemoveIndexFast(i: nat)
      requires i < |items| && Distinct(items)
      modifies this
      ensures items == RemoveFast(old(items), i) && Distinct(items)
      ensures View() == RemoveFast(old(View()), i)
    {
      items := items[i := items[|items| - 1]][..|items| - 1];
    }

    /** Hand a connection over: it is marked and leaves this array. */
    method TransferFd(i: nat) returns (c: Connection)
      requires i < |items| && Distinct(items)
      modifies this, items[i]
      ensures c == old(items)[i] && Distinct(items) && items == RemoveFast(old(items), i)
      ensures c.Value() == old(c.Value()).(state := Locker)
      ensures View() == RemoveFast(old(View()), i)
    {
      c := items[i];
      c.state := Locker;
      assert View() == old(View())[i := c.Value()];
      RemoveFastForgets(old(View()), i, c.Value());
      RemoveIndexFast(i);
    }

    /** The connection stays in the array until the next cleaning. */
    method CloseFd(i: nat)
      requires i < |items| && Distinct(items)
      modifies items[i]
      ensures View() == old(View())[i := old(View())[i].(state := Remove)]
    {
      items[i].state := Remove;
    }

    method SetWaiting(i: nat)
      requires i < |items| && Distinct(items)
      modifies items[i]
      ensures View() == old(View())[i := old(View())[i].(waiting := true)]
    {
      items[i].waiting := true;
    }

    method Clean()
      requires Distinct(items)
      modifies this
      ensures Distinct(items)
      ensures View() == Sift(old(View()), 0, IsRemoved).rest
    {
      var i := 0;
      while i < |items|
        invariant 0 <= i <= |items| && Distinct(items)
        invariant Sift(View(), i, IsRemoved).rest
               == Sift(old(View()), 0, IsRemoved).rest
        decreases |items| - i
      {
        if items[i].state == Remove { RemoveIndexFast(i); } else { i := i + 1; }
      }
    }
  }
}
