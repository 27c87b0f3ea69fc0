/** The clients of the main thread, counted: whatever a transfer or a drain does,
    each stays in the array or is handed to one locker. */
module Clients {
  import opened Connections
  import opened MainThread
  import opened Records

  /** How many of the clients have this connection, or of those that are closed
      and wait to be cleaned up. */
  function Number(cs: seq<Client>, conn: Conn, closed: bool): nat {
    if cs == [] then 0
    else (if cs[0].conn == conn && (closed ==> IsRemoved(cs[0])) then 1 else 0) + Number(cs[1..], conn, closed)
  }

  function HandedTotal(ls: seq<Managed>, conn: Conn): nat {
    if ls == [] then 0 else Number(ls[0].handed, conn, false) + HandedTotal(ls[1..], conn)
  }

  /** In the array of the main thread, or handed to a locker not yet joined. */
  function Total(m: Main, conn: Conn): nat {
    Number(m.conns, conn, false) + HandedTotal(m.lockers, conn)
  }

  lemma {:induction false} NumberJoin(a: seq<Client>, b: seq<Client>, conn: Conn, closed: bool)
    ensures Number(a + b, conn, closed) == Number(a, conn, closed) + Number(b, conn, closed)
    decreases |a|
  {
    if a == [] {
      assert a + b == b;
    } else {
      NumberJoin(a[1..], b, conn, closed);
      assert (a + b)[1..] == a[1..] + b;
    }
  }

  lemma NumberOne(c: Client, conn: Conn, closed: bool)
    ensures Number([c], conn, closed) == if c.conn == conn && (closed ==> IsRemoved(c)) then 1 else 0
  {
    assert [c][1..] == [];
  }

  lemma NumberDrop(cs: seq<Client>, k: nat, conn: Conn, closed: bool)
    requires k < |cs|
    ensures Number(cs, conn, closed) == Number([cs[k]], conn, closed) + Number(Drop(cs, k), conn, closed)
  {
    assert cs == cs[..k] + ([cs[k]] + cs[k + 1..]);
    NumberJoin(cs[..k], [cs[k]] + cs[k + 1..], conn, closed);
    NumberJoin([cs[k]], cs[k + 1..], conn, closed);
    NumberJoin(cs[..k], cs[k + 1..], conn, closed);
  }

  /** The order does not matter. */
  lemma {:induction false} NumberSame(a: seq<Client>, b: seq<Client>, conn: Conn, closed: bool)
    requires multiset(a) == multiset(b)
    ensures Number(a, conn, closed) == Number(b, conn, closed)
    decreases |a|
  {
    if a == [] {
      assert b == [] by { assert |multiset(b)| == 0; }
    } else {
      assert a[0] in multiset(b);
      var k :| 0 <= k < |b| && b[k] == a[0];
      assert a == [a[0]] + a[1..];
      DropContents(b, k);
      assert multiset(a[1..]) == multiset(Drop(b, k)) by {
        assert multiset(a) - multiset{a[0]} == multiset(a[1..]);
        assert multiset(b) - multiset{a[0]} == multiset(Drop(b, k));
      }
      NumberSame(a[1..], Drop(b, k), conn, closed);
      NumberJoin([a[0]], a[1..], conn, closed);
      NumberDrop(b, k, conn, closed);
    }
  }

  lemma NumberRemoved(cs: seq<Client>, id: nat, conn: Conn)
    requires id < |cs|
    ensures Number(cs, conn, false) == Number(RemoveFast(cs, id), conn, false) + Number([cs[id]], conn, false)
  {
    RemoveFastContents(cs, id);
    AppendContents(RemoveFast(cs, id), [cs[id]]);
    NumberSame(cs, RemoveFast(cs, id) + [cs[id]], conn, false);
    NumberJoin(RemoveFast(cs, id), [cs[id]], conn, false);
  }

  lemma NumberPut(cs: seq<Client>, id: nat, c: Client, conn: Conn)
    requires id < |cs| && c.conn == cs[id].conn
    ensures Number(cs[id := c], conn, false) == Number(cs, conn, false)
  {
    NumberDrop(cs, id, conn, false);
    NumberDrop(cs[id := c], id, conn, false);
    assert Drop(cs[id := c], id) == Drop(cs, id);
    NumberOne(c, conn, false);
    NumberOne(cs[id], conn, false);
  }

  lemma NumberSifted(cs: seq<Client>, i: nat, out: Client -> bool, conn: Conn, closed: bool)
    requires i <= |cs|
    ensures var t := Sift(cs, i, out);
            Number(cs, conn, closed) == Number(t.rest, conn, closed) + Number(t.removed, conn, closed)
  {
    var t := Sift(cs, i, out);
    SiftContents(cs, i, out);
    AppendContents(t.rest, t.removed);
    NumberSame(cs, t.rest + t.removed, conn, closed);
    NumberJoin(t.rest, t.removed, conn, closed);
  }

  lemma {:induction false} NumberMoved(cs: seq<Client>, conn: Conn)
    ensures Number(Moved(cs), conn, false) == Number(cs, conn, false)
  {
    if cs != [] {
      NumberMoved(cs[1..], conn);
      assert Moved(cs)[1..] == Moved(cs[1..]);
    }
  }

  lemma {:induction false} NumberClosed(cs: seq<Client>, closed: bool, conn: Conn)
    requires forall i | 0 <= i < |cs| :: IsRemoved(cs[i]) == closed
    ensures Number(cs, conn, true) == if closed then Number(cs, conn, false) else 0
  {
    if cs != [] { NumberClosed(cs[1..], closed, conn); }
  }

  lemma {:induction false} HandedPut(ls: seq<Managed>, k: nat, l: Managed, conn: Conn)
    requires k < |ls|
    ensures HandedTotal(ls[k := l], conn)
         == HandedTotal(ls, conn) - Number(ls[k].handed, conn, false) + Number(l.handed, conn, false)
    decreases |ls|
  {
    if k == 0 {
      assert ls[k := l][1..] == ls[1..];
    } else {
      HandedPut(ls[1..], k - 1, l, conn);
      assert ls[k := l][1..] == ls[1..][k - 1 := l];
    }
  }

  lemma {:induction false} HandedDrop(ls: seq<Managed>, k: nat, conn: Conn)
    requires k < |ls|
    ensures HandedTotal(ls, conn) == HandedTotal(Drop(ls, k), conn) + Number(ls[k].handed, conn, false)
    decreases |ls|
  {
    if k == 0 {
      assert Drop(ls, 0) == ls[1..];
    } else {
      HandedDrop(ls[1..], k - 1, conn);
      assert Drop(ls, k) == [ls[0]] + Drop(ls[1..], k - 1);
      assert Drop(ls, k)[1..] == Drop(ls[1..], k - 1);
    }
  }

  lemma {:induction false} HandedLast(ls: seq<Managed>, l: Managed, conn: Conn)
    ensures HandedTotal(ls + [l], conn) == HandedTotal(ls, conn) + Number(l.handed, conn, false)
    decreases |ls|
  {
    if ls == [] {
      assert ls + [l] == [l] && [l][1..] == [];
    } else {
      HandedLast(ls[1..], l, conn);
      assert (ls + [l])[1..] == ls[1..] + [l];
    }
  }

  lemma HandOverCounts(l: Managed, c: Client, conn: Conn)
    ensures Number(HandOver(l, c).handed, conn, false)
         == Number(l.handed, conn, false) + Number([c], conn, false)
  {
    NumberJoin(l.handed, [c.(state := Locker)], conn, false);
    NumberOne(c, conn, false);
    NumberOne(c.(state := Locker), conn, false);
  }

  lemma DrainCounts(conns: seq<Client>, l: Managed, conn: Conn)
    requires conns != []
    ensures var d := Drain(conns, 1, l);
            Number(d.0, conn, false) + Number(d.1.handed, conn, false)
            == Number(conns, conn, false) + Number(l.handed, conn, false)
  {
    var t := Sift(conns, 1, LeavesFor(l.name));
    NumberSifted(conns, 1, LeavesFor(l.name), conn, false);
    AllHandedOverMeans(l, t.removed);
    NumberJoin(l.handed, Moved(t.removed), conn, false);
    NumberMoved(t.removed, conn);
  }

  lemma TransferCounts(m: Main, id: nat, starts: bool, conn: Conn)
    requires 0 < id < |m.conns|
    ensures Total(Transfer(m, id, starts).main, conn) == Total(m, conn)
  {
    var c := m.conns[id];
    var k := FindLocker(m.lockers, c.request.name);
    NumberRemoved(m.conns, id, conn);
    if !c.request.valid {
    } else if k < |m.lockers| {
      HandOverCounts(m.lockers[k], c, conn);
      HandedPut(m.lockers, k, HandOver(m.lockers[k], c), conn);
    } else if !c.request.create {
      NumberPut(m.conns, id, c.(waiting := true), conn);
    } else if starts {
      var l := HandOver(Managed(c.request.name, true, true, 0, []), c);
      HandOverCounts(Managed(c.request.name, true, true, 0, []), c, conn);
      DrainCounts(RemoveFast(m.conns, id), l, conn);
      HandedLast(m.lockers, Drain(RemoveFast(m.conns, id), 1, l).1, conn);
    }
  }

  /** Whom an event brings or takes away: an accepted connection comes, a closed
      one goes when the array is cleaned up, and those handed to a locker when
      it is joined. */
  function Change(m: Main, e: Event, conn: Conn): int {
    match e
    case Accept(c) => if c == conn then 1 else 0
    case CleanUp => (var n: int := Number(m.conns, conn, true); -n)
    case Join(k) =>
      if k < |m.lockers| && !m.lockers[k].writeOpen && !m.lockers[k].readOpen
      then (var n: int := Number(m.lockers[k].handed, conn, false); -n) else 0
    case _ => 0
  }

  lemma CleanUpCounts(m: Main, conn: Conn)
    ensures Number(Sift(m.conns, 0, IsRemoved).rest, conn, false)
         == Number(m.conns, conn, false) - Number(m.conns, conn, true)
  {
    var t := Sift(m.conns, 0, IsRemoved);
    SiftContents(m.conns, 0, IsRemoved);
    NumberSifted(m.conns, 0, IsRemoved, conn, false);
    NumberSifted(m.conns, 0, IsRemoved, conn, true);
    NumberClosed(t.rest, false, conn);
    NumberClosed(t.removed, true, conn);
  }

  /** No event loses or duplicates a client: it stays in the array or is handed
      to a locker, whatever the transfer and the drain do. */
  lemma ClientsConserved(m: Main, e: Event, conn: Conn)
    ensures Total(Step(m, e), conn) == Total(m, conn) + Change(m, e, conn)
  {
    match e
    case Accept(c) =>
      var client := Client(c, Daemon, false, Request("", false, false, false));
      NumberJoin(m.conns, [client], conn, false);
      NumberOne(client, conn, false);
    case Ask(id, request, starts) =>
      if 0 < id < |m.conns| && m.conns[id].state == Daemon {
        var c := m.conns[id].(request := request);
        NumberPut(m.conns, id, c, conn);
        TransferCounts(m.(conns := m.conns[id := c]), id, starts, conn);
      }
    case Close(id) =>
      if 0 < id < |m.conns| { NumberPut(m.conns, id, m.conns[id].(state := Remove), conn); }
    case CleanUp => CleanUpCounts(m, conn);
    case CloseWrite(k) =>
      if k < |m.lockers| { HandedPut(m.lockers, k, m.lockers[k].(writeOpen := false), conn); }
    case CloseRead(k) =>
      if k < |m.lockers| { HandedPut(m.lockers, k, m.lockers[k].(readOpen := false), conn); }
    case Join(k) =>
      if k < |m.lockers| { HandedDrop(m.lockers, k, conn); }
  }

  function Accepted(es: seq<Event>, conn: Conn): nat {
    if es == [] then 0 else (if es[0] == Accept(conn) then 1 else 0) + Accepted(es[1..], conn)
  }

  /** In every run a connection is in no more places than it was accepted: if
      that was once, it is never with two lockers, nor with one and still in the
      array. */
  lemma {:induction false} InOnePlace(m: Main, es: seq<Event>, conn: Conn)
    ensures Total(Run(m, es), conn) <= Total(m, conn) + Accepted(es, conn)
    decreases |es|
  {
    if es == [] {
    } else {
      ClientsConserved(m, es[0], conn);
      InOnePlace(Step(m, es[0]), es[1..], conn);
    }
  }
}
