/** Connections, and the records a resource keeps about those that hold or wait
    for one of its locks. */
module Records {
  type Conn = nat

  datatype Option<T> = None | Some(value: T)

  datatype Record<T> = Record(conn: Conn, info: T)

  /** The first element of a connection, or the number of elements. */
  function FirstBy<T>(s: seq<T>, connOf: T -> Conn, conn: Conn): (k: nat)
    ensures k <= |s|
    ensures forall i | 0 <= i < k :: connOf(s[i]) != conn
    ensures k < |s| ==> connOf(s[k]) == conn
  {
    if s == [] || connOf(s[0]) == conn then 0 else 1 + FirstBy(s[1..], connOf, conn)
  }

  function ConnOf<T>(r: Record<T>): Conn {
    r.conn
  }

  function FirstWith<T>(rs: seq<Record<T>>, conn: Conn): (k: nat)
    ensures k <= |rs|
    ensures forall i | 0 <= i < k :: rs[i].conn != conn
    ensures k < |rs| ==> rs[k].conn == conn
  {
    FirstBy(rs, ConnOf, conn)
  }

  function Drop<T>(s: seq<T>, k: nat): seq<T>
    requires k < |s|
  {
    s[..k] + s[k + 1..]
  }

  method FindFirst<T>(s: seq<T>, connOf: T -> Conn, conn: Conn) returns (k: nat)
    ensures k == FirstBy(s, connOf, conn)
  {
    k := 0;
    while k < |s| && connOf(s[k]) != conn
      invariant k <= FirstBy(s, connOf, conn)
    {
      k := k + 1;
    }
  }

  /** The queue without the connection's first request. */
  method DropFirst<T>(queue: seq<T>, connOf: T -> Conn, conn: Conn) returns (rest: seq<T>)
    ensures rest == var k := FirstBy(queue, connOf, conn); if k < |queue| then Drop(queue, k) else queue
  {
    var k := FindFirst(queue, connOf, conn);
    rest := if k < |queue| then queue[..k] + queue[k + 1..] else queue;
  }

  lemma DropContents<T>(s: seq<T>, k: nat)
    requires k < |s|
    ensures multiset(s) == multiset(Drop(s, k)) + multiset{s[k]}
  {
    assert s == s[..k] + [s[k]] + s[k + 1..];
  }

  lemma ConsContents<T>(x: T, s: seq<T>)
    ensures multiset([x] + s) == multiset{x} + multiset(s)
  {
  }

  /** One element counted on either side of a sum, or apart. */
  lemma Move<T>(x: T, a: multiset<T>, b: multiset<T>)
    ensures (multiset{x} + a) + b == a + (multiset{x} + b)
    ensures (multiset{x} + a) + b == (a + b) + multiset{x}
    ensures (a + multiset{x}) + b == (a + b) + multiset{x}
    ensures a + (b + multiset{x}) == (a + b) + multiset{x}
  {
  }

  lemma Regroup<T>(a: multiset<T>, b: multiset<T>, c: multiset<T>, d: multiset<T>, x: T)
    requires c + d == a + b
    ensures (a + multiset{x}) + b == (c + d) + multiset{x}
  {
    Move(x, a, b);
  }

  lemma AppendContents<T>(s: seq<T>, t: seq<T>)
    ensures multiset(s + t) == multiset(s) + multiset(t)
  {
  }

  lemma Exchange<T>(a: multiset<T>, b: multiset<T>, c: multiset<T>)
    ensures (a + b) + c == (a + c) + b
  {
  }

  /** Two exchanges, one after the other. */
  lemma TwoExchanges<T>(a: multiset<T>, x: multiset<T>, b: multiset<T>, y: multiset<T>,
                 x1: multiset<T>, c: multiset<T>, y1: multiset<T>)
    requires a + x == b + y && b + x1 == c + y1
    ensures a + (x + x1) == c + (y + y1)
  {
    assert a + (x + x1) == (a + x) + x1 == (b + x1) + y;
  }

  // ----- a connection's part of a queue -------------------------------------

  /** The elements of a connection, or those of all others, in order. */
  function Pick<T>(s: seq<T>, connOf: T -> Conn, conn: Conn, own: bool): seq<T> {
    if s == [] then []
    else if (connOf(s[0]) == conn) == own then [s[0]] + Pick(s[1..], connOf, conn, own)
    else Pick(s[1..], connOf, conn, own)
  }

  function Share<T>(s: seq<T>, connOf: T -> Conn, conn: Conn): nat {
    if s == [] then 0 else (if connOf(s[0]) == conn then 1 else 0) + Share(s[1..], connOf, conn)
  }

  /** `a` is what is left of `b` when some elements are taken out. */
  ghost predicate Subsequence<T>(a: seq<T>, b: seq<T>)
    decreases |b|
  {
    a == [] || (b != [] && ((a[0] == b[0] && Subsequence(a[1..], b[1..])) || Subsequence(a, b[1..])))
  }

  /** The first element of the connection is gone; its others are there, and
      those of all other connections, in their order. */
  ghost predicate LosesFirst<T>(before: seq<T>, after: seq<T>, connOf: T -> Conn, conn: Conn) {
    if Pick(before, connOf, conn, true) == [] then after == before
    else && Pick(after, connOf, conn, true) == Pick(before, connOf, conn, true)[1..]
         && Pick(after, connOf, conn, false) == Pick(before, connOf, conn, false)
         && Subsequence(after, before)
  }

  lemma {:induction false} SubsequenceSame<T>(s: seq<T>)
    ensures Subsequence(s, s)
    decreases |s|
  {
    if s != [] { SubsequenceSame(s[1..]); }
  }

  lemma SubsequenceLater<T>(a: seq<T>, x: T, b: seq<T>)
    requires Subsequence(a, b)
    ensures Subsequence(a, [x] + b) && Subsequence([x] + a, [x] + b)
  {
    assert ([x] + b)[1..] == b && ([x] + a)[1..] == a;
  }

  lemma {:induction false} DropSubsequence<T>(s: seq<T>, k: nat)
    requires k < |s|
    ensures Subsequence(Drop(s, k), s)
    decreases |s|
  {
    assert [s[0]] + s[1..] == s;
    if k == 0 {
      assert Drop(s, 0) == s[1..];
      SubsequenceSame(s[1..]);
      SubsequenceLater(s[1..], s[0], s[1..]);
    } else {
      DropSubsequence(s[1..], k - 1);
      assert Drop(s, k) == [s[0]] + Drop(s[1..], k - 1);
      SubsequenceLater(Drop(s[1..], k - 1), s[0], s[1..]);
    }
  }

  lemma PickCons<T>(x: T, s: seq<T>, connOf: T -> Conn, conn: Conn, own: bool)
    ensures Pick([x] + s, connOf, conn, own)
         == (if (connOf(x) == conn) == own then [x] else []) + Pick(s, connOf, conn, own)
  {
    assert ([x] + s)[1..] == s;
  }

  lemma {:induction false} DropPicks<T>(s: seq<T>, k: nat, connOf: T -> Conn, conn: Conn)
    requires k < |s| && k == FirstBy(s, connOf, conn)
    ensures Pick(s, connOf, conn, true) == [s[k]] + Pick(Drop(s, k), connOf, conn, true)
    ensures Pick(s, connOf, conn, false) == Pick(Drop(s, k), connOf, conn, false)
    decreases |s|
  {
    if k == 0 {
      assert Drop(s, 0) == s[1..];
    } else {
      var rest := Drop(s[1..], k - 1);
      DropPicks(s[1..], k - 1, connOf, conn);
      assert Drop(s, k) == [s[0]] + rest;
      PickCons(s[0], rest, connOf, conn, true);
      PickCons(s[0], rest, connOf, conn, false);
    }
  }

  lemma {:induction false} NothingPicked<T>(s: seq<T>, connOf: T -> Conn, conn: Conn)
    requires FirstBy(s, connOf, conn) == |s|
    ensures Pick(s, connOf, conn, true) == []
    decreases |s|
  {
    if s != [] { NothingPicked(s[1..], connOf, conn); }
  }

  lemma DropFirstPicks<T>(s: seq<T>, connOf: T -> Conn, conn: Conn)
    ensures var k := FirstBy(s, connOf, conn);
            LosesFirst(s, if k < |s| then Drop(s, k) else s, connOf, conn)
  {
    var k := FirstBy(s, connOf, conn);
    if k < |s| {
      DropPicks(s, k, connOf, conn);
      DropSubsequence(s, k);
    } else {
      NothingPicked(s, connOf, conn);
    }
  }

  lemma ShareCons<T>(x: T, s: seq<T>, connOf: T -> Conn, conn: Conn)
    ensures Share([x] + s, connOf, conn) == (if connOf(x) == conn then 1 else 0) + Share(s, connOf, conn)
  {
    assert ([x] + s)[1..] == s;
  }

  lemma {:induction false} ShareLast<T>(s: seq<T>, x: T, connOf: T -> Conn, conn: Conn)
    ensures Share(s + [x], connOf, conn) == Share(s, connOf, conn) + if connOf(x) == conn then 1 else 0
    decreases |s|
  {
    if s == [] {
      assert s + [x] == [x] + [];
      ShareCons(x, [], connOf, conn);
    } else {
      ShareLast(s[1..], x, connOf, conn);
      assert (s + [x])[1..] == s[1..] + [x];
    }
  }

  lemma {:induction false} ShareDrop<T>(s: seq<T>, k: nat, connOf: T -> Conn, conn: Conn)
    requires k < |s|
    ensures Share(s, connOf, conn) == Share(Drop(s, k), connOf, conn) + if connOf(s[k]) == conn then 1 else 0
    decreases |s|
  {
    if k == 0 {
      assert Drop(s, 0) == s[1..];
    } else {
      ShareDrop(s[1..], k - 1, connOf, conn);
      assert Drop(s, k) == [s[0]] + Drop(s[1..], k - 1);
      ShareCons(s[0], Drop(s[1..], k - 1), connOf, conn);
    }
  }

  lemma {:induction false} ShareNone<T>(s: seq<T>, connOf: T -> Conn, conn: Conn)
    ensures Share(s, connOf, conn) == 0 <==> FirstBy(s, connOf, conn) == |s|
    decreases |s|
  {
    if s != [] { ShareNone(s[1..], connOf, conn); }
  }
}
