/** The text of a message, piece by piece as it is printed. One message comes out
    with a hole: a management message without an action. */
module MessageText {
  import opened Decimal
  import opened Messages
  import opened Records
  import opened Words

  const NUL := '\0'

  // ----- pieces -------------------------------------------------------------

  /** What one print adds. A piece counted twice advances the offset by its
      length once more without writing anything. */
  datatype Piece = Piece(text: string, twice: bool)

  function AttrText(a: Attr): string {
    " " + PropLabel(a.prop) + "=\"" + a.value + "\""
  }

  function AttrsText(attrs: seq<Attr>): string {
    if attrs == [] then "" else AttrText(attrs[0]) + AttrsText(attrs[1..])
  }

  function TagText(e: Element): string {
    "<" + TagLabel(e.tag) + AttrsText(e.attrs)
  }

  /** The printer of unlock messages puts a space before the slash. */
  function ElementText(verb: int32, e: Element): string {
    TagText(e) + if verb == VERB_UNLOCK then " />" else "/>"
  }

  /** The length of the session is added a second time when no action follows. */
  predicate HalfPrinted(m: Msg) {
    m.verb == VERB_MNGMNT && m.step == STEP_INCR && m.order.action != Shutdown
  }

  /** That is so exactly when a management message has only its session. */
  lemma HalfPrintedMeans(m: Msg, t: ResourceType)
    ensures HalfPrinted(m) <==> m.verb == VERB_MNGMNT && BodyOf(m, t) == Plan([SessionOf(m)], None)
  {
  }

  function BodyPieces(m: Msg, es: seq<Element>): seq<Piece>
    decreases |es|
  {
    if es == [] then [] else [Piece(ElementText(m.verb, es[0]), HalfPrinted(m))] + BodyPieces(m, es[1..])
  }

  const XML_HEADER := "<?xml version=\"1.0\" encoding=\"UTF-8\" ?>"
  const CLOSING := "</msg>"

  function HeadPieces(m: Msg): seq<Piece> {
    [Piece(XML_HEADER, false), Piece(TagText(OpeningOf(m)) + ">", false)]
  }

  /** The pieces in the order in which they are printed. */
  function Pieces(m: Msg, t: ResourceType): seq<Piece> {
    var p := BodyOf(m, t);
    HeadPieces(m) + BodyPieces(m, p.elements) + if p.fault.Some? then [] else [Piece(CLOSING, false)]
  }

  function Size(p: Piece): nat {
    if p.twice then 2 * |p.text| else |p.text|
  }

  function Length(pieces: seq<Piece>): nat {
    if pieces == [] then 0 else Size(pieces[0]) + Length(pieces[1..])
  }

  /** One piece as it is found in the buffer: of one counted twice the second
      half is whatever was there before, after the terminator of the first. */
  predicate ShowsOne(text: string, p: Piece) {
    |text| == Size(p) && text[..|p.text|] == p.text && (p.twice && p.text != "" ==> text[|p.text|] == NUL)
  }

  predicate Shows(text: string, pieces: seq<Piece>)
    decreases |pieces|
  {
    if pieces == [] then text == ""
    else Size(pieces[0]) <= |text| && ShowsOne(text[..Size(pieces[0])], pieces[0])
         && Shows(text[Size(pieces[0])..], pieces[1..])
  }

  lemma {:induction false} ShowsLast(text: string, pieces: seq<Piece>, more: string, p: Piece)
    requires Shows(text, pieces) && ShowsOne(more, p)
    ensures Shows(text + more, pieces + [p])
    decreases |pieces|
  {
    if pieces == [] {
      assert text + more == more && more[..Size(p)] == more && more[Size(p)..] == "";
      assert [] + [p] == [p] && [p][1..] == [];
    } else {
      var n := Size(pieces[0]);
      assert (pieces + [p])[1..] == pieces[1..] + [p];
      assert (text + more)[..n] == text[..n] && (text + more)[n..] == text[n..] + more;
      ShowsLast(text[n..], pieces[1..], more, p);
    }
  }

  lemma {:induction false} ShowsLength(text: string, pieces: seq<Piece>)
    requires Shows(text, pieces)
    ensures |text| == Length(pieces)
    decreases |pieces|
  {
    if pieces == [] {
    } else {
      ShowsLength(text[Size(pieces[0])..], pieces[1..]);
    }
  }

  lemma {:induction false} LengthLast(pieces: seq<Piece>, p: Piece)
    ensures Length(pieces + [p]) == Length(pieces) + Size(p)
  {
    if pieces == [] {
      assert [] + [p] == [p] && [p][1..] == [];
    } else {
      LengthLast(pieces[1..], p);
      assert (pieces + [p])[1..] == pieces[1..] + [p];
    }
  }

  lemma {:induction false} LengthGrows(pieces: seq<Piece>, n: nat)
    requires n <= |pieces|
    ensures Length(pieces[..n]) <= Length(pieces)
    decreases |pieces|
  {
    if n == |pieces| {
      assert pieces[..n] == pieces;
    } else {
      var m := |pieces| - 1;
      assert pieces == pieces[..m] + [pieces[m]] && pieces[..m][..n] == pieces[..n];
      LengthLast(pieces[..m], pieces[m]);
      LengthGrows(pieces[..m], n);
    }
  }

  lemma UpToNext(pieces: seq<Piece>, i: nat)
    requires i < |pieces|
    ensures pieces[..i + 1] == pieces[..i] + [pieces[i]]
  {
  }

  lemma LengthNext(pieces: seq<Piece>, i: nat)
    requires i < |pieces|
    ensures Length(pieces[..i + 1]) == Length(pieces[..i]) + Size(pieces[i])
  {
    UpToNext(pieces, i);
    LengthLast(pieces[..i], pieces[i]);
  }

  lemma ShowsNext(text: string, pieces: seq<Piece>, i: nat, more: string)
    requires i < |pieces| && Shows(text, pieces[..i]) && ShowsOne(more, pieces[i])
    ensures Shows(text + more, pieces[..i + 1])
  {
    UpToNext(pieces, i);
    ShowsLast(text, pieces[..i], more, pieces[i]);
  }

  // ----- characters that do not occur ---------------------------------------

  predicate Without(s: string, bad: set<char>) {
    forall i | 0 <= i < |s| :: s[i] !in bad
  }

  predicate Clean(s: string) {
    NUL !in s
  }

  /** Numbers are free of these characters, and so are all labels. */
  const MARKUP := {NUL, '"', '<', '>', '&', '=', '/', ' '}

  predicate AttrWithout(a: Attr, bad: set<char>) {
    !a.prop.OtherProp? && Without(a.value, bad)
  }

  /** The strings of a message are free of the given characters. */
  predicate MsgWithout(m: Msg, bad: set<char>) {
    && Without(OrEmpty(m.peerid), bad) && Without(OrEmpty(m.name), bad) && Without(OrEmpty(m.reply.element), bad)
    && Without(OrEmpty(m.network.address), bad)
  }

  /** The strings of a message end before their terminator. */
  predicate CleanMsg(m: Msg) {
    MsgWithout(m, {NUL})
  }

  predicate ElementWithout(e: Element, bad: set<char>) {
    !e.tag.OtherTag? && e.attrs != [] && forall i | 0 <= i < |e.attrs| :: AttrWithout(e.attrs[i], bad)
  }

  lemma NumberWithout(n: int, bad: set<char>)
    requires bad <= MARKUP
    ensures Without(Print(n), bad)
  {
    var s := Digits(if n < 0 then -n else n);
    assert forall i | 0 <= i < |s| :: IsDigit(s[i]);
  }

  lemma ResourceWithout(m: Msg, t: ResourceType, bad: set<char>)
    requires MsgWithout(m, bad) && bad <= MARKUP
    ensures ElementWithout(ResourceOf(m, t), bad)
  {
    NumberWithout(m.ask.mode, bad);
    NumberWithout(m.ask.wait, bad);
    NumberWithout(m.ask.quantity, bad);
    NumberWithout(m.ask.create, bad);
    NumberWithout(m.ask.lifespan, bad);
  }

  lemma AnswerWithout(m: Msg, bad: set<char>)
    requires MsgWithout(m, bad) && bad <= MARKUP
    ensures ElementWithout(AnswerOf(m), bad)
  {
    NumberWithout(m.reply.rc, bad);
  }

  lemma PairWithout(tag: Tag, a: Attr, b: Attr, bad: set<char>)
    requires !tag.OtherTag? && AttrWithout(a, bad) && AttrWithout(b, bad)
    ensures ElementWithout(Element(tag, [a, b]), bad)
  {
  }

  predicate AllWithout(es: seq<Element>, bad: set<char>) {
    forall i | 0 <= i < |es| :: ElementWithout(es[i], bad)
  }

  lemma PairsWithout(m: Msg, bad: set<char>)
    requires MsgWithout(m, bad) && bad <= MARKUP
    ensures ElementWithout(UnlockOf(m), bad) && ElementWithout(NetworkOf(m), bad)
  {
    NumberWithout(m.rollback, bad);
    NumberWithout(m.network.port, bad);
    PairWithout(ResourceTag, Attr(Name, OrEmpty(m.name)), Attr(Rollback, Print(m.rollback)), bad);
    PairWithout(NetworkTag, Attr(Address, OrEmpty(m.network.address)), Attr(Port, Print(m.network.port)), bad);
  }

  lemma SessionWithout(m: Msg, bad: set<char>)
    requires MsgWithout(m, bad) && bad <= MARKUP
    ensures ElementWithout(SessionOf(m), bad) && ElementWithout(ShutdownOf(m), bad)
  {
    NumberWithout(m.order.immediate, bad);
  }

  lemma BodyWithout(m: Msg, t: ResourceType, bad: set<char>)
    requires MsgWithout(m, bad) && bad <= MARKUP
    ensures AllWithout(BodyOf(m, t).elements, bad)
  {
    ResourceWithout(m, t, bad);
    AnswerWithout(m, bad);
    PairsWithout(m, bad);
    SessionWithout(m, bad);
  }

  lemma OpeningWithout(m: Msg, bad: set<char>)
    requires bad <= MARKUP
    ensures ElementWithout(OpeningOf(m), bad)
  {
    NumberWithout(m.level, bad);
    NumberWithout(m.verb, bad);
    NumberWithout(m.step, bad);
  }

  // ----- the hole -----------------------------------------------------------

  lemma CleanAttr(a: Attr)
    requires AttrWithout(a, {NUL})
    ensures Clean(AttrText(a))
  {
    assert Clean(PropLabel(a.prop)) && Clean(a.value);
  }

  lemma {:induction false} CleanAttrs(attrs: seq<Attr>)
    requires forall i | 0 <= i < |attrs| :: AttrWithout(attrs[i], {NUL})
    ensures Clean(AttrsText(attrs))
  {
    if attrs == [] {
    } else {
      CleanAttrs(attrs[1..]);
      CleanAttr(attrs[0]);
    }
  }

  lemma CleanTag(e: Element)
    requires ElementWithout(e, {NUL})
    ensures Clean(TagText(e))
  {
    CleanAttrs(e.attrs);
    assert Clean(TagLabel(e.tag));
  }

  lemma CleanElementText(verb: int32, e: Element)
    requires ElementWithout(e, {NUL})
    ensures Clean(ElementText(verb, e)) && ElementText(verb, e) != ""
  {
    CleanTag(e);
  }

  predicate CleanPiece(p: Piece) {
    Clean(p.text) && p.text != ""
  }

  /** A terminator shows in the text exactly when some piece is counted twice. */
  lemma {:induction false} TerminatorShows(text: string, pieces: seq<Piece>)
    requires Shows(text, pieces)
    requires forall i | 0 <= i < |pieces| :: CleanPiece(pieces[i])
    ensures Clean(text) <==> forall i | 0 <= i < |pieces| :: !pieces[i].twice
    decreases |pieces|
  {
    if pieces == [] {
    } else {
      var p, n := pieces[0], Size(pieces[0]);
      TerminatorShows(text[n..], pieces[1..]);
      assert text == text[..n] + text[n..];
      assert forall i | 0 <= i < |pieces[1..]| :: pieces[1..][i] == pieces[i + 1];
      if p.twice {
        assert text[..n][|p.text|] == NUL;
      } else {
        assert text[..n] == p.text;
        assert forall i | 1 <= i < |pieces| :: pieces[i] == pieces[1..][i - 1];
      }
    }
  }

  lemma {:induction false} BodyPiecesMean(m: Msg, es: seq<Element>)
    requires AllWithout(es, {NUL})
    ensures |BodyPieces(m, es)| == |es|
    ensures forall i | 0 <= i < |es| ::
              CleanPiece(BodyPieces(m, es)[i]) && BodyPieces(m, es)[i].twice == HalfPrinted(m)
    decreases |es|
  {
    if es == [] {
    } else {
      CleanElementText(m.verb, es[0]);
      assert forall i | 0 <= i < |es[1..]| :: es[1..][i] == es[i + 1];
      BodyPiecesMean(m, es[1..]);
    }
  }

  lemma CleanHeader()
    ensures CleanPiece(Piece(XML_HEADER, false))
  {
    assert forall i | 0 <= i < |XML_HEADER| :: XML_HEADER[i] != NUL;
  }

  lemma HeadIsClean(m: Msg)
    ensures CleanPiece(HeadPieces(m)[0]) && CleanPiece(HeadPieces(m)[1])
  {
    CleanHeader();
    OpeningWithout(m, {NUL});
    CleanTag(OpeningOf(m));
  }

  lemma PiecesMean(m: Msg, t: ResourceType)
    requires BodyOf(m, t).fault == None && CleanMsg(m)
    ensures var pieces := Pieces(m, t);
            && (forall i | 0 <= i < |pieces| :: CleanPiece(pieces[i]))
            && ((forall i | 0 <= i < |pieces| :: !pieces[i].twice) <==> !HalfPrinted(m))
  {
    var es := BodyOf(m, t).elements;
    var body, pieces := BodyPieces(m, es), Pieces(m, t);
    BodyWithout(m, t, {NUL});
    BodyPiecesMean(m, es);
    HeadIsClean(m);
    forall i | 0 <= i < |pieces|
      ensures CleanPiece(pieces[i]) && (pieces[i].twice <==> 2 <= i < 2 + |body| && HalfPrinted(m))
    {
      if 2 <= i < 2 + |body| { assert pieces[i] == body[i - 2]; }
    }
    if HalfPrinted(m) { assert |body| > 0 && pieces[2].twice; }
  }

  /** The printed text is free of terminators, and so can be read on to its end,
      exactly when the message is not a management message without an action. */
  lemma ReadableExactly(m: Msg, t: ResourceType, text: string)
    requires BodyOf(m, t).fault == None && CleanMsg(m) && Shows(text, Pieces(m, t))
    ensures Clean(text) <==> !HalfPrinted(m)
  {
    PiecesMean(m, t);
    TerminatorShows(text, Pieces(m, t));
  }
}
