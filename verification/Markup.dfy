/** The text of a message read back into elements: the fragment of markup in
    which messages are printed, without entities. */
module Markup {
  import opened Messages
  import opened MessageText
  import opened Records
  import opened Words

  function TagNamed(s: string): Tag {
    if s == "msg" then MsgTag else if s == "resource" then ResourceTag else if s == "answer" then AnswerTag
    else if s == "network" then NetworkTag else if s == "session" then SessionTag
    else if s == "shutdown" then ShutdownTag else OtherTag(s)
  }

  function PropNamed(s: string): Prop {
    if s == "level" then Level else if s == "verb" then Verb else if s == "step" then Step
    else if s == "name" then Name else if s == "mode" then Mode else if s == "wait" then Wait
    else if s == "quantity" then Quantity else if s == "create" then Create else if s == "lifespan" then Lifespan
    else if s == "rollback" then Rollback else if s == "rc" then ReturnCode else if s == "element" then ElementProp
    else if s == "peerid" then PeerId else if s == "address" then Address else if s == "port" then Port
    else if s == "immediate" then Immediate else OtherProp(s)
  }

  // ----- reading ------------------------------------------------------------

  /** How many characters come before the first stop. */
  function UpTo(s: string, stops: set<char>): (n: nat)
    ensures n <= |s| && (n < |s| ==> s[n] in stops)
    ensures forall i | 0 <= i < n :: s[i] !in stops
  {
    if s == "" || s[0] in stops then 0 else 1 + UpTo(s[1..], stops)
  }

  /** What no value may contain. */
  const SPECIAL := {NUL, '"', '<', '&'}

  datatype Taken<T> = Taken(value: T, rest: string)

  function TakeAttr(s: string): (r: Option<Taken<Attr>>)
    ensures r.Some? ==> |r.value.rest| < |s|
  {
    if |s| < 2 || s[0] != ' ' || s[1] == '/' then None
    else
      var n := UpTo(s, {'='});
      if |s| < n + 2 || s[n + 1] != '"' then None
      else
        var v := s[n + 2..];
        var k := UpTo(v, {'"'});
        if k == |v| || !Without(v[..k], SPECIAL) then None
        else Some(Taken(Attr(PropNamed(s[1..n]), v[..k]), v[k + 1..]))
  }

  /** As many attributes as there are. */
  function TakeAttrs(s: string): (r: Taken<seq<Attr>>)
    ensures |r.rest| <= |s|
    decreases |s|
  {
    match TakeAttr(s)
    case None => Taken([], s)
    case Some(Taken(a, rest)) =>
      var r := TakeAttrs(rest);
      Taken([a] + r.value, r.rest)
  }

  /** A tag up to its closing slash or bracket. */
  function TakeTag(s: string): (r: Option<Taken<Element>>)
    ensures r.Some? ==> |r.value.rest| < |s|
  {
    if s == "" || s[0] != '<' then None
    else
      var n := UpTo(s, {' ', '/', '>'});
      var r := TakeAttrs(s[n..]);
      Some(Taken(Element(TagNamed(s[1..n]), r.value), r.rest))
  }

  /** What comes after the end of a tag, which may have one space before its
      slash. */
  function TakeEnd(s: string): (r: Option<string>)
    ensures r.Some? ==> |r.value| < |s|
  {
    var end := if s != "" && s[0] == ' ' then s[1..] else s;
    if "/>" <= end then Some(end[2..]) else None
  }

  function TakeElement(s: string): (r: Option<Taken<Element>>)
    ensures r.Some? ==> |r.value.rest| < |s|
  {
    match TakeTag(s)
    case None => None
    case Some(Taken(e, end)) =>
      match TakeEnd(end)
      case None => None
      case Some(rest) => Some(Taken(e, rest))
  }

  function TakeBody(s: string): Option<seq<Element>>
    decreases |s|
  {
    if s == CLOSING then Some([])
    else
      match TakeElement(s)
      case None => None
      case Some(Taken(e, rest)) =>
        match TakeBody(rest)
        case None => None
        case Some(es) => Some([e] + es)
  }

  datatype Document = Document(opening: Element, body: seq<Element>)

  function ReadText(s: string): Option<Document> {
    if !(XML_HEADER <= s) then None
    else
      match TakeTag(s[|XML_HEADER|..])
      case None => None
      case Some(Taken(opening, rest)) =>
        if opening.tag != MsgTag || rest == "" || rest[0] != '>' then None
        else
          match TakeBody(rest[1..])
          case None => None
          case Some(body) => Some(Document(opening, body))
  }

  // ----- what was printed ---------------------------------------------------

  lemma LabelsReadBack(t: Tag, p: Prop)
    requires !t.OtherTag? && !p.OtherProp?
    ensures TagNamed(TagLabel(t)) == t && PropNamed(PropLabel(p)) == p
  {
  }

  lemma TagLabelPlain(t: Tag)
    requires !t.OtherTag?
    ensures Without(TagLabel(t), MARKUP) && TagLabel(t) != ""
  {
  }

  lemma PropLabelPlain(p: Prop)
    requires !p.OtherProp?
    ensures Without(PropLabel(p), MARKUP) && PropLabel(p) != ""
  {
  }

  lemma UpToFirst(a: string, b: string, stops: set<char>)
    requires Without(a, stops) && b != "" && b[0] in stops
    ensures UpTo(a + b, stops) == |a| && (a + b)[..|a|] == a && (a + b)[|a|..] == b
  {
    assert (a + b)[|a|] == b[0];
    assert forall i | 0 <= i < |a| :: (a + b)[i] == a[i];
  }

  lemma TakeAttrParts(word: string, value: string, tail: string)
    requires Without(word, MARKUP) && word != "" && Without(value, SPECIAL)
    ensures TakeAttr((" " + word) + ("=\"" + (value + ("\"" + tail))))
         == Some(Taken(Attr(PropNamed(word), value), tail))
  {
    var name, v := " " + word, value + ("\"" + tail);
    var back := "=\"" + v;
    var s := name + back;
    assert name[1] == word[0] && name[1..] == word;
    UpToFirst(name, back, {'='});
    UpToFirst(value, "\"" + tail, {'"'});
    assert s[|name| + 2..] == v by { assert s[|name|..][2..] == v; }
    assert s[1..|name|] == word by { assert s[..|name|][1..] == word; }
    assert v[|value| + 1..] == tail by { assert v[|value|..][1..] == tail; }
  }

  lemma InParts(word: string, value: string, tail: string)
    ensures (" " + word + "=\"" + value + "\"") + tail == (" " + word) + ("=\"" + (value + ("\"" + tail)))
  {
  }

  lemma AttrReadBack(a: Attr, tail: string)
    requires AttrWithout(a, SPECIAL)
    ensures TakeAttr(AttrText(a) + tail) == Some(Taken(a, tail))
  {
    LabelsReadBack(MsgTag, a.prop);
    PropLabelPlain(a.prop);
    InParts(PropLabel(a.prop), a.value, tail);
    TakeAttrParts(PropLabel(a.prop), a.value, tail);
  }

  lemma JoinAgain(a: string, b: string, c: string)
    ensures (a + b) + c == a + (b + c)
  {
  }

  lemma TakeAttrsFirst(s: string, a: Attr, rest: string)
    requires TakeAttr(s) == Some(Taken(a, rest))
    ensures TakeAttrs(s) == (var r := TakeAttrs(rest); Taken([a] + r.value, r.rest))
  {
  }

  lemma {:induction false} AttrsReadBack(attrs: seq<Attr>, tail: string)
    requires forall i | 0 <= i < |attrs| :: AttrWithout(attrs[i], SPECIAL)
    requires TakeAttr(tail) == None
    ensures TakeAttrs(AttrsText(attrs) + tail) == Taken(attrs, tail)
    decreases |attrs|
  {
    if attrs == [] {
      assert "" + tail == tail;
    } else {
      var a, more := attrs[0], attrs[1..];
      assert attrs == [a] + more;
      AttrsReadBack(more, tail);
      AttrReadBack(a, AttrsText(more) + tail);
      TakeAttrsFirst(AttrText(a) + (AttrsText(more) + tail), a, AttrsText(more) + tail);
      JoinAgain(AttrText(a), AttrsText(more), tail);
    }
  }

  lemma TagReadBack(e: Element, tail: string)
    requires ElementWithout(e, SPECIAL) && TakeAttr(tail) == None
    ensures TakeTag(TagText(e) + tail) == Some(Taken(e, tail))
  {
    var name, back := "<" + TagLabel(e.tag), AttrsText(e.attrs) + tail;
    LabelsReadBack(e.tag, Level);
    TagLabelPlain(e.tag);
    JoinAgain(name, AttrsText(e.attrs), tail);
    UpToFirst(name, back, {' ', '/', '>'});
    assert (name + back)[1..|name|] == TagLabel(e.tag);
    AttrsReadBack(e.attrs, tail);
  }

  lemma EndReadBack(tail: string)
    ensures TakeAttr("/>" + tail) == None && TakeEnd("/>" + tail) == Some(tail)
    ensures TakeAttr(" />" + tail) == None && TakeEnd(" />" + tail) == Some(tail)
  {
    assert (" />" + tail)[1..] == "/>" + tail;
  }

  lemma ElementReadBack(verb: int32, e: Element, tail: string)
    requires ElementWithout(e, SPECIAL)
    ensures TakeElement(ElementText(verb, e) + tail) == Some(Taken(e, tail))
  {
    var slash := if verb == VERB_UNLOCK then " />" else "/>";
    EndReadBack(tail);
    TagReadBack(e, slash + tail);
    JoinAgain(TagText(e), slash, tail);
  }

  // ----- the whole text -----------------------------------------------------

  lemma NoElement(s: string)
    requires s != "" && s[0] == NUL
    ensures TakeBody(s) == None
  {
  }

  lemma TakeBodyFirst(s: string, e: Element, tail: string)
    requires TakeElement(s) == Some(Taken(e, tail)) && s != CLOSING
    ensures TakeBody(s) == match TakeBody(tail) case None => None case Some(es) => Some([e] + es)
  {
  }

  lemma NotClosing(verb: int32, e: Element, tail: string)
    requires !e.tag.OtherTag?
    ensures ElementText(verb, e) + tail != CLOSING && ElementText(verb, e) != ""
  {
    TagLabelPlain(e.tag);
    assert (ElementText(verb, e) + tail)[1] == ElementText(verb, e)[1] == TagLabel(e.tag)[0];
  }

  lemma FirstReadBack(m: Msg, e: Element, pieces: seq<Piece>, text: string) returns (tail: string)
    requires ElementWithout(e, SPECIAL)
    requires Shows(text, [Piece(ElementText(m.verb, e), HalfPrinted(m))] + pieces)
    ensures |tail| < |text| && if HalfPrinted(m) then TakeBody(tail) == None else Shows(tail, pieces)
    ensures TakeBody(text) == match TakeBody(tail) case None => None case Some(es) => Some([e] + es)
  {
    var printed := ElementText(m.verb, e);
    tail := text[|printed|..];
    NotClosing(m.verb, e, tail);
    FirstShows(text, Piece(printed, HalfPrinted(m)), pieces);
    ElementReadBack(m.verb, e, tail);
    TakeBodyFirst(text, e, tail);
    if HalfPrinted(m) { NoElement(tail); }
  }

  /** Elements of a management message without an action are counted twice:
      after the first one comes a terminator. */
  lemma {:induction false} BodyReadBack(m: Msg, es: seq<Element>, text: string)
    requires AllWithout(es, SPECIAL) && Shows(text, BodyPieces(m, es) + [Piece(CLOSING, false)])
    ensures TakeBody(text) == if HalfPrinted(m) && es != [] then None else Some(es)
    decreases |es|
  {
    var last := [Piece(CLOSING, false)];
    if es == [] {
      assert BodyPieces(m, es) + last == last;
      LastShows(text);
    } else {
      var e, more := es[0], es[1..];
      assert es == [e] + more;
      assert BodyPieces(m, es) + last
             == [Piece(ElementText(m.verb, e), HalfPrinted(m))] + (BodyPieces(m, more) + last);
      var tail := FirstReadBack(m, e, BodyPieces(m, more) + last, text);
      if !HalfPrinted(m) { BodyReadBack(m, more, tail); }
    }
  }

  lemma LastShows(text: string)
    requires Shows(text, [Piece(CLOSING, false)])
    ensures TakeBody(text) == Some([])
  {
    assert text == text[..|CLOSING|] + text[|CLOSING|..];
    assert [Piece(CLOSING, false)][1..] == [];
    assert text == CLOSING;
  }

  lemma FirstShows(text: string, p: Piece, pieces: seq<Piece>)
    requires Shows(text, [p] + pieces) && p.text != ""
    ensures |p.text| <= |text| && text == p.text + text[|p.text|..]
    ensures p.twice ==> |p.text| < |text| && text[|p.text|] == NUL
    ensures !p.twice ==> Shows(text[|p.text|..], pieces)
  {
    assert ([p] + pieces)[1..] == pieces;
    assert text[..Size(p)][..|p.text|] == text[..|p.text|];
    assert text == text[..|p.text|] + text[|p.text|..];
  }

  lemma OpeningReadBack(m: Msg, tail: string)
    ensures TakeTag(TagText(OpeningOf(m)) + ">" + tail) == Some(Taken(OpeningOf(m), ">" + tail))
  {
    OpeningWithout(m, SPECIAL);
    TagReadBack(OpeningOf(m), ">" + tail);
    JoinAgain(TagText(OpeningOf(m)), ">", tail);
  }

  /** The head comes before the body and the end. */
  lemma HeadShows(m: Msg, pieces: seq<Piece>, text: string) returns (tail: string)
    requires Shows(text, HeadPieces(m) + pieces)
    ensures text == XML_HEADER + (HeadPieces(m)[1].text + tail) && Shows(tail, pieces)
  {
    var h := HeadPieces(m);
    assert h + pieces == [h[0]] + ([h[1]] + pieces);
    FirstShows(text, h[0], [h[1]] + pieces);
    var rest := text[|XML_HEADER|..];
    FirstShows(rest, h[1], pieces);
    tail := rest[|h[1].text|..];
  }

  lemma ReadTextBody(s: string, opening: Element, tail: string)
    requires TakeTag(s) == Some(Taken(opening, ">" + tail)) && opening.tag == MsgTag
    ensures ReadText(XML_HEADER + s) ==
            match TakeBody(tail) case None => None case Some(es) => Some(Document(opening, es))
  {
    assert (XML_HEADER + s)[|XML_HEADER|..] == s;
    assert (">" + tail)[1..] == tail;
  }

  lemma ElementsReadBack(m: Msg, es: seq<Element>, text: string)
    requires AllWithout(es, SPECIAL) && Shows(text, HeadPieces(m) + (BodyPieces(m, es) + [Piece(CLOSING, false)]))
    ensures ReadText(text) == if HalfPrinted(m) && es != [] then None else Some(Document(OpeningOf(m), es))
  {
    var tail := HeadShows(m, BodyPieces(m, es) + [Piece(CLOSING, false)], text);
    OpeningReadBack(m, tail);
    ReadTextBody(HeadPieces(m)[1].text + tail, OpeningOf(m), tail);
    BodyReadBack(m, es, tail);
  }

  /** The text of a message whose strings contain nothing special reads back as
      the elements that were printed; that of a management message without an
      action cannot be read. */
  lemma TextReadsBackExactly(m: Msg, t: ResourceType, text: string)
    requires BodyOf(m, t).fault == None && MsgWithout(m, SPECIAL) && Shows(text, Pieces(m, t))
    ensures ReadText(text)
         == if HalfPrinted(m) then None else Some(Document(OpeningOf(m), BodyOf(m, t).elements))
  {
    var es := BodyOf(m, t).elements;
    BodyWithout(m, t, SPECIAL);
    assert Pieces(m, t) == HeadPieces(m) + (BodyPieces(m, es) + [Piece(CLOSING, false)]);
    ElementsReadBack(m, es, text);
    if HalfPrinted(m) { HalfPrintedMeans(m, t); }
  }

  lemma ShowsMore(text: string, pieces: seq<Piece>, p: Piece)
    requires Shows(text, pieces) && !p.twice
    ensures Shows(text + p.text, pieces + [p])
  {
    ShowsLast(text, pieces, p.text, p);
  }

  lemma HalfPrintedPieces(m: Msg, t: ResourceType)
    requires HalfPrinted(m)
    ensures BodyOf(m, t).fault == None
    ensures Pieces(m, t)
         == HeadPieces(m) + [Piece(ElementText(m.verb, SessionOf(m)), true)] + [Piece(CLOSING, false)]
  {
    HalfPrintedMeans(m, t);
    assert [SessionOf(m)][1..] == [];
    assert BodyPieces(m, [SessionOf(m)]) == [Piece(ElementText(m.verb, SessionOf(m)), true)];
  }

  lemma HeadShown(m: Msg)
    ensures Shows(HeadPieces(m)[0].text + HeadPieces(m)[1].text, HeadPieces(m))
  {
    var h := HeadPieces(m);
    ShowsMore("", [], h[0]);
    assert "" + h[0].text == h[0].text && [] + [h[0]] == [h[0]];
    ShowsMore(h[0].text, [h[0]], h[1]);
    assert [h[0]] + [h[1]] == h;
  }

  /** A concrete management message without an action, as it is printed: what is
      left of an earlier use of the buffer stands behind its session. */
  lemma HoleExample() returns (m: Msg, text: string)
    ensures m == ZERO.(level := LEVEL, verb := VERB_MNGMNT, step := STEP_INCR, peerid := Some("1"))
    ensures BodyOf(m, NoType).fault == None && MsgWithout(m, SPECIAL) && Shows(text, Pieces(m, NoType))
    ensures !Clean(text) && ReadText(text) == None
  {
    m := ZERO.(level := LEVEL, verb := VERB_MNGMNT, step := STEP_INCR, peerid := Some("1"));
    assert MsgWithout(m, SPECIAL) && HalfPrinted(m);
    var session := ElementText(m.verb, SessionOf(m));
    var left := [NUL] + session[1..];
    var h, hole := HeadPieces(m), Piece(session, true);
    HeadShown(m);
    assert ShowsOne(session + left, hole) by {
      assert (session + left)[..|session|] == session && (session + left)[|session|] == NUL;
    }
    ShowsLast(h[0].text + h[1].text, h, session + left, hole);
    text := h[0].text + h[1].text + (session + left);
    var last := Piece(CLOSING, false);
    ShowsMore(text, h + [hole], last);
    text := text + last.text;
    HalfPrintedPieces(m, NoType);
    assert Shows(text, Pieces(m, NoType));
    TextReadsBackExactly(m, NoType, text);
    ReadableExactly(m, NoType, text);
  }
}
