/** Messages as the program handles them: printed piece by piece into a buffer
    of fixed size, and read into fields that the parser's handlers overwrite. */
module MessageObjects {
  import opened Decimal
  import opened Markup
  import opened MessageText
  import opened Messages
  import opened Records
  import opened Words

  // ----- printing -----------------------------------------------------------

  class Printer {
    const buffer: array<char>
    var offset: nat
    var free: nat

    constructor (buffer: array<char>)
      ensures this.buffer == buffer && offset == 0 && free == buffer.Length
    {
      this.buffer, offset, free := buffer, 0, buffer.Length;
    }

    /** One bounded print: what does not fit is cut off and nothing is counted;
        a terminator is written as long as there is any room. */
    method Put(s: string) returns (ok: bool)
      requires offset + free == buffer.Length
      modifies this, buffer
      ensures offset + free == buffer.Length
      ensures ok <==> |s| < old(free)
      ensures offset == old(offset) + if ok then |s| else 0
      ensures buffer[..old(offset)] == old(buffer[..offset])
      ensures ok ==> buffer[..offset] == old(buffer[..offset]) + s && buffer[offset] == NUL
    {
      var i := 0;
      while i < |s| && i + 1 < free
        invariant 0 <= i <= |s| && (i == 0 || i < free)
        invariant offset == old(offset) && free == old(free)
        invariant buffer[..offset] == old(buffer[..offset])
        invariant forall k | 0 <= k < i :: buffer[offset + k] == s[k]
      {
        buffer[offset + i] := s[i];
        i := i + 1;
      }
      if free > 0 { buffer[offset + i] := NUL; }
      ok := |s| < free;
      if ok {
        assert buffer[..offset + |s|] == buffer[..offset] + s;
        offset, free := offset + |s|, free - |s|;
      }
    }

    /** The length of the piece just printed, counted once more. */
    method CountAgain(n: nat) returns (ok: bool)
      requires offset + free == buffer.Length
      modifies this
      ensures offset + free == buffer.Length
      ensures ok <==> n < old(free)
      ensures offset == old(offset) + if ok then n else 0
    {
      ok := n < free;
      if ok { offset, free := offset + n, free - n; }
    }

    method PutPiece(p: Piece) returns (ok: bool)
      requires offset + free == buffer.Length
      modifies this, buffer
      ensures offset + free == buffer.Length
      ensures ok <==> Size(p) < old(free)
      ensures ok ==> offset == old(offset) + Size(p) && buffer[..old(offset)] == old(buffer[..offset])
                     && ShowsOne(buffer[old(offset)..offset], p)
    {
      ghost var start := offset;
      ok := Put(p.text);
      if ok {
        assert buffer[start..offset] == p.text by {
          assert buffer[..offset][start..] == p.text;
        }
        if p.twice {
          ok := CountAgain(|p.text|);
          if ok {
            assert buffer[start..offset][..|p.text|] == buffer[start..start + |p.text|];
          }
        }
      }
    }
  }

  /** The pieces are printed until one does not fit. */
  method PrintAll(pieces: seq<Piece>, buffer: array<char>) returns (fits: bool, length: nat)
    requires pieces != []
    modifies buffer
    ensures fits <==> Length(pieces) < buffer.Length
    ensures fits ==> length < buffer.Length && Shows(buffer[..length], pieces)
  {
    var printer := new Printer(buffer);
    var i := 0;
    while i < |pieces|
      invariant 0 <= i <= |pieces|
      invariant printer.buffer == buffer && printer.offset + printer.free == buffer.Length
      invariant Shows(buffer[..printer.offset], pieces[..i])
      invariant i > 0 ==> printer.free > 0
    {
      ghost var shown := buffer[..printer.offset];
      ShowsLength(shown, pieces[..i]);
      LengthNext(pieces, i);
      LengthGrows(pieces, i + 1);
      var ok := printer.PutPiece(pieces[i]);
      if !ok { return false, 0; }
      ghost var more := buffer[|shown|..printer.offset];
      ShowsNext(shown, pieces, i, more);
      assert buffer[..printer.offset] == shown + more;
      i := i + 1;
    }
    assert pieces[..i] == pieces;
    ShowsLength(buffer[..printer.offset], pieces);
    fits, length := true, printer.offset;
  }

  /** The printing of a message that has no form ends after the pieces that
      precede the fault; a buffer too short for them is noticed first. */
  method Serialize(m: Msg, t: ResourceType, buffer: array<char>) returns (fault: Option<Fault>, length: nat)
    modifies buffer
    ensures fault == Some(ContainerFull) <==> Length(Pieces(m, t)) >= buffer.Length
    ensures fault != Some(ContainerFull) ==> fault == BodyOf(m, t).fault
    ensures fault == None ==> length < buffer.Length && Shows(buffer[..length], Pieces(m, t))
  {
    var fits;
    fits, length := PrintAll(Pieces(m, t), buffer);
    fault := if fits then BodyOf(m, t).fault else Some(ContainerFull);
  }

  // ----- reading ------------------------------------------------------------

  class Message {
    var state: State
    var level: int32
    var verb: int32
    var step: int32
    var peerid: Option<string>
    var name: Option<string>
    var mode: int32
    var wait: int32
    var quantity: int32
    var create: int32
    var lifespan: int32
    var rollback: int32
    var rc: int32
    var element: Option<string>
    var address: Option<string>
    var port: uint16
    var action: Action
    var immediate: int32

    ghost function View(): Msg
      reads this
    {
      Msg(state, level, verb, step, peerid, name, Ask(mode, wait, quantity, create, lifespan), rollback,
          Reply(rc, element), Network(address, port), Order(action, immediate))
    }

    constructor ()
      ensures View() == ZERO
    {
      state, level, verb, step := Initialized, 0, 0, 0;
      peerid, name, element, address := None, None, None, None;
      mode, wait, quantity, create, lifespan, rollback := 0, 0, 0, 0, 0, 0;
      rc, port, action, immediate := 0, 0, NoAction, 0;
    }

    method MsgAttr(prop: Prop, value: string) returns (ok: bool)
      modifies this
      ensures Parsed(View(), ok) == Messages.MsgAttr(old(View()), prop, value)
    {
      ok := true;
      match prop {
        case Level =>
          level := ToInt(value);
          ok := level == LEVEL;
        case Verb => verb := ToInt(value);
        case Step => step := ToInt(value);
        case _ =>
      }
    }

    /** Most properties of a resource belong to lock requests, one to unlock. */
    method ResourceAttr(prop: Prop, value: string) returns (ok: bool)
      modifies this
      ensures Parsed(View(), ok) == Messages.ResourceAttr(old(View()), prop, value)
    {
      ok := true;
      if (verb != VERB_LOCK && verb != VERB_UNLOCK) || step != STEP_INCR { return; }
      var lock := verb == VERB_LOCK;
      match prop {
        case Name => name := Some(value);
        case Mode => if lock { mode := ToInt(value); } else { ok := false; }
        case Rollback => if lock { ok := false; } else { rollback := ToInt(value); }
        case Wait => if lock { wait := ToInt(value); } else { ok := false; }
        case Quantity => if lock { quantity := ToInt(value); } else { ok := false; }
        case Create => if lock { create := ToInt(value); } else { ok := false; }
        case Lifespan => if lock { lifespan := ToInt(value); } else { ok := false; }
        case _ =>
      }
    }

    method AnswerAttr(prop: Prop, value: string)
      modifies this
      ensures Parsed(View(), true) == Messages.AnswerAttr(old(View()), prop, value)
    {
      if verb == VERB_LOCK && (step == 2 * STEP_INCR || step == 3 * STEP_INCR || step == 4 * STEP_INCR) {
        match prop {
          case ReturnCode => rc := ToInt(value);
          case ElementProp => element := Some(value);
          case _ =>
        }
      }
    }

    method NetworkAttr(prop: Prop, value: string) returns (ok: bool)
      modifies this
      ensures Parsed(View(), ok) == Messages.NetworkAttr(old(View()), prop, value)
    {
      ok := true;
      if verb == VERB_DISCOVER && step == 2 * STEP_INCR {
        match prop {
          case Port => port := ToPort(value);
          case Address => address := Some(value);
          case _ => ok := false;
        }
      }
    }

    method SessionAttr(prop: Prop, value: string)
      modifies this
      ensures Parsed(View(), true) == Messages.SessionAttr(old(View()), prop, value)
    {
      if prop == PeerId
         && ((verb == VERB_LOCK && (step == STEP_INCR || step == 2 * STEP_INCR))
             || (verb == VERB_MNGMNT && step == STEP_INCR)) {
        peerid := Some(value);
      }
    }

    method ShutdownAttr(prop: Prop, value: string) returns (ok: bool)
      modifies this
      ensures Parsed(View(), ok) == Messages.ShutdownAttr(old(View()), prop, value)
    {
      ok := true;
      if verb == VERB_MNGMNT && step == STEP_INCR {
        if prop == Immediate { action, immediate := Shutdown, ToInt(value); } else { ok := false; }
      }
    }

    method ReadAttr(tag: Tag, a: Attr) returns (ok: bool)
      modifies this
      ensures Parsed(View(), ok) == Messages.ReadAttr(old(View()), tag, a)
    {
      ok := true;
      match tag {
        case MsgTag => ok := MsgAttr(a.prop, a.value);
        case ResourceTag => ok := ResourceAttr(a.prop, a.value);
        case AnswerTag => AnswerAttr(a.prop, a.value);
        case NetworkTag => ok := NetworkAttr(a.prop, a.value);
        case SessionTag => SessionAttr(a.prop, a.value);
        case ShutdownTag => ok := ShutdownAttr(a.prop, a.value);
        case OtherTag(_) => ok := false;
      }
    }

    /** Cursors run over the names and values until one is rejected. */
    method StartElement(e: Element)
      modifies this
      ensures View() == Messages.StartElement(old(View()), e)
    {
      if state == Invalid { return; }
      if state == Initialized { state := Parsing; }
      var i := 0;
      while i < |e.attrs|
        invariant 0 <= i <= |e.attrs|
        invariant old(View()).state != Invalid
        invariant ReadAttrs(View(), e.tag, e.attrs[i..]) == Messages.StartElement(old(View()), e)
      {
        assert e.attrs[i..][1..] == e.attrs[i + 1..];
        var ok := ReadAttr(e.tag, e.attrs[i]);
        if !ok {
          state := Invalid;
          return;
        }
        i := i + 1;
      }
    }

    method EndElement(tag: Tag)
      modifies this
      ensures View() == Messages.EndElement(old(View()), tag)
    {
      match state {
        case Invalid =>
        case Ready =>
        case Initialized => state := Invalid;
        case Parsing => if tag == MsgTag { state := Ready; }
      }
    }

    /** The events of a document, as the tokenizer delivers them. */
    method ReadDocument(opening: Element, body: seq<Element>)
      modifies this
      ensures View() == ReadMessage(old(View()), opening, body)
    {
      StartElement(opening);
      var i := 0;
      while i < |body|
        invariant 0 <= i <= |body|
        invariant ReadElements(View(), body[i..]) == ReadElements(Messages.StartElement(old(View()), opening), body)
      {
        assert body[i..][1..] == body[i + 1..];
        StartElement(body[i]);
        EndElement(body[i].tag);
        i := i + 1;
      }
      EndElement(MsgTag);
    }

    method BuildAnswer(verb: int32, step: int32, rc: int32, element: Option<string>, uniqueId: string)
      returns (ok: bool)
      modifies this
      ensures ok <==> Messages.BuildAnswer(old(View()), verb, step, rc, element, uniqueId).Some?
      ensures View() == if ok then Messages.BuildAnswer(old(View()), verb, step, rc, element, uniqueId).value
                        else old(View()).(state := Parsing, level := LEVEL, verb := verb, step := step)
    {
      ghost var want := Messages.BuildAnswer(View(), verb, step, rc, element, uniqueId);
      state, level := Parsing, LEVEL;
      this.verb, this.step := verb, step;
      ok := true;
      if step == 2 * STEP_INCR {
        peerid := Some(uniqueId);
        this.rc, this.element := rc, element;
      } else if step == 3 * STEP_INCR {
        this.rc, this.element := rc, element;
      } else if step == 4 * STEP_INCR {
        this.rc, this.element := rc, element;
      } else {
        return false;
      }
      state := Ready;
      assert want == Some(View());
    }
  }

  /** From one side to the other: a message with a form that fits the buffer is
      printed there and read from there. Unless it is a management message
      without an action its text can be read, and fills the fields of a zeroed
      message with what it carries; at another level it makes it invalid. */
  method Transmit(m: Msg, t: ResourceType, buffer: array<char>)
    returns (fault: Option<Fault>, readable: bool, got: Message)
    requires MsgWithout(m, SPECIAL)
    modifies buffer
    ensures fault == None <==> BodyOf(m, t).fault == None && Length(Pieces(m, t)) < buffer.Length
    ensures fault == None ==> (readable <==> !HalfPrinted(m))
    ensures fault == None && readable ==> (got.state == Ready <==> m.level == LEVEL)
    ensures fault == None && readable && m.level == LEVEL ==> got.View() == Carried(m, t)
  {
    var length;
    readable := false;
    got := new Message();
    fault, length := Serialize(m, t, buffer);
    if fault == None {
      TextReadsBackExactly(m, t, buffer[..length]);
      var document := ReadText(buffer[..length]);
      readable := document.Some?;
      if readable {
        RoundTrip(m, t);
        got.ReadDocument(document.value.opening, document.value.body);
      }
    }
  }
}
