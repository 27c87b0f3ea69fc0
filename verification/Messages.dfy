/** Protocol messages: what the printer writes for every verb and step, and what
    the start and end element handlers make of it. */
module Messages {
  import opened Decimal
  import opened Records
  import opened Words

  const LEVEL: int32 := 3

  const VERB_LOCK: int32 := 1
  const VERB_UNLOCK: int32 := 2
  const VERB_PING: int32 := 3
  const VERB_DISCOVER: int32 := 4
  const VERB_MNGMNT: int32 := 5

  const STEP_INCR: int32 := 8

  // ----- messages -----------------------------------------------------------

  datatype State = Initialized | Parsing | Ready | Invalid

  datatype Action = NoAction | Shutdown

  /** The lock request, but for the name. */
  datatype Ask = Ask(mode: int32, wait: int32, quantity: int32, create: int32, lifespan: int32)

  datatype Reply = Reply(rc: int32, element: Option<string>)

  datatype Network = Network(address: Option<string>, port: uint16)

  datatype Order = Order(action: Action, immediate: int32)

  /** All bodies side by side. Names are kept in the encoded form in which they
      travel. The answers of steps 16, 24 and 32 share their fields. */
  datatype Msg = Msg(state: State, level: int32, verb: int32, step: int32,
                     peerid: Option<string>, name: Option<string>, ask: Ask, rollback: int32,
                     reply: Reply, network: Network, order: Order)

  const NO_ASK := Ask(0, 0, 0, 0, 0)
  const NO_REPLY := Reply(0, None)
  const NO_NETWORK := Network(None, 0)
  const NO_ORDER := Order(NoAction, 0)

  /** A message as initialised: every byte zero. */
  const ZERO := Msg(Initialized, 0, 0, 0, None, None, NO_ASK, 0, NO_REPLY, NO_NETWORK, NO_ORDER)

  datatype ResourceType = NoType | Simple | Numeric | Set | Hier | Sequence | Timestamp

  // ----- elements -----------------------------------------------------------

  datatype Tag = MsgTag | ResourceTag | AnswerTag | NetworkTag | SessionTag | ShutdownTag | OtherTag(text: string)

  datatype Prop =
    | Level | Verb | Step | Name | Mode | Wait | Quantity | Create | Lifespan | Rollback
    | ReturnCode | ElementProp | PeerId | Address | Port | Immediate | OtherProp(text: string)

  datatype Attr = Attr(prop: Prop, value: string)

  datatype Element = Element(tag: Tag, attrs: seq<Attr>)

  function TagLabel(t: Tag): string {
    match t
    case MsgTag => "msg" case ResourceTag => "resource" case AnswerTag => "answer" case NetworkTag => "network"
    case SessionTag => "session" case ShutdownTag => "shutdown" case OtherTag(text) => text
  }

  function PropLabel(p: Prop): string {
    match p
    case Level => "level" case Verb => "verb" case Step => "step" case Name => "name" case Mode => "mode"
    case Wait => "wait" case Quantity => "quantity" case Create => "create" case Lifespan => "lifespan"
    case Rollback => "rollback" case ReturnCode => "rc" case ElementProp => "element" case PeerId => "peerid"
    case Address => "address" case Port => "port" case Immediate => "immediate" case OtherProp(text) => text
  }

  // ----- flom_msg_serialize -------------------------------------------------

  function OrEmpty(s: Option<string>): string {
    if s.Some? then s.value else ""
  }

  function SessionOf(m: Msg): Element {
    Element(SessionTag, [Attr(PeerId, OrEmpty(m.peerid))])
  }

  function ShutdownOf(m: Msg): Element {
    Element(ShutdownTag, [Attr(Immediate, Print(m.order.immediate))])
  }

  function AnswerOf(m: Msg): Element {
    Element(AnswerTag, [Attr(ReturnCode, Print(m.reply.rc))] +
                       if m.reply.element.Some? then [Attr(ElementProp, m.reply.element.value)] else [])
  }

  function UnlockOf(m: Msg): Element {
    Element(ResourceTag, [Attr(Name, OrEmpty(m.name)), Attr(Rollback, Print(m.rollback))])
  }

  function NetworkOf(m: Msg): Element {
    Element(NetworkTag, [Attr(Address, OrEmpty(m.network.address)), Attr(Port, Print(m.network.port))])
  }

  /** The attributes depend on the type of the resource. */
  function ResourceOf(m: Msg, t: ResourceType): Element {
    Element(ResourceTag, FrontOf(m, t) + BackOf(m, t))
  }

  function FrontOf(m: Msg, t: ResourceType): seq<Attr> {
    [Attr(Name, OrEmpty(m.name))]
    + (if t == Simple || t == Hier then [Attr(Mode, Print(m.ask.mode))] else [])
    + [Attr(Wait, Print(m.ask.wait))]
  }

  function BackOf(m: Msg, t: ResourceType): seq<Attr> {
    (if t == Numeric then [Attr(Quantity, Print(m.ask.quantity))] else [])
    + [Attr(Create, Print(m.ask.create)), Attr(Lifespan, Print(m.ask.lifespan))]
  }

  datatype Fault = InternalError | InvalidResourceName | ContainerFull

  /** What is written between the opening and the closing tag of the message
      before the printing ends or is given up. */
  datatype Plan = Plan(elements: seq<Element>, fault: Option<Fault>)

  /** A management message whose action is no shutdown has nothing to say after
      the session. */
  function BodyOf(m: Msg, t: ResourceType): Plan {
    if m.verb == VERB_LOCK then
      if m.step == STEP_INCR then
        if t == NoType then Plan([SessionOf(m)], Some(InvalidResourceName))
        else Plan([SessionOf(m), ResourceOf(m, t)], None)
      else if m.step == 2 * STEP_INCR then Plan([SessionOf(m), AnswerOf(m)], None)
      else if m.step == 3 * STEP_INCR || m.step == 4 * STEP_INCR then Plan([AnswerOf(m)], None)
      else Plan([], Some(InternalError))
    else if m.verb == VERB_UNLOCK then
      if m.step == STEP_INCR then Plan([UnlockOf(m)], None)
      else Plan([], Some(InternalError))
    else if m.verb == VERB_PING then
      if m.step == STEP_INCR || m.step == 2 * STEP_INCR then Plan([], None) else Plan([], Some(InternalError))
    else if m.verb == VERB_DISCOVER then
      if m.step == STEP_INCR then Plan([], None)
      else if m.step == 2 * STEP_INCR then Plan([NetworkOf(m)], None)
      else Plan([], Some(InternalError))
    else if m.verb == VERB_MNGMNT then
      if m.step == STEP_INCR then
        Plan([SessionOf(m)] + if m.order.action == Shutdown then [ShutdownOf(m)] else [], None)
      else Plan([], Some(InternalError))
    else Plan([], Some(InternalError))
  }

  function OpeningOf(m: Msg): Element {
    Element(MsgTag, [Attr(Level, Print(m.level)), Attr(Verb, Print(m.verb)), Attr(Step, Print(m.step))])
  }

  // ----- flom_msg_deserialize_start_element ---------------------------------

  /** After one attribute; `ok` is false when the rest is skipped and the
      message becomes invalid. */
  datatype Parsed = Parsed(msg: Msg, ok: bool)

  function MsgAttr(m: Msg, prop: Prop, value: string): Parsed {
    match prop
    case Level => Parsed(m.(level := ToInt(value)), ToInt(value) == LEVEL)
    case Verb => Parsed(m.(verb := ToInt(value)), true)
    case Step => Parsed(m.(step := ToInt(value)), true)
    case _ => Parsed(m, true)
  }

  function ResourceAttr(m: Msg, prop: Prop, value: string): Parsed {
    if (m.verb != VERB_LOCK && m.verb != VERB_UNLOCK) || m.step != STEP_INCR then Parsed(m, true)
    else
      var lock := m.verb == VERB_LOCK;
      match prop
      case Name => Parsed(m.(name := Some(value)), true)
      case Mode => if lock then Parsed(m.(ask := m.ask.(mode := ToInt(value))), true) else Parsed(m, false)
      case Rollback => if lock then Parsed(m, false) else Parsed(m.(rollback := ToInt(value)), true)
      case Wait => if lock then Parsed(m.(ask := m.ask.(wait := ToInt(value))), true) else Parsed(m, false)
      case Quantity => if lock then Parsed(m.(ask := m.ask.(quantity := ToInt(value))), true) else Parsed(m, false)
      case Create => if lock then Parsed(m.(ask := m.ask.(create := ToInt(value))), true) else Parsed(m, false)
      case Lifespan => if lock then Parsed(m.(ask := m.ask.(lifespan := ToInt(value))), true) else Parsed(m, false)
      case _ => Parsed(m, true)
  }

  function AnswerAttr(m: Msg, prop: Prop, value: string): Parsed {
    if m.verb != VERB_LOCK || (m.step != 2 * STEP_INCR && m.step != 3 * STEP_INCR && m.step != 4 * STEP_INCR)
    then Parsed(m, true)
    else
      match prop
      case ReturnCode => Parsed(m.(reply := m.reply.(rc := ToInt(value))), true)
      case ElementProp => Parsed(m.(reply := m.reply.(element := Some(value))), true)
      case _ => Parsed(m, true)
  }

  function NetworkAttr(m: Msg, prop: Prop, value: string): Parsed {
    if m.verb != VERB_DISCOVER || m.step != 2 * STEP_INCR then Parsed(m, true)
    else
      match prop
      case Port => Parsed(m.(network := m.network.(port := ToPort(value))), true)
      case Address => Parsed(m.(network := m.network.(address := Some(value))), true)
      case _ => Parsed(m, false)
  }

  function SessionAttr(m: Msg, prop: Prop, value: string): Parsed {
    if prop == PeerId
       && ((m.verb == VERB_LOCK && (m.step == STEP_INCR || m.step == 2 * STEP_INCR))
           || (m.verb == VERB_MNGMNT && m.step == STEP_INCR))
    then Parsed(m.(peerid := Some(value)), true) else Parsed(m, true)
  }

  function ShutdownAttr(m: Msg, prop: Prop, value: string): Parsed {
    if m.verb != VERB_MNGMNT || m.step != STEP_INCR then Parsed(m, true)
    else if prop == Immediate then Parsed(m.(order := Order(Shutdown, ToInt(value))), true)
    else Parsed(m, false)
  }

  function ReadAttr(m: Msg, tag: Tag, a: Attr): Parsed {
    match tag
    case MsgTag => MsgAttr(m, a.prop, a.value)
    case ResourceTag => ResourceAttr(m, a.prop, a.value)
    case AnswerTag => AnswerAttr(m, a.prop, a.value)
    case NetworkTag => NetworkAttr(m, a.prop, a.value)
    case SessionTag => SessionAttr(m, a.prop, a.value)
    case ShutdownTag => ShutdownAttr(m, a.prop, a.value)
    case OtherTag(_) => Parsed(m, false)
  }

  function ReadAttrs(m: Msg, tag: Tag, attrs: seq<Attr>): Msg
    decreases |attrs|
  {
    if attrs == [] then m
    else
      var p := ReadAttr(m, tag, attrs[0]);
      if p.ok then ReadAttrs(p.msg, tag, attrs[1..]) else p.msg.(state := Invalid)
  }

  function StartElement(m: Msg, e: Element): Msg {
    if m.state == Invalid then m
    else ReadAttrs(if m.state == Initialized then m.(state := Parsing) else m, e.tag, e.attrs)
  }

  function EndElement(m: Msg, tag: Tag): Msg {
    match m.state
    case Invalid => m
    case Ready => m
    case Initialized => m.(state := Invalid)
    case Parsing => if tag == MsgTag then m.(state := Ready) else m
  }

  /** The events of a complete document: the message around its elements. */
  function ReadElements(m: Msg, es: seq<Element>): Msg
    decreases |es|
  {
    if es == [] then m else ReadElements(EndElement(StartElement(m, es[0]), es[0].tag), es[1..])
  }

  function ReadMessage(m: Msg, opening: Element, body: seq<Element>): Msg {
    EndElement(ReadElements(StartElement(m, opening), body), MsgTag)
  }

  // ----- flom_msg_check_protocol --------------------------------------------

  /** Which side may send what. */
  predicate CheckProtocol(m: Msg, client: bool) {
    if m.verb == VERB_LOCK then
      if m.step == STEP_INCR then client
      else !client && (m.step == 2 * STEP_INCR || m.step == 3 * STEP_INCR || m.step == 4 * STEP_INCR)
    else if m.verb == VERB_UNLOCK || m.verb == VERB_MNGMNT then client && m.step == STEP_INCR
    else if m.verb == VERB_PING then if client then m.step == 2 * STEP_INCR else m.step == STEP_INCR
    else if m.verb == VERB_DISCOVER then if client then m.step == STEP_INCR else m.step == 2 * STEP_INCR
    else false
  }

  /** Conversations are opened by the client, but for pings. */
  predicate ClientOpens(verb: int32) {
    verb in {VERB_LOCK, VERB_UNLOCK, VERB_DISCOVER, VERB_MNGMNT}
  }

  /** What the other side sends back: up to three answers to a lock request, one
      to a ping or a discovery, none to an unlock or an order. */
  predicate SentBack(verb: int32, step: int32) {
    || (verb == VERB_LOCK && step in {2 * STEP_INCR, 3 * STEP_INCR, 4 * STEP_INCR})
    || (verb in {VERB_PING, VERB_DISCOVER} && step == 2 * STEP_INCR)
  }

  /** The first step is legal for the side that opens, and what is sent back for
      the other. */
  lemma ProtocolMeans(m: Msg, client: bool)
    ensures CheckProtocol(m, client) <==>
            if client == ClientOpens(m.verb) then (ClientOpens(m.verb) || m.verb == VERB_PING) && m.step == STEP_INCR
            else SentBack(m.verb, m.step)
  {
  }

  /** No message is legal for both sides, and those legal for one are exactly
      the ones the printer has a form for. */
  lemma LegalIsPrintable(m: Msg, t: ResourceType)
    ensures !(CheckProtocol(m, true) && CheckProtocol(m, false))
    ensures BodyOf(m, t).fault == None <==>
            (CheckProtocol(m, true) || CheckProtocol(m, false))
            && (m.verb == VERB_LOCK && m.step == STEP_INCR ==> t != NoType)
  {
  }

  // ----- flom_msg_build_answer ----------------------------------------------

  /** An answer with the daemon's own identifier at step 16; no other step but
      24 and 32 is answered. */
  function BuildAnswer(m: Msg, verb: int32, step: int32, rc: int32, element: Option<string>,
                       uniqueId: string): Option<Msg> {
    var named := m.(state := Ready, level := LEVEL, verb := verb, step := step, reply := Reply(rc, element));
    if step == 2 * STEP_INCR then Some(named.(peerid := Some(uniqueId)))
    else if step == 3 * STEP_INCR || step == 4 * STEP_INCR then Some(named)
    else None
  }

  // ----- what is stored, ignored and rejected -------------------------------

  /** The attributes a message of this verb and step stores. */
  predicate Stores(m: Msg, tag: Tag, prop: Prop) {
    match tag
    case MsgTag => prop in {Level, Verb, Step}
    case ResourceTag =>
      m.step == STEP_INCR
      && ((m.verb == VERB_LOCK && prop in {Name, Mode, Wait, Quantity, Create, Lifespan})
          || (m.verb == VERB_UNLOCK && prop in {Name, Rollback}))
    case AnswerTag => IsReply(m) && prop in {ReturnCode, ElementProp}
    case NetworkTag => m.verb == VERB_DISCOVER && m.step == 2 * STEP_INCR && prop in {Address, Port}
    case SessionTag =>
      ((m.verb == VERB_LOCK && m.step in {STEP_INCR, 2 * STEP_INCR})
       || (m.verb == VERB_MNGMNT && m.step == STEP_INCR))
      && prop == PeerId
    case ShutdownTag => m.verb == VERB_MNGMNT && m.step == STEP_INCR && prop == Immediate
    case OtherTag(_) => false
  }

  /** Where an attribute that is not stored is an error: in an element of the
      message's own verb and step, unless it belongs to no resource at all. */
  predicate Strict(m: Msg, tag: Tag, prop: Prop) {
    match tag
    case ResourceTag =>
      m.verb in {VERB_LOCK, VERB_UNLOCK} && m.step == STEP_INCR
      && prop in {Mode, Wait, Quantity, Create, Lifespan, Rollback}
    case NetworkTag => m.verb == VERB_DISCOVER && m.step == 2 * STEP_INCR
    case ShutdownTag => m.verb == VERB_MNGMNT && m.step == STEP_INCR
    case OtherTag(_) => true
    case _ => false
  }

  /** An attribute that the message does not store changes nothing. */
  lemma OthersIgnored(m: Msg, tag: Tag, a: Attr)
    requires !Stores(m, tag, a.prop)
    ensures ReadAttr(m, tag, a).msg == m
  {
  }

  /** An attribute is rejected exactly when it is an error not to store it and
      it is not stored, or when it gives another level. */
  lemma RejectsExactly(m: Msg, tag: Tag, a: Attr)
    ensures !ReadAttr(m, tag, a).ok <==>
            (Strict(m, tag, a.prop) && !Stores(m, tag, a.prop))
            || (tag == MsgTag && a.prop == Level && ToInt(a.value) != LEVEL)
  {
  }

  /** A message becomes ready only by the end of its own element while it is
      read, and an end before any start makes it invalid; then it stays so. */
  lemma EndElementMeans(m: Msg, tag: Tag)
    ensures EndElement(m, tag) == m.(state := EndElement(m, tag).state)
    ensures EndElement(m, tag).state == Ready <==> m.state == Ready || (m.state == Parsing && tag == MsgTag)
    ensures EndElement(m, tag).state == Invalid <==> m.state in {Invalid, Initialized}
    ensures m.state == Invalid ==> forall e :: StartElement(m, e) == m
  {
  }

  // ----- the round trip -----------------------------------------------------

  /** The fields that verb, step and type of resource carry; a string that is
      printed as empty when absent comes back empty. */
  function Carried(m: Msg, t: ResourceType): Msg {
    var lock := m.verb == VERB_LOCK;
    var ask := lock && m.step == STEP_INCR;
    var session := (lock && (m.step == STEP_INCR || m.step == 2 * STEP_INCR)) || m.verb == VERB_MNGMNT;
    Msg(Ready, LEVEL, m.verb, m.step,
        if session then Some(OrEmpty(m.peerid)) else None,
        if ask || m.verb == VERB_UNLOCK then Some(OrEmpty(m.name)) else None,
        if ask then m.ask.(mode := if t == Simple || t == Hier then m.ask.mode else 0,
                           quantity := if t == Numeric then m.ask.quantity else 0)
        else NO_ASK,
        if m.verb == VERB_UNLOCK then m.rollback else 0,
        if lock && m.step != STEP_INCR then m.reply else NO_REPLY,
        if m.verb == VERB_DISCOVER && m.step == 2 * STEP_INCR
        then Network(Some(OrEmpty(m.network.address)), m.network.port) else NO_NETWORK,
        if m.verb == VERB_MNGMNT && m.order.action == Shutdown then m.order else NO_ORDER)
  }

  lemma ReadOne(m: Msg, tag: Tag, attrs: seq<Attr>)
    requires |attrs| > 0
    ensures var p := ReadAttr(m, tag, attrs[0]);
            ReadAttrs(m, tag, attrs) == if p.ok then ReadAttrs(p.msg, tag, attrs[1..]) else p.msg.(state := Invalid)
  {
  }

  /** The header is read back whatever the numbers are; another level than the
      reader's makes the message invalid at once. */
  lemma OpeningRoundTrip(m: Msg)
    ensures StartElement(ZERO, OpeningOf(m)) ==
            if m.level == LEVEL then ZERO.(state := Parsing, level := LEVEL, verb := m.verb, step := m.step)
            else ZERO.(state := Invalid, level := m.level)
  {
    IntRoundTrip(m.level);
    IntRoundTrip(m.verb);
    IntRoundTrip(m.step);
    var attrs := OpeningOf(m).attrs;
    var z := ZERO.(state := Parsing);
    ReadOne(z, MsgTag, attrs);
    if m.level == LEVEL {
      assert attrs[1..] == [attrs[1], attrs[2]];
      ReadOne(z.(level := LEVEL), MsgTag, attrs[1..]);
      assert attrs[1..][1..] == [attrs[2]];
      ReadOne(z.(level := LEVEL, verb := m.verb), MsgTag, [attrs[2]]);
      assert [attrs[2]][1..] == [];
    }
  }

  lemma {:induction false} ReadJoin(m: Msg, tag: Tag, a: seq<Attr>, b: seq<Attr>)
    requires m.state == Parsing && ReadAttrs(m, tag, a).state == Parsing
    ensures ReadAttrs(m, tag, a + b) == ReadAttrs(ReadAttrs(m, tag, a), tag, b)
    decreases |a|
  {
    if a == [] {
      assert a + b == b;
    } else {
      assert (a + b)[1..] == a[1..] + b;
      ReadJoin(ReadAttr(m, tag, a[0]).msg, tag, a[1..], b);
    }
  }

  lemma ReadSingle(m: Msg, tag: Tag, a: Attr)
    ensures var p := ReadAttr(m, tag, a);
            ReadAttrs(m, tag, [a]) == if p.ok then p.msg else p.msg.(state := Invalid)
  {
    assert [a][1..] == [];
  }

  /** The header of a message of the reader's level, and nothing else yet. */
  function Opened(m: Msg): Msg {
    ZERO.(state := Parsing, level := LEVEL, verb := m.verb, step := m.step)
  }

  predicate IsAsk(m: Msg) {
    m.verb == VERB_LOCK && m.step == STEP_INCR
  }

  predicate IsReply(m: Msg) {
    m.verb == VERB_LOCK && (m.step == 2 * STEP_INCR || m.step == 3 * STEP_INCR || m.step == 4 * STEP_INCR)
  }

  /** Two stretches of attributes, one after the other. */
  lemma ReadBoth(m: Msg, tag: Tag, a: seq<Attr>, b: seq<Attr>, between: Msg, after: Msg)
    requires m.state == Parsing && between.state == Parsing
    requires ReadAttrs(m, tag, a) == between && ReadAttrs(between, tag, b) == after
    ensures ReadAttrs(m, tag, a + b) == after
  {
    ReadJoin(m, tag, a, b);
  }

  /** A lock request with the numbers read so far. */
  function Asking(m: Msg, name: string, ask: Ask): Msg {
    m.(name := Some(name), ask := ask)
  }

  lemma ReadNumber(m: Msg, name: string, ask: Ask, prop: Prop, n: int32)
    requires IsAsk(m) && m.state == Parsing
    ensures ReadAttrs(Asking(m, name, ask), ResourceTag, [Attr(prop, Print(n))]) ==
            match prop
            case Mode => Asking(m, name, ask.(mode := n))
            case Wait => Asking(m, name, ask.(wait := n))
            case Quantity => Asking(m, name, ask.(quantity := n))
            case Create => Asking(m, name, ask.(create := n))
            case Lifespan => Asking(m, name, ask.(lifespan := n))
            case _ => ReadAttrs(Asking(m, name, ask), ResourceTag, [Attr(prop, Print(n))])
  {
    IntRoundTrip(n);
    ReadSingle(Asking(m, name, ask), ResourceTag, Attr(prop, Print(n)));
  }

  lemma FrontRoundTrip(m: Msg, t: ResourceType, into: Msg)
    requires IsAsk(m) && into == Opened(m).(peerid := into.peerid)
    ensures ReadAttrs(into, ResourceTag, FrontOf(m, t))
         == Asking(into, OrEmpty(m.name), NO_ASK.(mode := Carried(m, t).ask.mode, wait := m.ask.wait))
  {
    var n := OrEmpty(m.name);
    var mode := if t == Simple || t == Hier then [Attr(Mode, Print(m.ask.mode))] else [];
    var name := [Attr(Name, n)];
    var a := NO_ASK.(mode := Carried(m, t).ask.mode);
    ReadSingle(into, ResourceTag, name[0]);
    ReadNumber(into, n, NO_ASK, Mode, m.ask.mode);
    ReadBoth(into, ResourceTag, name, mode, Asking(into, n, NO_ASK), Asking(into, n, a));
    ReadNumber(into, n, a, Wait, m.ask.wait);
    ReadBoth(into, ResourceTag, name + mode, [Attr(Wait, Print(m.ask.wait))],
             Asking(into, n, a), Asking(into, n, a.(wait := m.ask.wait)));
  }

  lemma BackRoundTrip(m: Msg, t: ResourceType, into: Msg, name: string, a: Ask)
    requires IsAsk(m) && IsAsk(into) && into.state == Parsing && a.quantity == 0
    ensures ReadAttrs(Asking(into, name, a), ResourceTag, BackOf(m, t))
         == Asking(into, name, a.(quantity := Carried(m, t).ask.quantity, create := m.ask.create,
                                  lifespan := m.ask.lifespan))
  {
    var quantity := if t == Numeric then [Attr(Quantity, Print(m.ask.quantity))] else [];
    var create, lifespan := [Attr(Create, Print(m.ask.create))], [Attr(Lifespan, Print(m.ask.lifespan))];
    var b := a.(quantity := Carried(m, t).ask.quantity);
    var c := b.(create := m.ask.create);
    var d := c.(lifespan := m.ask.lifespan);
    ReadNumber(into, name, a, Quantity, m.ask.quantity);
    ReadNumber(into, name, b, Create, m.ask.create);
    ReadNumber(into, name, c, Lifespan, m.ask.lifespan);
    ReadBoth(Asking(into, name, b), ResourceTag, create, lifespan, Asking(into, name, c), Asking(into, name, d));
    ReadBoth(Asking(into, name, a), ResourceTag, quantity, create + lifespan, Asking(into, name, b),
             Asking(into, name, d));
    assert create + lifespan == [create[0], lifespan[0]];
  }

  lemma ResourceRoundTrip(m: Msg, t: ResourceType, into: Msg)
    requires IsAsk(m) && t != NoType && into == Opened(m).(peerid := into.peerid)
    ensures ReadAttrs(into, ResourceTag, ResourceOf(m, t).attrs)
         == Asking(into, OrEmpty(m.name), Carried(m, t).ask)
  {
    var n := OrEmpty(m.name);
    var a := NO_ASK.(mode := Carried(m, t).ask.mode, wait := m.ask.wait);
    FrontRoundTrip(m, t, into);
    BackRoundTrip(m, t, into, n, a);
    ReadBoth(into, ResourceTag, FrontOf(m, t), BackOf(m, t), Asking(into, n, a), Asking(into, n, Carried(m, t).ask));
  }

  lemma SessionRoundTrip(m: Msg)
    requires IsAsk(m) || (IsReply(m) && m.step == 2 * STEP_INCR) || (m.verb == VERB_MNGMNT && m.step == STEP_INCR)
    ensures StartElement(Opened(m), SessionOf(m)) == Opened(m).(peerid := Some(OrEmpty(m.peerid)))
  {
    ReadSingle(Opened(m), SessionTag, SessionOf(m).attrs[0]);
  }

  lemma AnswerRoundTrip(m: Msg, into: Msg)
    requires IsReply(m) && into == Opened(m).(peerid := into.peerid)
    ensures StartElement(into, AnswerOf(m)) == into.(reply := m.reply)
  {
    var rc := Attr(ReturnCode, Print(m.reply.rc));
    IntRoundTrip(m.reply.rc);
    ReadSingle(into, AnswerTag, rc);
    if m.reply.element.Some? {
      var element := Attr(ElementProp, m.reply.element.value);
      ReadJoin(into, AnswerTag, [rc], [element]);
      ReadSingle(into.(reply := Reply(m.reply.rc, None)), AnswerTag, element);
    } else {
      assert AnswerOf(m).attrs == [rc];
    }
  }

  lemma UnlockRoundTrip(m: Msg)
    requires m.verb == VERB_UNLOCK && m.step == STEP_INCR
    ensures StartElement(Opened(m), UnlockOf(m))
         == Opened(m).(name := Some(OrEmpty(m.name)), rollback := m.rollback)
  {
    var name, rollback := Attr(Name, OrEmpty(m.name)), Attr(Rollback, Print(m.rollback));
    IntRoundTrip(m.rollback);
    ReadSingle(Opened(m), ResourceTag, name);
    ReadJoin(Opened(m), ResourceTag, [name], [rollback]);
    ReadSingle(Opened(m).(name := Some(OrEmpty(m.name))), ResourceTag, rollback);
    assert [name] + [rollback] == [name, rollback];
  }

  lemma NetworkRoundTrip(m: Msg)
    requires m.verb == VERB_DISCOVER && m.step == 2 * STEP_INCR
    ensures StartElement(Opened(m), NetworkOf(m))
         == Opened(m).(network := Network(Some(OrEmpty(m.network.address)), m.network.port))
  {
    var address, port := Attr(Address, OrEmpty(m.network.address)), Attr(Port, Print(m.network.port));
    PortRoundTrip(m.network.port);
    ReadSingle(Opened(m), NetworkTag, address);
    ReadJoin(Opened(m), NetworkTag, [address], [port]);
    ReadSingle(Opened(m).(network := Network(Some(OrEmpty(m.network.address)), 0)), NetworkTag, port);
    assert [address] + [port] == [address, port];
  }

  lemma ShutdownRoundTrip(m: Msg, into: Msg)
    requires m.verb == VERB_MNGMNT && m.step == STEP_INCR && into == Opened(m).(peerid := into.peerid)
    ensures StartElement(into, ShutdownOf(m))
         == into.(order := Order(Shutdown, m.order.immediate))
  {
    IntRoundTrip(m.order.immediate);
    ReadSingle(into, ShutdownTag, Attr(Immediate, Print(m.order.immediate)));
  }

  lemma ReadOneElement(m: Msg, e: Element)
    ensures ReadElements(m, [e]) == EndElement(StartElement(m, e), e.tag)
  {
    assert [e][1..] == [];
  }

  lemma ReadTwoElements(m: Msg, e: Element, f: Element)
    ensures ReadElements(m, [e, f]) ==
            EndElement(StartElement(EndElement(StartElement(m, e), e.tag), f), f.tag)
  {
    assert [e, f][1..] == [f];
    ReadOneElement(EndElement(StartElement(m, e), e.tag), f);
  }

  /** The elements between the header and its end. */
  lemma BodyRoundTrip(m: Msg, t: ResourceType)
    requires m.level == LEVEL && BodyOf(m, t).fault == None
    ensures ReadElements(Opened(m), BodyOf(m, t).elements) == Carried(m, t).(state := Parsing)
  {
    var o := Opened(m);
    var named := o.(peerid := Some(OrEmpty(m.peerid)));
    if IsAsk(m) {
      SessionRoundTrip(m);
      ResourceRoundTrip(m, t, named);
      ReadTwoElements(o, SessionOf(m), ResourceOf(m, t));
    } else if IsReply(m) && m.step == 2 * STEP_INCR {
      SessionRoundTrip(m);
      AnswerRoundTrip(m, named);
      ReadTwoElements(o, SessionOf(m), AnswerOf(m));
    } else if IsReply(m) {
      AnswerRoundTrip(m, o);
      ReadOneElement(o, AnswerOf(m));
    } else if m.verb == VERB_UNLOCK {
      UnlockRoundTrip(m);
      ReadOneElement(o, UnlockOf(m));
    } else if m.verb == VERB_DISCOVER && m.step == 2 * STEP_INCR {
      NetworkRoundTrip(m);
      ReadOneElement(o, NetworkOf(m));
    } else if m.verb == VERB_MNGMNT {
      SessionRoundTrip(m);
      ShutdownRoundTrip(m, named);
      if m.order.action == Shutdown {
        ReadTwoElements(o, SessionOf(m), ShutdownOf(m));
      } else {
        ReadOneElement(o, SessionOf(m));
      }
    }
  }

  /** Whatever is printed is read back: every carried field equal, all others
      zero, and the message ready; but only at the reader's own level. */
  lemma RoundTrip(m: Msg, t: ResourceType)
    requires BodyOf(m, t).fault == None
    ensures ReadMessage(ZERO, OpeningOf(m), BodyOf(m, t).elements).state == Ready <==> m.level == LEVEL
    ensures m.level == LEVEL ==> ReadMessage(ZERO, OpeningOf(m), BodyOf(m, t).elements) == Carried(m, t)
  {
    OpeningRoundTrip(m);
    if m.level == LEVEL {
      BodyRoundTrip(m, t);
    } else {
      InvalidStays(StartElement(ZERO, OpeningOf(m)), BodyOf(m, t).elements);
    }
  }

  lemma {:induction false} InvalidStays(m: Msg, es: seq<Element>)
    requires m.state == Invalid
    ensures ReadElements(m, es) == m
    decreases |es|
  {
    if es == [] {
    } else {
      InvalidStays(m, es[1..]);
    }
  }

  /** What arrives of an answer. */
  function Answered(step: int32, rc: int32, element: Option<string>, id: string): Msg {
    ZERO.(state := Ready, level := LEVEL, verb := VERB_LOCK, step := step,
          peerid := if step == 2 * STEP_INCR then Some(id) else None, reply := Reply(rc, element))
  }

  /** An answer to a lock request is built for exactly the three steps, whatever
      was in the message before; it is legal for the daemon, and what the client
      reads is the code, the element if there is one and, in the first answer,
      the daemon's identifier. */
  lemma AnswerArrives(m: Msg, t: ResourceType, step: int32, rc: int32, element: Option<string>, id: string)
    ensures var built := BuildAnswer(m, VERB_LOCK, step, rc, element, id);
            && (built.Some? <==> SentBack(VERB_LOCK, step))
            && (built.Some? ==>
                  var b := built.value;
                  && CheckProtocol(b, false) && BodyOf(b, t).fault == None
                  && ReadMessage(ZERO, OpeningOf(b), BodyOf(b, t).elements) == Answered(step, rc, element, id))
  {
    var built := BuildAnswer(m, VERB_LOCK, step, rc, element, id);
    if built.Some? { RoundTrip(built.value, t); }
  }
}
