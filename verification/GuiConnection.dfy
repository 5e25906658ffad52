/** One keep-alive connection to the operator GUI (gui/app.py, class Handler, over
    the standard library's BaseHTTPRequestHandler).

    What the library and the shared framing rule make of a request line and a header
    block is given by an `Oracle`, what the access gate and the routes make of each
    request by a `Fate`; every choice of the peer and the clock is left open.  The handler's fields and control flow, the
    exceptions included, are the program's. */
module GuiConnection {
  import opened Http
  import opened Wrappers

  const WRITE_BUDGET: real := 10.0
  const IDLE_TIMEOUT: real := 30.0

  datatype LineKind = NoWords | Unreadable | ZeroNine | Versioned
  datatype Verb = GET | HEAD | POST | OtherMethod | Unimplemented

  /** What the header block says; the last three fields are the framing verdict. */
  datatype Head = Head(
    originForm: bool, keepAlive: bool, expects100: bool, length: Option<nat>, framed: bool, mustClose: bool)

  /** The library and the framing rule, as functions of the octets they read. */
  datatype Oracle = Oracle(kind: string -> LineKind, verb: string -> Verb, read: (string, string) -> Head)

  /** The four-field contract of the framing rule, asked with body_expected true for
      POST and for nothing else. */
  ghost predicate FramingContract(o: Oracle) {
    forall line, block :: ContractHolds(o.verb(line), o.read(line, block))
  }

  predicate ContractHolds(verb: Verb, h: Head) {
    && (h.framed <==> h.length.Some?)
    && (!h.framed ==> h.mustClose)
    && (h.framed && verb != POST && h.length.value != 0 ==> h.mustClose)
  }

  // ------------------------------------------------------ reference parser --

  /** A request on the stream: where its request line starts and its head ends, its
      declared body, and whether an empty line closed the head. */
  datatype Message = Message(start: nat, headEnd: nat, length: nat, verb: Verb, head: Head, ended: bool)

  function End(m: Message): nat { m.headEnd + m.length }

  /** After at most one empty line, as section 3.5 of RFC 7230 asks. */
  function Start(input: string, pos: nat): (s: nat)
    requires pos <= |input|
    ensures pos <= s <= |input|
  {
    var e := LineEnd(input, pos);
    if EmptyLine(input[pos..e]) then e else pos
  }

  /** The request at `pos`, if there is one that can be framed. */
  function Frame(o: Oracle, input: string, pos: nat): (m: Option<Message>)
    requires pos <= |input|
    ensures m.Some? ==> pos <= m.value.start < m.value.headEnd <= |input|
    ensures m.Some? && !m.value.ended ==> m.value.headEnd == |input|
  {
    var s := Start(input, pos);
    var e := LineEnd(input, s);
    var line := input[s..e];
    if line == "" || EmptyLine(line) || |line| > 65536 || o.kind(line) != Versioned then None
    else
      match Headers(input, e, 0)
      case TooBig(_) => None
      case Block(end, ended) =>
        var h := o.read(line, input[e..end]);
        if h.framed && h.length.Some? then Some(Message(s, end, h.length.value, o.verb(line), h, ended)) else None
  }

  /** The reference: head, exactly the declared body, head, ... to the first thing
      that is not a request, or a body the stream does not hold. */
  function Messages(o: Oracle, input: string, pos: nat): seq<Message>
    requires pos <= |input|
    decreases |input| - pos
  {
    match Frame(o, input, pos)
    case None => []
    case Some(m) => [m] + if End(m) <= |input| then Messages(o, input, End(m)) else []
  }

  /** The same, counting only heads that an empty line closed. */
  function StrictMessages(o: Oracle, input: string, pos: nat): seq<Message>
    requires pos <= |input|
    decreases |input| - pos
  {
    match Frame(o, input, pos)
    case None => []
    case Some(m) =>
      if !m.ended then []
      else [m] + if End(m) <= |input| then StrictMessages(o, input, End(m)) else []
  }

  lemma {:induction false} MessagesStep(o: Oracle, input: string, pos: nat, m: Message)
    requires pos <= |input| && Frame(o, input, pos) == Some(m)
    ensures Messages(o, input, pos) != [] && Messages(o, input, pos)[0] == m
    ensures Messages(o, input, pos)[1..] == if End(m) <= |input| then Messages(o, input, End(m)) else []
  {
  }

  lemma {:induction false} NothingAtEnd(o: Oracle, input: string)
    ensures Messages(o, input, |input|) == []
  {
  }

  /** Only the last request can have a head cut short by the end of the stream. */
  lemma {:induction false} StrictIsAllButACutHead(o: Oracle, input: string, pos: nat)
    requires pos <= |input|
    ensures var all, strict := Messages(o, input, pos), StrictMessages(o, input, pos);
      && strict <= all && |all| <= |strict| + 1
      && (forall i :: 0 <= i < |all| ==> (all[i].ended <==> i < |strict|))
    decreases |input| - pos
  {
    hide Frame, Headers;
    match Frame(o, input, pos)
    case None =>
    case Some(m) =>
      if End(m) <= |input| {
        if m.ended { StrictIsAllButACutHead(o, input, End(m)); } else { NothingAtEnd(o, input); }
      }
  }

  /** Requests taken from the stream are a prefix of the strict reference exactly
      when the last one's head was closed by an empty line: the header reader takes
      the end of the stream for one. */
  lemma {:induction false} TakenIsStrictIff(o: Oracle, input: string, taken: seq<Message>)
    requires taken <= Messages(o, input, 0)
    ensures taken <= StrictMessages(o, input, 0) <==> taken == [] || taken[|taken| - 1].ended
  {
    StrictIsAllButACutHead(o, input, 0);
    var all, strict := Messages(o, input, 0), StrictMessages(o, input, 0);
    if taken != [] && taken[|taken| - 1].ended {
      assert all[|taken| - 1].ended;
      assert taken == all[..|taken|] == strict[..|taken|];
    }
    if taken != [] && taken <= strict {
      assert taken[|taken| - 1] == all[|taken| - 1];
    }
  }

  /** A request that reaches a route or its refusal: an implemented method on an
      origin-form target, and no promise asked for too large a body. */
  predicate Actable(m: Message) {
    m.head.originForm && m.verb != Unimplemented && !(m.head.expects100 && m.length > 1048576)
  }

  /** And one after which the connection can go on. */
  predicate KeepsOn(m: Message) {
    Actable(m) && m.head.keepAlive && !m.head.mustClose && (m.verb == POST ==> m.length <= 1048576)
  }

  predicate AllKeepOn(ms: seq<Message>) { forall i | 0 <= i < |ms| :: KeepsOn(ms[i]) }

  /** Requests that can be acted on one after the other. */
  predicate Followable(ms: seq<Message>) {
    (forall i | 0 <= i < |ms| :: Actable(ms[i])) && (forall i | 0 <= i < |ms| - 1 :: KeepsOn(ms[i]))
  }

  lemma {:induction false} FollowedBy(ms: seq<Message>, m: Message)
    requires AllKeepOn(ms) && Actable(m)
    ensures Followable(ms + [m]) && (KeepsOn(m) ==> AllKeepOn(ms + [m]))
  {
    forall i | 0 <= i < |ms| ensures Actable((ms + [m])[i]) && KeepsOn((ms + [m])[i]) { assert KeepsOn(ms[i]); }
  }

  ghost predicate CanBeTaken(o: Oracle, input: string, taken: seq<Message>) {
    taken <= Messages(o, input, 0) && Followable(taken)
  }

  // ------------------------------------------------- reference for a turn --

  type ErrorCode = c: nat | 400 <= c < 600 witness 400
  type FinalCode = c: nat | 200 <= c < 600 witness 200

  datatype Gate = Admitted | Locked(code: ErrorCode)

  /** An answer that needs no body, such as the page or a 404, or a route. */
  datatype Target = Direct(code: FinalCode) | Route

  datatype RouteEnd = Answers | Refuses(code: ErrorCode) | Raises

  /** What the gate, the routing table, the JSON parser and the route make of a request. */
  datatype Fate = Fate(gate: Gate, target: Target, parses: bool, end: RouteEnd)

  predicate BodyRead(f: Fate, m: Message, input: string) {
    f.gate == Admitted && f.target == Route && m.verb == POST && m.length <= 1048576 && End(m) <= |input|
  }

  /** The route is called. */
  predicate Called(f: Fate, m: Message, input: string) {
    && f.gate == Admitted && f.target == Route && m.verb != OtherMethod
    && (m.verb == POST ==> m.length <= 1048576 && End(m) <= |input| && f.parses)
  }

  function ReplyCode(f: Fate, m: Message, input: string): (code: nat)
    ensures 200 <= code < 600
  {
    if f.gate.Locked? then f.gate.code
    else if m.verb == OtherMethod then 405
    else if f.target.Direct? then f.target.code
    else if m.verb == POST && m.length > 1048576 then 413
    else if m.verb == POST && (End(m) > |input| || !f.parses) then 400
    else match f.end case Answers => 200 case Refuses(code) => code case Raises => 500
  }

  /** The connection is kept: the peer and the framing rule let it be, the gate let the
      request pass, and a body, if there is one, is off the stream. */
  predicate GoesOn(f: Fate, m: Message, input: string) {
    KeepsOn(m) && f.gate == Admitted && (m.length > 0 ==> BodyRead(f, m, input))
  }

  /** A whole answer, with the 100 Continue before it if there is one. */
  function Full(interim: bool, code: nat, headOnly: bool): seq<Wire> {
    (if interim then [Interim] else []) + [Status(code)] + if headOnly then [] else [Body]
  }

  lemma {:induction false} FullAfter(w: seq<Wire>)
    requires w == [] || w == [Interim]
    ensures forall code: nat, headOnly :: w + Full(false, code, headOnly) == Full(w == [Interim], code, headOnly)
  {
    forall code: nat, headOnly ensures w + Full(false, code, headOnly) == Full(w == [Interim], code, headOnly) {
      assert [] + [Status(code)] == [Status(code)] && [] + Full(false, code, headOnly) == Full(false, code, headOnly);
    }
  }

  lemma {:induction false} FullHasOneFinal(interim: bool, code: nat, headOnly: bool)
    requires code >= 200
    ensures Finals(Full(interim, code, headOnly)) == 1 && Status(code) in Full(interim, code, headOnly)
    ensures forall c: nat :: Status(c) in Full(interim, code, headOnly) ==> c == code
  {
    var w := Full(interim, code, headOnly);
    assert if interim then w[0] == Interim && w[1] == Status(code) else w[0] == Status(code);
    assert Whole(w, headOnly) by { assert interim ==> w[1..] == Full(false, code, headOnly); }
    WholeHasOneFinal(w, headOnly);
  }

  /** One turn of a connection on which nothing fails: no answer, an answer to something
      that does not reach the gate, or a request. */
  datatype Turn = Silence | Refusal(interim: bool, code: ErrorCode, headOnly: bool) | Taken(interim: bool, m: Message)

  /** After the head has been read. */
  function HeadTurn(nine: bool, interim: bool, m: Message): Turn {
    if nine || (m.verb != Unimplemented && !m.head.framed) then Refusal(interim, 400, m.verb == HEAD)
    else if m.verb == Unimplemented then Refusal(interim, 501, false)
    else Taken(interim, m)
  }

  /** The line that starts at `s`, when it is one that the library is asked to parse. */
  function LineTurn(o: Oracle, input: string, s: nat): Turn
    requires s <= |input|
  {
    var e := LineEnd(input, s);
    var line := input[s..e];
    if o.kind(line) == NoWords then Silence
    else if o.kind(line) == Unreadable then Refusal(false, 400, false)
    else
      var verb := o.verb(line);
      match Headers(input, e, 0)
      case TooBig(_) => Refusal(false, 431, verb == HEAD)
      case Block(end, ended) =>
        var h := o.read(line, input[e..end]);
        var m := Message(s, end, if h.length.Some? then h.length.value else 0, verb, h, ended);
        if o.kind(line) == ZeroNine then HeadTurn(true, false, m)
        else if h.expects100 && !h.framed then Refusal(false, 400, verb == HEAD)
        else if h.expects100 && m.length > 1048576 then Refusal(false, 413, verb == HEAD)
        else if !h.originForm then Refusal(h.expects100, 400, verb == HEAD)
        else HeadTurn(false, h.expects100, m)
  }

  /** `before` is the method of the request before. */
  function TurnAt(o: Oracle, input: string, pos: nat, before: Option<Verb>): Turn
    requires pos <= |input|
  {
    var s := Start(input, pos);
    var line := input[s..LineEnd(input, s)];
    if line == "" then Silence
    else if |line| > 65536 then Refusal(false, 414, false)
    else if EmptyLine(line) then Refusal(false, 400, before == Some(HEAD))
    else LineTurn(o, input, s)
  }

  lemma {:induction false} EdgeTurns(o: Oracle, input: string, pos: nat, before: Option<Verb>)
    requires pos <= |input|
    ensures
      var line := input[pos..LineEnd(input, pos)];
      && (line == "" ==> TurnAt(o, input, pos, before) == Silence)
      && (|line| > MAX_LINE ==> TurnAt(o, input, pos, before) == Refusal(false, 414, false))
  {
    hide LineEnd;
  }

  /** A turn takes a request exactly when the reference parser has one there that can be
      acted on. */
  lemma {:induction false} TakenIsFramed(o: Oracle, input: string, pos: nat, before: Option<Verb>)
    requires pos <= |input| && FramingContract(o)
    ensures
      var turn, frame := TurnAt(o, input, pos, before), Frame(o, input, pos);
      && (turn.Taken? <==> frame.Some? && Actable(frame.value))
      && (turn.Taken? ==> turn.m == frame.value && turn.interim == turn.m.head.expects100)
  {
    hide LineEnd, Start, EmptyLine, Headers;
    var s := Start(input, pos);
    var e := LineEnd(input, s);
    match Headers(input, e, 0)
    case TooBig(_) =>
    case Block(end, _) => assert ContractHolds(o.verb(input[s..e]), o.read(input[s..e], input[e..end]));
  }

  /** No answer at all goes out exactly when the stream ends here, or after one empty
      line, or the line here has no words in it. */
  lemma {:induction false} SilentExactly(o: Oracle, input: string, pos: nat, before: Option<Verb>)
    requires pos <= |input|
    ensures TurnAt(o, input, pos, before) == Silence <==>
      var s := Start(input, pos);
      var line := input[s..LineEnd(input, s)];
      line == "" || (!EmptyLine(line) && |line| <= 65536 && o.kind(line) == NoWords)
  {
    hide LineEnd, Start, EmptyLine, Headers;
  }

  /** A blank and an end of line are such a line. */
  lemma {:induction false} BlankLineIsSilent(o: Oracle)
    requires o.kind(" \r\n") == NoWords
    ensures TurnAt(o, " \r\n", 0, None) == Silence
  {
    var s := " \r\n";
    assert LineEndFrom(s, 0, 2) == 3 && LineEndFrom(s, 0, 1) == 3 && LineEnd(s, 0) == 3;
    assert s[0..3] == s && !EmptyLine(s) by { assert s[0] == ' ' && "\r\n"[0] == '\r'; }
    assert Start(s, 0) == 0;
  }

  /** On which streams a request with a cut head can be acted on: exactly those whose
      last request is one, and has only requests before it after which the connection
      goes on.  On all others no run takes anything the strict reference does not. */
  lemma {:induction false} StreamIsStrictIff(o: Oracle, input: string)
    ensures (forall taken :: CanBeTaken(o, input, taken) ==> taken <= StrictMessages(o, input, 0))
      <==> (var all := Messages(o, input, 0); all == [] || all[|all| - 1].ended || !Followable(all))
  {
    hide Messages, StrictMessages, Followable;
    var all := Messages(o, input, 0);
    TakenIsStrictIff(o, input, all);
    if all == [] || all[|all| - 1].ended || !Followable(all) {
      forall taken | CanBeTaken(o, input, taken) ensures taken <= StrictMessages(o, input, 0) {
        TakenIsStrictIff(o, input, taken);
        if taken != all { OnlyTheLastIsCut(o, input, |taken| - 1); }
      }
    } else {
      assert CanBeTaken(o, input, all);
    }
  }

  lemma {:induction false} OnlyTheLastIsCut(o: Oracle, input: string, i: int)
    requires i < |Messages(o, input, 0)| - 1
    ensures i >= 0 ==> Messages(o, input, 0)[i].ended
  {
    StrictIsAllButACutHead(o, input, 0);
  }

  /** Such streams: any request line the library reads, GET / HTTP/1.1 say, that frames
      without a header, and then the end. */
  lemma {:induction false} CutHeadIsARequest(o: Oracle, line: string)
    requires FramingContract(o) && 0 < |line| <= MAX_LINE && '\n' !in line && line != "\r"
    requires o.kind(line) == Versioned && o.read(line, "").framed
    ensures Messages(o, line, 0) != [] && StrictMessages(o, line, 0) == []
    ensures !Messages(o, line, 0)[0].ended
  {
    var n := |line|;
    NoLineBreak(line, 0);
    assert line[0..n] == line && line[n..n] == "";
    assert !EmptyLine(line) by { assert "\r\n"[1] in "\r\n" && "\n"[0] in "\n"; }
    assert Start(line, 0) == 0;
    assert Headers(line, n, 0) == Block(n, false);
    assert ContractHolds(o.verb(line), o.read(line, ""));
  }

  lemma {:induction false} NoLineBreak(line: string, at: nat)
    requires |line| <= MAX_LINE && '\n' !in line && at <= |line|
    ensures LineEndFrom(line, 0, at) == |line|
    decreases |line| - at
  {
    if at < |line| {
      assert line[at] in line;
      NoLineBreak(line, at + 1);
    }
  }

  /** Bodies are never read as requests: a request starts no earlier than the one
      before it, body included, ends. */
  lemma {:induction false} NeverInsideABody(o: Oracle, input: string, pos: nat, i: nat, j: nat)
    requires pos <= |input| && i < j < |Messages(o, input, pos)|
    ensures End(Messages(o, input, pos)[i]) <= Messages(o, input, pos)[j].start
    decreases |input| - pos
  {
    hide Frame, Headers;
    var all := Messages(o, input, pos);
    var m := Frame(o, input, pos).value;
    MessagesStep(o, input, pos, m);
    assert all[j] == all[1..][j - 1];
    if i > 0 {
      NeverInsideABody(o, input, End(m), i - 1, j - 1);
    } else {
      StartsAfter(o, input, End(m), j - 1);
    }
  }

  lemma {:induction false} StartsAfter(o: Oracle, input: string, pos: nat, k: nat)
    requires pos <= |input| && k < |Messages(o, input, pos)|
    ensures pos <= Messages(o, input, pos)[k].start
    decreases |input| - pos
  {
    hide Frame, Headers;
    var all := Messages(o, input, pos);
    var m := Frame(o, input, pos).value;
    MessagesStep(o, input, pos, m);
    if k > 0 {
      assert all[k] == all[1..][k - 1];
      StartsAfter(o, input, End(m), k - 1);
    }
  }

  lemma {:induction false} MessageFacts(o: Oracle, input: string, pos: nat, i: nat)
    requires FramingContract(o) && pos <= |input| && i < |Messages(o, input, pos)|
    ensures var m := Messages(o, input, pos)[i];
      ContractHolds(m.verb, m.head) && m.head.framed && m.head.length == Some(m.length) && m.start <= |input|
    decreases |input| - pos
  {
    var all := Messages(o, input, pos);
    var m := Frame(o, input, pos).value;
    MessagesStep(o, input, pos, m);
    if i > 0 {
      assert all[i] == all[1..][i - 1];
      MessageFacts(o, input, End(m), i - 1);
    } else {
      FrameFacts(o, input, pos);
    }
  }

  lemma {:induction false} FrameFacts(o: Oracle, input: string, pos: nat)
    requires FramingContract(o) && pos <= |input| && Frame(o, input, pos).Some?
    ensures var m := Frame(o, input, pos).value;
      ContractHolds(m.verb, m.head) && m.head.framed && m.head.length == Some(m.length) && m.start <= |input|
  {
    hide LineEnd, Start, EmptyLine, Headers;
    var s := Start(input, pos);
    var e := LineEnd(input, s);
    var end := Headers(input, e, 0).end;
    assert ContractHolds(o.verb(input[s..e]), o.read(input[s..e], input[e..end]));
  }

  lemma {:induction false} LeftOpen(o: Oracle, input: string, fate: Fate, i: nat)
    requires FramingContract(o) && i < |Messages(o, input, 0)| - 1 && KeepsOn(Messages(o, input, 0)[i])
    requires fate.gate == Admitted && (Messages(o, input, 0)[i].length > 0 ==> fate.target == Route)
    ensures GoesOn(fate, Messages(o, input, 0)[i], input)
  {
    hide Messages, Actable;
    MessageFacts(o, input, 0, i);
    MessageFacts(o, input, 0, i + 1);
    NeverInsideABody(o, input, 0, i, i + 1);
  }

  /** What goes out turn by turn: the shape of one exchange each time, and up to the
      last turn a whole one for the request that turn took from the stream, headless
      just for a HEAD.  Only the last turn may have taken no request. */
  ghost predicate AnsweredAs(sent: seq<(seq<Wire>, bool)>, taken: seq<Message>) {
    && |sent| - 1 <= |taken| <= |sent|
    && (forall i :: 0 <= i < |sent| ==> Exchange(sent[i].0))
    && (forall i :: 0 <= i < |sent| - 1 ==> Whole(sent[i].0, sent[i].1) && sent[i].1 == (taken[i].verb == HEAD))
  }

  lemma {:induction false} OneMoreTurn(
    sent: seq<(seq<Wire>, bool)>, taken: seq<Message>, w: seq<Wire>, headOnly: bool, now: seq<Message>)
    requires AnsweredAs(sent, taken) && |taken| == |sent| && Exchange(w)
    requires sent != [] ==>
      var (v, h) := sent[|sent| - 1];
      Whole(v, h) && h == (taken[|taken| - 1].verb == HEAD)
    requires taken <= now && |now| <= |taken| + 1
    ensures AnsweredAs(sent + [(w, headOnly)], now)
  {
    hide Exchange, Whole;
    var all := sent + [(w, headOnly)];
    assert forall i :: 0 <= i < |sent| ==> all[i] == sent[i];
    assert forall i :: 0 <= i < |taken| ==> now[i] == taken[i];
  }

  /** What that says about the whole connection: request i gets at most one final
      response, sent in turn i, and every request but that of the last turn exactly one;
      there is at most one turn more than there are requests; and a failed write, if
      there is one, is the last thing that happens on the connection. */
  lemma {:induction false} ConnectionMeans(sent: seq<(seq<Wire>, bool)>, taken: seq<Message>)
    requires AnsweredAs(sent, taken)
    ensures forall i :: 0 <= i < |taken| ==> i < |sent| && Finals(sent[i].0) <= 1
    ensures forall i :: 0 <= i < |taken| && i < |sent| - 1 ==> Finals(sent[i].0) == 1
    ensures |sent| <= |taken| + 1
    ensures forall i, j :: 0 <= i < |sent| && 0 <= j < |sent[i].0| && sent[i].0[j] == Cut ==>
      i == |sent| - 1 && j == |sent[i].0| - 1
  {
    forall i | 0 <= i < |sent|
      ensures Finals(sent[i].0) <= 1
      ensures i < |sent| - 1 ==> Finals(sent[i].0) == 1
      ensures forall j :: 0 <= j < |sent[i].0| && sent[i].0[j] == Cut ==> i == |sent| - 1 && j == |sent[i].0| - 1
    {
      ExchangeMeans(sent[i].0);
      if i < |sent| - 1 { WholeHasOneFinal(sent[i].0, sent[i].1); }
    }
  }

  // --------------------------------------------------------------- handler --

  /** How a call ended: normally, or with a TimeoutError, another OSError, a GuiError
      or any other exception on its way up. */
  datatype Exit = Normal | TimedOut | Reset | Refused(code: nat) | Failed

  /** A route called for request number `index` with this body. */
  datatype Call = Call(index: nat, body: string)

  class Handler {
    const oracle: Oracle
    const input: string
    /** Nothing fails: reads and writes go through at once, the clock does not run out,
        and nothing raises but a route. */
    const calm: bool
    var pos: nat
    var closeConnection: bool
    var answered: bool
    var nine: bool                 // request_version is HTTP/0.9
    var command: Option<Verb>
    var writeSpent: real
    var dead: bool                 // the connection has failed in the kernel: nothing more goes out
    ghost var wire: seq<Wire>      // what has gone out for the current request
    ghost var taken: seq<Message>  // requests this connection has acted on
    ghost var fates: seq<Fate>     // what was made of each of them
    ghost var calls: seq<Call>

    constructor (oracle: Oracle, input: string, calm: bool)
      ensures this.oracle == oracle && this.input == input && this.calm == calm
      ensures pos == 0 && wire == [] && taken == [] && fates == [] && calls == [] && writeSpent == 0.0 && !dead
    {
      this.oracle, this.input, this.calm := oracle, input, calm;
      pos, closeConnection, answered, nine, command, writeSpent := 0, true, false, true, None, 0.0;
      dead, wire, taken, fates, calls := false, [], [], [], [];
    }

    /** No octet can go out any more. */
    predicate Spent() reads this`writeSpent, this`dead { writeSpent == WRITE_BUDGET || dead }

    /** What has gone out, and when more may: nothing follows a failed write. */
    ghost predicate WireOk() reads this`wire, this`writeSpent, this`dead, this`answered, this`command {
      && 0.0 <= writeSpent <= WRITE_BUDGET && (calm ==> writeSpent == 0.0 && !dead)
      && Exchange(wire)
      && (if answered then BodyAsAsked(wire, command == Some(HEAD), Spent()) else Unanswered(wire))
    }

    /** A response that nothing cut short has its body, but for a HEAD. */
    static ghost predicate BodyAsAsked(w: seq<Wire>, headOnly: bool, spent: bool) {
      w != [] ==>
        (w[|w| - 1].Status? ==> headOnly || spent) && (w[|w| - 1] == Body ==> !headOnly)
    }

    /** What goes out before a request line has been read, when nothing fails: a 408 for
        the wait, a 400 for a second empty line, or the 500 in their place, with a body
        just if it is not headOnly. */
    static ghost predicate EarlyAnswer(w: seq<Wire>, headOnly: bool, spent: bool) {
      w != [] && Cut !in w && !spent ==>
        && (w[0] == Status(408) || w[0] == Status(400) || w[0] == Status(500))
        && w[1..] == (if headOnly then [] else [Body])
    }

    static lemma {:induction false} NothingEarly(headOnly: bool, spent: bool)
      ensures EarlyAnswer([], headOnly, spent)
    {
    }

    static lemma {:induction false} EarlyAnswerIs(w: seq<Wire>, code: nat, headOnly: bool, spent: bool)
      requires Attempt([], w, code) && BodyAsAsked(w, headOnly, spent) && (code == 408 || code == 400 || code == 500)
      ensures EarlyAnswer(w, headOnly, spent)
    {
      if w != [] && Cut !in w && !spent {
        assert w == [] + [Status(code)] || w == [] + [Status(code), Body];
      }
    }

    /** What one attempt at an answer puts on the wire, whole or cut short. */
    static ghost predicate Attempt(was: seq<Wire>, w: seq<Wire>, code: nat) {
      || w == was || w == was + [Cut] || w == was + [Status(code)]
      || w == was + [Status(code), Body] || w == was + [Status(code), Cut]
    }

    static ghost predicate Unanswered(w: seq<Wire>) {
      w == [] || w == [Interim] || w == [Cut]
    }

    /** An answer may still be tried: nothing has failed, or nothing can go out any more
        and the attempt will fail before it sends an octet. */
    ghost predicate MayTry() reads this`wire, this`writeSpent, this`dead, this`answered, this`command {
      WireOk() && !answered && (wire == [Cut] ==> Spent())
    }

    /** What has been read, and acted on. */
    ghost predicate StreamOk() reads this`pos, this`taken, this`fates, this`calls {
      && FramingContract(oracle) && pos <= |input| && |fates| == |taken|
      && CanBeTaken(oracle, input, taken)
      && (forall i, j :: 0 <= i < j < |calls| ==> calls[i].index < calls[j].index)
      && (forall i :: 0 <= i < |calls| ==> CallOk(calls[i]))
    }

    /** The request is one whose route is called, and the body is that request's. */
    ghost predicate CallOk(c: Call) reads this`taken, this`fates {
      && c.index < |taken| && c.index < |fates| && Called(fates[c.index], taken[c.index], input)
      && (taken[c.index].verb == POST ==>
            End(taken[c.index]) <= |input| && c.body == input[taken[c.index].headEnd..End(taken[c.index])])
      && (taken[c.index].verb != POST ==> c.body == "")
    }

    /** The stream stands where the reference parser would look next. */
    ghost predicate AtBoundaryOf(ts: seq<Message>, at: nat)
      requires at <= |input|
    {
      Messages(oracle, input, 0) == ts + Messages(oracle, input, at)
    }

    /** What a turn on a connection where nothing fails comes to. */
    ghost predicate TurnDone(turn: Turn, fate: Fate, was: seq<Message>, before: seq<Call>)
      reads this`wire, this`closeConnection, this`taken, this`calls
    {
      match turn
      case Silence => wire == [] && closeConnection && taken == was && calls == before
      case Refusal(interim, code, headOnly) =>
        wire == Full(interim, code, headOnly) && closeConnection && taken == was && calls == before
      case Taken(interim, m) =>
        && taken == was + [m] && wire == Full(interim, ReplyCode(fate, m, input), m.verb == HEAD)
        && closeConnection == !GoesOn(fate, m, input)
        && |calls| == |before| + (if Called(fate, m, input) then 1 else 0) && before <= calls
        && (Called(fate, m, input) ==> calls[|before|].index == |was|)
    }

    // ---- the two ends of the socket

    /** _BudgetedWriter.write: the window is what is left of the budget, an exhausted
        budget fails before anything is sent, and the time is charged either way.  A
        send ends within its window; it times out at the end of it, or earlier where the
        kernel has given the connection up, and then no later send gets anything out. */
    method Write(w: Wire) returns (exit: Exit)
      requires 0.0 <= writeSpent <= WRITE_BUDGET && (calm ==> writeSpent == 0.0 && !dead)
      modifies this`wire, this`writeSpent, this`dead
      ensures calm ==> exit == Normal && writeSpent == 0.0 && !dead
      ensures old(writeSpent) <= writeSpent <= 10.0 && (old(dead) ==> dead)
      ensures old(Spent()) ==> exit != Normal && wire == old(wire)
      ensures exit == Normal ==> wire == old(wire) + [w]
      ensures exit != Normal ==> Spent() && (wire == old(wire) || wire == old(wire) + [Cut])
      ensures exit == Normal || exit == TimedOut || exit == Reset
    {
      var left := WRITE_BUDGET - writeSpent;
      if left <= 0.0 { return TimedOut; }
      if dead { return Reset; }
      var window := if IDLE_TIMEOUT < left then IDLE_TIMEOUT else left;
      var took: real, ok: bool, late: bool := *, *, *;
      if took < 0.0 || took > window { took := window; }
      if calm { took, ok := 0.0, true; }
      if ok {
        wire := wire + [w];
        exit := Normal;
      } else {
        wire := wire + [Cut];
        exit := if late then TimedOut else Reset;
        dead := !late || took < window;
      }
      writeSpent := writeSpent + took;
    }

    /** One readline under the request deadline. */
    method ReadLine() returns (r: Got)
      requires pos <= |input|
      modifies this`pos
      ensures old(pos) <= pos <= |input|
      ensures r.Got? ==> pos == LineEnd(input, old(pos)) && r.octets == input[old(pos)..pos]
      ensures calm ==> r.Got?
    {
      var ok: bool, late: bool := *, *;
      if !ok && !calm { return if late then ReadTimedOut else ReadReset; }
      var e := LineEnd(input, pos);
      r := Got(input[pos..e]);
      pos := e;
    }

    /** rfile.read(n): short only when the stream ends. */
    method ReadOctets(n: nat) returns (r: Got)
      requires pos <= |input|
      modifies this`pos
      ensures old(pos) <= pos <= |input|
      ensures r.Got? ==> r.octets == input[old(pos)..pos] && (|r.octets| == n || (|r.octets| < n && pos == |input|))
      ensures calm ==> r.Got?
    {
      var ok: bool, late: bool := *, *;
      if !ok && !calm { return if late then ReadTimedOut else ReadReset; }
      var e := if n <= |input| - pos then pos + n else |input|;
      r := Got(input[pos..e]);
      pos := e;
    }

    // ---- answering

    /** _send.  Composing the head may raise; a failed write ends the connection. */
    method Send(code: nat) returns (exit: Exit)
      requires MayTry() && !nine && code >= 200
      modifies this`wire, this`writeSpent, this`dead, this`answered, this`closeConnection
      ensures WireOk() && answered && (exit == Normal || exit == Failed)
      ensures Attempt(old(wire), wire, code) && (exit == Failed ==> wire == old(wire))
      ensures old(closeConnection) ==> closeConnection
      ensures calm ==>
        && exit == Normal && wire == old(wire) + Full(false, code, command == Some(HEAD))
        && closeConnection == old(closeConnection)
      ensures exit == Normal && !closeConnection ==> Whole(wire, command == Some(HEAD))
    {
      answered := true;
      var raises: bool := *;
      if raises && !calm { return Failed; }
      var write := Write(Status(code));
      if write == Normal && command != Some(HEAD) {
        write := Write(Body);
      }
      if write != Normal { closeConnection := true; }
      exit := Normal;
    }

    /** _json and _error: composing the document may raise, and then nothing is sent. */
    method Json(code: nat) returns (exit: Exit)
      requires MayTry() && !nine && code >= 200
      modifies this`wire, this`writeSpent, this`dead, this`answered, this`closeConnection
      ensures WireOk() && (exit == Normal || exit == Failed)
      ensures exit == Normal ==> answered
      ensures answered || MayTry()
      ensures Attempt(old(wire), wire, code) && (exit == Failed ==> wire == old(wire))
      ensures old(closeConnection) ==> closeConnection
      ensures calm ==>
        && exit == Normal && wire == old(wire) + Full(false, code, command == Some(HEAD))
        && closeConnection == old(closeConnection)
      ensures exit == Normal && !closeConnection ==> Whole(wire, command == Some(HEAD))
    {
      var raises: bool := *;
      if raises && !calm { return Failed; }
      exit := Send(code);
    }

    /** _refuse_transport: close, be HTTP/1.1, answer. */
    method RefuseTransport(code: nat) returns (exit: Exit)
      requires MayTry() && code >= 200
      modifies this`wire, this`writeSpent, this`dead, this`answered, this`closeConnection, this`nine
      ensures WireOk() && closeConnection && !nine && (answered || MayTry())
      ensures (exit == Normal || exit == Failed) && (exit == Normal ==> answered)
      ensures Attempt(old(wire), wire, code) && (exit == Failed ==> wire == old(wire))
      ensures calm ==> exit == Normal && wire == old(wire) + Full(false, code, command == Some(HEAD))
    {
      closeConnection := true;
      nine := false;
      exit := Json(code);
    }

    /** send_error swallows whatever goes wrong while answering. */
    method SendError(code: nat)
      requires MayTry() && code >= 200
      modifies this`wire, this`writeSpent, this`dead, this`answered, this`closeConnection, this`nine
      ensures WireOk() && closeConnection && !nine && (answered || MayTry())
      ensures calm ==> answered && wire == old(wire) + Full(false, code, command == Some(HEAD))
    {
      var exit := RefuseTransport(code);
    }

    // ---- reading one request

    method ReadHeaders() returns (b: Option<Block>, exit: Exit)
      requires pos <= |input|
      modifies this`pos
      ensures old(pos) <= pos <= |input|
      ensures exit == Normal <==> b.Some?
      ensures !exit.Refused? && exit != Failed
      ensures calm ==> b.Some?
      ensures b.Some? ==> b.value == Headers(input, old(pos), 0)
      ensures b.Some? && b.value.Block? ==> pos == b.value.end
    {
      hide LineEnd;
      var n := 0;
      while true
        invariant old(pos) <= pos <= |input| && n <= MAX_HEADERS
        invariant Headers(input, pos, n) == Headers(input, old(pos), 0)
        decreases MAX_HEADERS - n
      {
        var r := ReadLine();
        if r.ReadTimedOut? { return None, TimedOut; }
        if r.ReadReset? { return None, Reset; }
        var line := r.octets;
        if |line| > MAX_LINE || n == MAX_HEADERS { return Some(TooBig(pos)), Normal; }
        if line == "\r\n" || line == "\n" { return Some(Block(pos, true)), Normal; }
        if line == "" { return Some(Block(pos, false)), Normal; }
        n := n + 1;
      }
    }

    /** handle_expect_100: the framing rule first, the promise to read after it. */
    method HandleExpect100(head: Head) returns (go: bool, exit: Exit)
      requires MayTry() && wire == [] && !nine
      modifies this`wire, this`writeSpent, this`dead, this`answered, this`closeConnection
      ensures go ==> exit == Normal && MayTry() && wire == [Interim] && closeConnection == old(closeConnection)
      ensures go ==> head.framed && (head.length.Some? ==> head.length.value <= MAX_BODY)
      ensures !go && (exit == Normal || exit == Failed) ==> closeConnection && (answered || MayTry())
      ensures exit == TimedOut ==> MayTry()
      ensures WireOk() && !exit.Refused?
      ensures calm ==> exit == Normal && go == (head.framed && (head.length.Some? ==> head.length.value <= 1048576))
      ensures calm && !go ==> wire == Full(false, if head.framed then 413 else 400, command == Some(HEAD))
    {
      if !head.framed {
        closeConnection := true;
        exit := Json(400);
        return false, exit;
      }
      if head.length.Some? && head.length.value > MAX_BODY {
        closeConnection := true;
        exit := Json(413);
        return false, exit;
      }
      exit := Write(Interim);
      go := exit == Normal;
    }

    /** The request that `line`, read from `at`, begins: what the reference parser
        makes of it once the block behind it has been read. */
    ghost predicate IsFrame(at: nat, line: string, block: Block, head: Head) reads this`pos {
      && at <= |input| && line == input[at..LineEnd(input, at)]
      && line != "" && !EmptyLine(line) && |line| <= MAX_LINE
      && Headers(input, LineEnd(input, at), 0) == block && block.Block? && pos == block.end
      && head == oracle.read(line, input[LineEnd(input, at)..block.end])
    }

    static predicate WithinPromise(h: Head) { h.expects100 && h.length.Some? ==> h.length.value <= MAX_BODY }

    /** What the library's parser leaves, where nothing fails: the answer to a line that
        goes no further, or the head and the 100 Continue it asked for. */
    ghost predicate ParsedAs(go: bool, at: nat, head: Option<Head>, block: Block) reads this {
      at <= |input| &&
      var turn := LineTurn(oracle, input, at);
      if go && head.Some? then
        && block.Block?
        && var m := MessageOf(at, head.value, block);
           if !nine && !head.value.originForm then turn == Refusal(wire == [Interim], 400, m.verb == HEAD)
           else turn == HeadTurn(nine, wire == [Interim], m)
      else if turn.Refusal? then closeConnection && wire == Full(turn.interim, turn.code, turn.headOnly)
      else turn == Silence && closeConnection && wire == []
    }

    /** BaseHTTPRequestHandler.parse_request. */
    method BaseParse(line: string, ghost at: nat) returns (go: bool, exit: Exit, head: Option<Head>, ghost block: Block)
      requires pos <= |input| && at <= |input| && pos == LineEnd(input, at) && line == input[at..pos]
      requires line != "" && !EmptyLine(line) && |line| <= MAX_LINE && MayTry() && wire == []
      modifies this`pos, this`wire, this`writeSpent, this`dead, this`answered, this`closeConnection,
        this`nine, this`command
      ensures old(pos) <= pos <= |input| && WireOk()
      ensures go ==> exit == Normal && head.Some? && IsFrame(at, line, block, head.value)
      ensures go ==> command == Some(oracle.verb(line)) && closeConnection == !head.value.keepAlive
      ensures go ==> MayTry() && (wire == [] || wire == [Interim])
      ensures go ==> (if nine then oracle.kind(line) == ZeroNine else oracle.kind(line) == Versioned)
      ensures go && !nine ==> WithinPromise(head.value)
      ensures !go && (exit == Normal || exit == Failed) ==> closeConnection && (answered || MayTry())
      ensures exit == TimedOut ==> MayTry()
      ensures !exit.Refused? && (exit == Failed ==> !nine)
      ensures calm ==> exit == Normal && ParsedAs(go, at, head, block)
    {
      hide Headers, LineEnd, Exchange, Attempt, BodyAsAsked, Full, HeadTurn, EmptyLine;
      block := TooBig(0);
      command, nine, closeConnection := None, true, true;
      var kind := oracle.kind(line);
      if kind == NoWords { return false, Normal, None, block; }
      if kind == Unreadable {
        SendError(400);
        return false, Normal, None, block;
      }
      command := Some(oracle.verb(line));
      if kind == Versioned { nine := false; }
      var from := pos;
      var b, e := ReadHeaders();
      if b.None? { return false, e, None, block; }
      block := b.value;
      if b.value.TooBig? {
        SendError(431);
        return false, Normal, None, block;
      }
      var h := oracle.read(line, input[from..pos]);
      closeConnection := !h.keepAlive;
      if h.expects100 && kind == Versioned {
        go, exit := HandleExpect100(h);
        if !go { return false, exit, None, block; }
      }
      return true, Normal, Some(h), block;
    }

    /** The same after this server's own checks. */
    ghost predicate TurnBegun(go: bool, turn: Turn, from: nat, head: Option<Head>, block: Block) reads this {
      from <= |input| &&
      if go && head.Some? then
        && block.Block?
        && turn == HeadTurn(nine, wire == [Interim], MessageOf(Start(input, from), head.value, block))
      else if turn.Refusal? then closeConnection && wire == Full(turn.interim, turn.code, turn.headOnly)
      else turn == Silence && closeConnection && wire == []
    }

    function MessageOf(s: nat, head: Head, block: Block): Message
      requires s <= |input| && block.Block?
    {
      var length := if head.length.Some? then head.length.value else 0;
      Message(s, block.end, length, oracle.verb(input[s..LineEnd(input, s)]), head, block.ended)
    }

    /** parse_request, the override: one empty line is forgiven, the second is not;
        only origin-form targets go on. */
    method ParseRequest(first: string, ghost from: nat)
      returns (go: bool, exit: Exit, head: Option<Head>, ghost line: string, ghost block: Block, ghost unread: bool)
      requires pos <= |input| && from <= |input| && pos == LineEnd(input, from) && first == input[from..pos]
      requires first != "" && |first| <= MAX_LINE && MayTry() && wire == []
      modifies this`pos, this`wire, this`writeSpent, this`dead, this`answered, this`closeConnection,
        this`nine, this`command
      ensures old(pos) <= pos <= |input| && WireOk()
      ensures go ==> exit == Normal && head.Some? && IsFrame(Start(input, from), line, block, head.value)
      ensures go ==> command == Some(oracle.verb(line)) && closeConnection == !head.value.keepAlive
      ensures go ==> MayTry() && (wire == [] || wire == [Interim])
      ensures go ==> (if nine then oracle.kind(line) == ZeroNine else oracle.kind(line) == Versioned)
      ensures go && !nine ==> WithinPromise(head.value) && head.value.originForm
      ensures !go && (exit == Normal || exit == Failed) ==> closeConnection && (answered || MayTry())
      ensures exit == TimedOut ==> MayTry()
      ensures !exit.Refused? && (exit == Failed ==> !nine)
      ensures unread ==>
        && !go && command == old(command) && Attempt([], wire, 400)
        && (exit == Failed || !answered ==> wire == [])
      ensures calm ==> exit == Normal && TurnBegun(go, TurnAt(oracle, input, from, old(command)), from, head, block)
    {
      hide Headers, LineEnd, Exchange, Full, HeadTurn, LineTurn;
      FullAfter(wire);
      var l := first;
      line, block, head, unread := first, TooBig(0), None, false;
      if first == "\r\n" || first == "\n" || first == "\r" {
        var r := ReadLine();
        if r.ReadTimedOut? { return false, TimedOut, None, line, block, true; }
        if r.ReadReset? { return false, Reset, None, line, block, true; }
        l := r.octets;
        line := l;
        if |l| > MAX_LINE {
          nine, command := false, None;
          SendError(414);
          return false, Normal, None, line, block, false;
        }
        if l == "" {
          closeConnection := true;
          return false, Normal, None, line, block, true;
        }
        if l == "\r\n" || l == "\n" || l == "\r" {
          exit := RefuseTransport(400);
          return false, exit, None, line, block, true;
        }
      }
      go, exit, head, block := BaseParse(l, Start(input, from));
      if !go || nine { return; }
      if !head.value.originForm {
        FullAfter(wire);
        exit := RefuseTransport(400);
        return false, exit, None, line, block, false;
      }
    }

    /** _read_body_bytes; None is the GuiError it raises, with its code. */
    method ReadBody(length: Option<nat>) returns (raw: Option<string>, code: nat)
      requires pos <= |input|
      modifies this`pos
      ensures old(pos) <= pos <= |input|
      ensures raw.Some? ==>
        length.Some? && |raw.value| == length.value == pos - old(pos) && raw.value == input[old(pos)..pos]
      ensures raw.Some? ==> length.value <= MAX_BODY
      ensures raw.None? ==> length.None? || length.value > 0
      ensures code == if length.Some? && length.value > 1048576 then 413 else 400
      ensures calm && length.Some? ==> (raw.Some? <==> length.value <= 1048576 && old(pos) + length.value <= |input|)
    {
      raw, code := None, 400;
      if length.None? { return; }
      if length.value > MAX_BODY { return None, 413; }
      if length.value == 0 { return Some(""), code; }
      var r := ReadOctets(length.value);
      if !r.Got? || |r.octets| != length.value { return; }
      raw := Some(r.octets);
    }

    /** The request being handled is the last one taken, and its head has been read. */
    ghost predicate Handling(m: Message, fate: Fate) reads this`taken, this`fates {
      && taken != [] && taken[|taken| - 1] == m && |fates| == |taken| && fates[|fates| - 1] == fate
      && m.head.framed && ContractHolds(m.verb, m.head) && m.length == m.head.length.value
    }

    /** Read a POST's body whole; only then is the connection put back. */
    method TakeBody(head: Head, peerKeepsAlive: bool, ghost m: Message, ghost fate: Fate)
      returns (raw: Option<string>, code: nat)
      requires pos <= |input| && pos == m.headEnd && head == m.head && Handling(m, fate) && m.verb == POST
      requires head.mustClose || head.length.value > 0 ==> closeConnection
      modifies this`pos, this`closeConnection
      ensures m.headEnd <= pos <= |input|
      ensures raw.Some? ==> pos == End(m) && raw.value == input[m.headEnd..End(m)]
      ensures !closeConnection ==> pos == End(m) && !head.mustClose
      ensures old(closeConnection) && !closeConnection ==> peerKeepsAlive
      ensures !closeConnection ==> m.length <= MAX_BODY
      ensures raw.Some? ==> m.length <= MAX_BODY
      ensures code == if m.length > 1048576 then 413 else 400
      ensures calm ==> (raw.Some? <==> m.length <= 1048576 && End(m) <= |input|)
      ensures closeConnection == (old(closeConnection) && !(raw.Some? && peerKeepsAlive && !head.mustClose))
    {
      raw, code := ReadBody(head.length);
      if raw.Some? && peerKeepsAlive && !head.mustClose { closeConnection := false; }
    }

    ghost method RecordCall(m: Message, fate: Fate, body: string)
      requires StreamOk() && Handling(m, fate) && Called(fate, m, input)
      requires forall i :: 0 <= i < |calls| ==> calls[i].index < |taken| - 1
      requires if m.verb == POST then pos == End(m) && body == input[m.headEnd..End(m)] else body == ""
      modifies this`calls
      ensures StreamOk() && calls == old(calls) + [Call(|taken| - 1, body)]
    {
      hide Messages, Frame, Start, Headers, LineEnd, Exchange, Answer, Whole, EmptyLine;
      calls := calls + [Call(|taken| - 1, body)];
    }

    /** The try block of _handle: the gate, whose refusal closes the connection; other
        methods; what needs no body; and a route, behind the body it is called with. */
    method Dispatch(verb: Verb, head: Head, fate: Fate, peerKeepsAlive: bool, ghost m: Message)
      returns (exit: Exit, drained: bool)
      requires StreamOk() && pos == m.headEnd && verb == m.verb && head == m.head && Handling(m, fate)
      requires MayTry() && !nine && command == Some(verb)
      requires forall i :: 0 <= i < |calls| ==> calls[i].index < |taken| - 1
      requires head.mustClose || head.length.value > 0 ==> closeConnection
      requires !closeConnection ==> peerKeepsAlive
      modifies this`pos, this`wire, this`writeSpent, this`dead, this`answered, this`closeConnection, this`calls
      ensures StreamOk() && m.headEnd <= pos && WireOk() && (answered || MayTry())
      ensures exit == Normal ==> answered
      ensures exit.Refused? ==> MayTry() && exit.code >= 200
      ensures exit == Normal || exit.Refused? || exit == Failed
      ensures !closeConnection ==>
        && pos == End(m) && !head.mustClose && peerKeepsAlive && (verb == POST ==> m.length <= MAX_BODY)
      ensures exit == Normal && !closeConnection ==> Whole(wire, command == Some(HEAD))
      ensures |calls| <= |old(calls)| + 1
      ensures drained ==> pos == End(m)
      ensures fate.gate.Locked? ==> closeConnection
      ensures calm ==> (drained <==> BodyRead(fate, m, input))
      ensures calm && fate.gate == Admitted ==>
        closeConnection == (old(closeConnection) && !(drained && peerKeepsAlive && !head.mustClose))
      ensures calm ==> DispatchedAs(exit, fate, m, old(wire), old(calls))
    {
      hide Messages, Frame, Start, Headers, LineEnd, Exchange, Answer, Whole, EmptyLine, Attempt, BodyAsAsked, Full,
        CanBeTaken, CallOk, FramingContract, ContractHolds;
      drained := false;
      if fate.gate.Locked? {
        closeConnection := true;
        exit := Json(fate.gate.code);
        return;
      }
      if verb == OtherMethod {
        exit := Json(405);
        return;
      }
      if fate.target.Direct? {
        exit := Json(fate.target.code);
        return;
      }
      exit, drained := CallRoute(verb, head, fate, peerKeepsAlive, m);
    }

    /** The route, behind the body it is called with. */
    method CallRoute(verb: Verb, head: Head, fate: Fate, peerKeepsAlive: bool, ghost m: Message)
      returns (exit: Exit, drained: bool)
      requires StreamOk() && pos == m.headEnd && verb == m.verb && head == m.head && Handling(m, fate)
      requires MayTry() && !nine && command == Some(verb) && fate.gate == Admitted && fate.target == Route
      requires forall i :: 0 <= i < |calls| ==> calls[i].index < |taken| - 1
      requires (head.mustClose || head.length.value > 0 ==> closeConnection) && (!closeConnection ==> peerKeepsAlive)
      requires verb != OtherMethod
      modifies this`pos, this`wire, this`writeSpent, this`dead, this`answered, this`closeConnection, this`calls
      ensures StreamOk() && m.headEnd <= pos && WireOk() && (answered || MayTry())
      ensures exit == Normal ==> answered
      ensures exit.Refused? ==> MayTry() && exit.code >= 200
      ensures exit == Normal || exit.Refused? || exit == Failed
      ensures !closeConnection ==>
        && pos == End(m) && !head.mustClose && peerKeepsAlive && (verb == POST ==> m.length <= MAX_BODY)
      ensures exit == Normal && !closeConnection ==> Whole(wire, command == Some(HEAD))
      ensures |calls| <= |old(calls)| + 1
      ensures drained ==> pos == End(m)
      ensures calm ==> (drained <==> BodyRead(fate, m, input))
      ensures calm ==> closeConnection == (old(closeConnection) && !(drained && peerKeepsAlive && !head.mustClose))
      ensures calm ==> DispatchedAs(exit, fate, m, old(wire), old(calls))
    {
      hide Messages, Frame, Start, Headers, LineEnd, Exchange, Answer, Whole, EmptyLine, Attempt, BodyAsAsked, Full,
        CanBeTaken, CallOk, FramingContract, ContractHolds;
      drained := false;
      var body := "";
      if verb == POST {
        var raw, code := TakeBody(head, peerKeepsAlive, m, fate);
        if raw.None? { return Refused(code), false; }
        drained := true;
        if !fate.parses { return Refused(400), drained; }
        body := raw.value;
      }
      RecordCall(m, fate, body);
      match fate.end {
        case Answers => exit := Json(200);
        case Refuses(code) => exit := Refused(code);
        case Raises => exit := Failed;
      }
    }

    /** What is out, or yet to be sent, when nothing fails, and the call made. */
    ghost predicate DispatchedAs(exit: Exit, fate: Fate, m: Message, was: seq<Wire>, before: seq<Call>)
      reads this`wire, this`calls, this`taken, this`answered
    {
      && (match exit
          case Normal => wire == was + Full(false, ReplyCode(fate, m, input), m.verb == HEAD)
          case Refused(code) => code == ReplyCode(fate, m, input) && wire == was
          case Failed => ReplyCode(fate, m, input) == 500 && wire == was && !answered
          case _ => false)
      && before <= calls && |calls| == |before| + (if Called(fate, m, input) then 1 else 0)
      && (Called(fate, m, input) ==> calls[|before|].index == |taken| - 1)
    }

    /** The except clauses of _handle. */
    method Conclude(outcome: Exit) returns (exit: Exit)
      requires WireOk() && !nine && (outcome == Normal || outcome.Refused? || outcome == Failed)
      requires (outcome == Normal ==> answered) && (outcome.Refused? ==> MayTry() && outcome.code >= 200)
      requires answered || MayTry()
      requires outcome == Normal && !closeConnection ==> Whole(wire, command == Some(HEAD))
      modifies this`wire, this`writeSpent, this`dead, this`answered, this`closeConnection
      ensures WireOk() && (answered || MayTry()) && (exit == Normal || exit == Failed)
      ensures (exit == Normal ==> answered) && (old(closeConnection) ==> closeConnection)
      ensures exit == Normal && !closeConnection ==> Whole(wire, command == Some(HEAD))
      ensures calm && (outcome == Failed ==> !old(answered)) ==>
        && exit == Normal && closeConnection == old(closeConnection)
        && wire == old(wire) + match outcome {
                     case Refused(code) => Full(false, code, command == Some(HEAD))
                     case Failed => Full(false, 500, command == Some(HEAD))
                     case _ => []
                   }
    {
      hide Exchange, Whole, Attempt, BodyAsAsked;
      if outcome.Refused? {
        exit := Json(outcome.code);
      } else if outcome == Failed && !answered {
        exit := Json(500);
      } else {
        if outcome == Failed { closeConnection := true; }
        exit := Normal;
      }
    }

    /** _handle: version, framing verdict, then dispatch.  `at` is where the reference
        parser stands. */
    method Handle(verb: Verb, head: Head, fate: Fate, ghost at: nat, ghost line: string, ghost block: Block)
      returns (exit: Exit)
      requires StreamOk() && MayTry() && (wire == [] || wire == [Interim])
      requires at <= |input| && AtBoundaryOf(taken, at)
      requires IsFrame(Start(input, at), line, block, head) && verb == oracle.verb(line) && command == Some(verb)
      requires if nine then oracle.kind(line) == ZeroNine else oracle.kind(line) == Versioned
      requires !nine ==> head.originForm && verb != Unimplemented && WithinPromise(head)
      requires closeConnection == !head.keepAlive && AllKeepOn(taken)
      modifies this`pos, this`wire, this`writeSpent, this`dead, this`answered, this`closeConnection,
        this`nine, this`calls, this`taken, this`fates
      ensures StreamOk() && old(pos) <= pos && WireOk() && (answered || MayTry()) && !nine
      ensures exit == Normal || exit == Failed
      ensures exit == Normal ==> answered
      ensures old(taken) <= taken && |taken| <= |old(taken)| + 1
      ensures fates == old(fates) + if taken == old(taken) then [] else [fate]
      ensures exit == Normal && !closeConnection ==>
        && AtBoundaryOf(taken, pos) && Whole(wire, command == Some(HEAD))
        && |taken| == |old(taken)| + 1 && command == Some(taken[|taken| - 1].verb) && AllKeepOn(taken)
      ensures calm ==>
        && exit == Normal
        && var turn := HeadTurn(old(nine), old(wire) == [Interim], MessageOf(Start(input, at), head, block));
           TurnDone(turn, fate, old(taken), old(calls))
    {
      hide AllKeepOn, Followable, CanBeTaken, EarlyAnswer, Full, ReplyCode, Called, GoesOn, FramingContract, CallOk,
        HeadTurn, IsFrame, MessageOf, ContractHolds, KeepsOn, Actable;
      hide Messages, Frame, Start, Headers, LineEnd, Exchange, Answer, Whole, EmptyLine, Attempt, BodyAsAsked;
      FullAfter(wire);
      HeadTurnIs(nine, wire == [Interim], verb, head, at, line, block);
      var peerKeepsAlive := !closeConnection;
      if nine {
        exit := RefuseTransport(400);
        return;
      }
      var early: bool := *;
      if early && !calm { return Failed; }
      if head.mustClose || (head.length.Some? && head.length.value > 0) { closeConnection := true; }
      if !head.framed {
        exit := Json(400);
        return;
      }
      exit := TakeAndAct(verb, head, fate, peerKeepsAlive, at, line, block);
    }

    /** From here on the request has been taken from the stream. */
    method TakeAndAct(verb: Verb, head: Head, fate: Fate, peerKeepsAlive: bool, ghost at: nat, ghost line: string,
      ghost block: Block) returns (exit: Exit)
      requires StreamOk() && MayTry() && (wire == [] || wire == [Interim]) && !nine && command == Some(verb)
      requires at <= |input| && AtBoundaryOf(taken, at) && AllKeepOn(taken)
      requires IsFrame(Start(input, at), line, block, head) && verb == oracle.verb(line)
      requires oracle.kind(line) == Versioned && head.framed && head.length.Some?
      requires head.originForm && verb != Unimplemented && WithinPromise(head)
      requires peerKeepsAlive == head.keepAlive
      requires closeConnection == (!peerKeepsAlive || head.mustClose || head.length.value > 0)
      modifies this`pos, this`wire, this`writeSpent, this`dead, this`answered, this`closeConnection,
        this`calls, this`taken, this`fates
      ensures StreamOk() && old(pos) <= pos && WireOk() && (answered || MayTry())
      ensures (exit == Normal || exit == Failed) && (exit == Normal ==> answered)
      ensures |taken| == |old(taken)| + 1 && old(taken) <= taken && fates == old(fates) + [fate]
      ensures exit == Normal && !closeConnection ==>
        && AtBoundaryOf(taken, pos) && Whole(wire, command == Some(HEAD))
        && command == Some(taken[|taken| - 1].verb) && AllKeepOn(taken)
      ensures calm ==> exit == Normal
      ensures calm ==>
        var turn := Taken(old(wire) == [Interim], MessageOf(Start(input, at), head, block));
        TurnDone(turn, fate, old(taken), old(calls))
    {
      hide AllKeepOn, Followable, CanBeTaken, EarlyAnswer, Full, ReplyCode, Called, GoesOn, FramingContract, CallOk,
        IsFrame, MessageOf, ContractHolds, KeepsOn, Actable;
      hide Messages, Frame, Start, Headers, LineEnd, Exchange, Answer, Whole, EmptyLine, Attempt, BodyAsAsked;
      FullAfter(wire);
      ghost var was := taken;
      ghost var m := Take(verb, head, fate, at, line, block);
      FollowedBy(was, m);
      exit := Act(verb, head, fate, peerKeepsAlive, m);
    }

    lemma {:induction false} HeadTurnIs(
      nine: bool, interim: bool, verb: Verb, head: Head, at: nat, line: string, block: Block)
      requires FramingContract(oracle) && at <= |input| && IsFrame(Start(input, at), line, block, head)
      requires verb == oracle.verb(line)
      ensures ContractHolds(verb, head) && (!head.framed ==> head.mustClose) && (head.framed ==> head.length.Some?)
      ensures
        var m := MessageOf(Start(input, at), head, block);
        var turn := HeadTurn(nine, interim, m);
        && (nine ==> turn == Refusal(interim, 400, verb == HEAD))
        && (!nine && verb != Unimplemented ==>
              turn == if head.framed then Taken(interim, m) else Refusal(interim, 400, verb == HEAD))
    {
      assert ContractHolds(oracle.verb(line), oracle.read(line, input[LineEnd(input, Start(input, at))..block.end]));
    }

    /** The try statement of _handle, its clauses included. */
    method Act(verb: Verb, head: Head, fate: Fate, peerKeepsAlive: bool, ghost m: Message) returns (exit: Exit)
      requires StreamOk() && pos == m.headEnd && verb == m.verb && head == m.head && Handling(m, fate) && Actable(m)
      requires MayTry() && !nine && command == Some(verb) && peerKeepsAlive == head.keepAlive
      requires forall i :: 0 <= i < |calls| ==> calls[i].index < |taken| - 1
      requires closeConnection == (!peerKeepsAlive || head.mustClose || head.length.value > 0)
      modifies this`pos, this`wire, this`writeSpent, this`dead, this`answered, this`closeConnection, this`calls
      ensures StreamOk() && m.headEnd <= pos && WireOk() && (answered || MayTry())
      ensures (exit == Normal || exit == Failed) && (exit == Normal ==> answered)
      ensures exit == Normal && !closeConnection ==> pos == End(m) && Whole(wire, command == Some(HEAD)) && KeepsOn(m)
      ensures calm ==> exit == Normal && wire == old(wire) + Full(false, ReplyCode(fate, m, input), m.verb == HEAD)
      ensures calm ==> closeConnection == !GoesOn(fate, m, input)
      ensures calm ==>
        && old(calls) <= calls && |calls| == |old(calls)| + (if Called(fate, m, input) then 1 else 0)
        && (Called(fate, m, input) ==> calls[|old(calls)|].index == |taken| - 1)
    {
      hide Messages, Frame, Start, Headers, LineEnd, Exchange, Answer, Whole, EmptyLine, Attempt, BodyAsAsked, Full,
        CanBeTaken, CallOk, ReplyCode, Called, FramingContract;
      var drained: bool;
      exit, drained := Dispatch(verb, head, fate, peerKeepsAlive, m);
      exit := Conclude(exit);
      // the finally clause: a declared body nothing read
      if !drained && (head.length.value > 0 || head.mustClose) { closeConnection := true; }
    }

    /** The request the head describes is the next one of the reference. */
    ghost method Take(verb: Verb, head: Head, fate: Fate, at: nat, line: string, block: Block) returns (m: Message)
      requires StreamOk() && at <= |input| && AtBoundaryOf(taken, at)
      requires IsFrame(Start(input, at), line, block, head) && verb == oracle.verb(line)
      requires oracle.kind(line) == Versioned && head.framed
      requires head.originForm && verb != Unimplemented && WithinPromise(head) && AllKeepOn(taken)
      modifies this`taken, this`fates
      ensures StreamOk() && taken == old(taken) + [m] && fates == old(fates) + [fate] && Handling(m, fate)
      ensures m == MessageOf(Start(input, at), head, block)
      ensures m.verb == verb && m.head == head && m.headEnd == pos && Actable(m)
      ensures End(m) <= |input| ==> AtBoundaryOf(taken, End(m))
      ensures forall i :: 0 <= i < |calls| ==> calls[i].index < |taken| - 1
    {
      hide Messages, Frame, Start, Headers, LineEnd, EmptyLine, AllKeepOn, Followable;
      m := FrameIsTaken(verb, head, at, line, block);
      MessagesStep(oracle, input, at, m);
      assert Messages(oracle, input, 0) == (taken + [m]) + Messages(oracle, input, at)[1..];
      FollowedBy(taken, m);
      taken, fates := taken + [m], fates + [fate];
      forall i | 0 <= i < |calls| ensures CallOk(calls[i]) && calls[i].index < |taken| - 1 {
        assert old(CallOk(calls[i]));
      }
    }

    lemma {:induction false} FrameIsTaken(verb: Verb, head: Head, at: nat, line: string, block: Block)
      returns (m: Message)
      requires FramingContract(oracle) && at <= |input|
      requires IsFrame(Start(input, at), line, block, head) && verb == oracle.verb(line)
      requires oracle.kind(line) == Versioned && head.framed
      ensures Frame(oracle, input, at) == Some(m)
      ensures m.verb == verb && m.head == head && m.headEnd == pos && m == MessageOf(Start(input, at), head, block)
      ensures ContractHolds(verb, head) && m.length == head.length.value
    {
      hide Headers, LineEnd;
      assert ContractHolds(oracle.verb(line), oracle.read(line, input[LineEnd(input, Start(input, at))..block.end]));
      m := Message(Start(input, at), block.end, head.length.value, verb, head, block.ended);
    }

    /** The request that the first line begins, read and handled. */
    method ParseAndHandle(first: string, fate: Fate, ghost at: nat) returns (exit: Exit, ghost unread: bool)
      requires StreamOk() && at <= |input| && AtBoundaryOf(taken, at) && MayTry() && wire == [] && AllKeepOn(taken)
      requires pos == LineEnd(input, at) && first == input[at..pos] && first != "" && |first| <= MAX_LINE
      modifies this
      ensures StreamOk() && WireOk() && old(pos) <= pos
      ensures exit == Normal || exit == Reset || exit == Failed
      ensures exit != Reset ==> answered || MayTry()
      ensures exit == Failed ==> !nine
      ensures unread ==>
        && command == old(command) && EarlyAnswer(wire, old(command) == Some(HEAD), Spent())
        && (!answered ==> wire == []) && (exit == Normal ==> closeConnection)
      ensures old(taken) <= taken && |taken| <= |old(taken)| + 1
      ensures fates == old(fates) + if taken == old(taken) then [] else [fate]
      ensures exit == Normal && !closeConnection ==>
        && answered && AtBoundaryOf(taken, pos) && Whole(wire, command == Some(HEAD))
        && |taken| == |old(taken)| + 1 && command == Some(taken[|taken| - 1].verb) && AllKeepOn(taken)
      ensures calm ==> exit == Normal && TurnDone(TurnAt(oracle, input, at, old(command)), fate, old(taken), old(calls))
    {
      hide AllKeepOn, Followable, CanBeTaken, EarlyAnswer, LineEnd, CallOk, TurnAt;
      hide Messages, Frame, Start, Headers, Exchange, Answer, Whole, EmptyLine, Attempt, BodyAsAsked;
      var go, head;
      ghost var line, block;
      go, exit, head, line, block, unread := ParseRequest(first, at);
      if unread { EarlyAnswerIs(wire, 400, command == Some(HEAD), Spent()); }
      if exit == TimedOut {
        closeConnection := true;
        exit := Normal;
      } else if go && !nine && command == Some(Unimplemented) {
        SendError(501);
      } else if go {
        exit := Handle(command.value, head.value, fate, at, line, block);
      }
    }

    /** BaseHTTPRequestHandler.handle_one_request: a TimeoutError anywhere in it ends
        the connection in silence. */
    method BaseOneRequest(fate: Fate) returns (exit: Exit, ghost unread: bool)
      requires StreamOk() && AtBoundaryOf(taken, pos) && MayTry() && wire == [] && AllKeepOn(taken)
      modifies this
      ensures StreamOk() && WireOk() && old(pos) <= pos
      ensures exit == Normal || exit == Reset || exit == Failed
      ensures exit != Reset ==> answered || MayTry()
      ensures exit == Failed ==> !nine
      ensures writeSpent <= 10.0
      ensures unread ==>
        && command == old(command) && EarlyAnswer(wire, old(command) == Some(HEAD), Spent())
        && (!answered ==> wire == []) && (exit == Normal ==> closeConnection)
      ensures old(taken) <= taken && |taken| <= |old(taken)| + 1
      ensures fates == old(fates) + if taken == old(taken) then [] else [fate]
      ensures exit == Normal && !closeConnection ==>
        && old(pos) < pos && answered && AtBoundaryOf(taken, pos) && Whole(wire, command == Some(HEAD))
        && |taken| == |old(taken)| + 1 && command == Some(taken[|taken| - 1].verb) && AllKeepOn(taken)
      ensures calm ==> exit == Normal
      ensures calm ==> TurnDone(TurnAt(oracle, input, old(pos), old(command)), fate, old(taken), old(calls))
    {
      hide AllKeepOn, Followable, CanBeTaken, EarlyAnswer, TurnAt, Full, GoesOn, ReplyCode, Called, LineEnd, CallOk,
        FramingContract, AtBoundaryOf;
      FullAfter(wire);
      hide Messages, Frame, Start, Headers, Exchange, Answer, Whole, EmptyLine, Attempt, BodyAsAsked;
      EdgeTurns(oracle, input, pos, command);
      unread := false;
      NothingEarly(command == Some(HEAD), Spent());
      ghost var at := pos;
      var r := ReadLine();
      if r.ReadTimedOut? { closeConnection := true; return Normal, true; }
      if r.ReadReset? { return Reset, true; }
      if |r.octets| > MAX_LINE {
        nine, command := false, None;
        SendError(414);
        return Normal, false;
      }
      if r.octets == "" { closeConnection := true; return Normal, true; }
      exit, unread := ParseAndHandle(r.octets, fate, at);
    }

    /** What handle_one_request does when the library's has returned or raised. */
    method Backstop(outcome: Exit, ghost unread: bool)
      requires WireOk() && (outcome == Normal || outcome == Reset || outcome == Failed)
      requires (outcome != Reset ==> answered || MayTry()) && (outcome == Failed ==> !nine)
      requires outcome == Normal && !closeConnection ==> answered
      requires calm ==> outcome == Normal
      requires unread ==>
        && EarlyAnswer(wire, command == Some(HEAD), Spent())
        && (!answered ==> wire == []) && (outcome == Normal ==> closeConnection)
      modifies this`wire, this`writeSpent, this`dead, this`answered, this`closeConnection, this`nine
      ensures WireOk() && (unread ==> closeConnection && EarlyAnswer(wire, command == Some(HEAD), Spent()))
      ensures old(closeConnection) ==> closeConnection
      ensures !closeConnection ==> outcome == Normal && wire == old(wire)
      ensures calm ==> wire == old(wire) && closeConnection == old(closeConnection)
    {
      hide BodyAsAsked, Attempt, EarlyAnswer;
      var exit, expired: bool := outcome, *;
      if exit == Normal && !answered && expired && !calm {
        exit := RefuseTransport(408);
        if unread { EarlyAnswerIs(wire, 408, command == Some(HEAD), Spent()); }
      }
      if exit == Reset {
        closeConnection := true;
      } else if exit == Failed {
        closeConnection := true;
        if !answered {
          var ignored := Json(500);
          if unread && wire != [] { EarlyAnswerIs(wire, 500, command == Some(HEAD), Spent()); }
          if unread && wire == [] { NothingEarly(command == Some(HEAD), Spent()); }
        }
      }
    }

    /** handle_one_request: the clock's 408, and the backstop for what escaped.  `unread`
        says that no request line was read, whether nothing came, an empty line and then
        nothing, or two empty lines; what is then sent goes without its body exactly when
        the request before was a HEAD, whose method is still there. */
    method HandleOneRequest(fate: Fate) returns (ghost unread: bool)
      requires StreamOk() && AtBoundaryOf(taken, pos) && AllKeepOn(taken) && 0.0 <= writeSpent <= WRITE_BUDGET
      requires calm ==> writeSpent == 0.0 && !dead
      modifies this
      ensures StreamOk() && WireOk() && old(pos) <= pos
      ensures old(taken) <= taken && |taken| <= |old(taken)| + 1
      ensures fates == old(fates) + if taken == old(taken) then [] else [fate]
      ensures !closeConnection ==>
        && old(pos) < pos && AtBoundaryOf(taken, pos) && Whole(wire, command == Some(HEAD))
        && |taken| == |old(taken)| + 1 && command == Some(taken[|taken| - 1].verb) && AllKeepOn(taken)
      ensures unread ==> closeConnection && command == old(command)
      ensures unread ==> EarlyAnswer(wire, old(command) == Some(HEAD), Spent())
      ensures calm ==> TurnDone(TurnAt(oracle, input, old(pos), old(command)), fate, old(taken), old(calls))
      ensures calm ==>
        var frame := Frame(oracle, input, old(pos));
        if frame.Some? && Actable(frame.value) then
          && taken == old(taken) + [frame.value] && Status(ReplyCode(fate, frame.value, input)) in wire
          && closeConnection == !GoesOn(fate, frame.value, input)
        else taken == old(taken) && closeConnection && forall c: nat :: Status(c) in wire ==> c >= 400
      ensures calm ==>
        var s := Start(input, old(pos));
        var line := input[s..LineEnd(input, s)];
        Finals(wire)
        == if line == "" || (!EmptyLine(line) && |line| <= 65536 && oracle.kind(line) == NoWords) then 0 else 1
    {
      hide GoesOn, ReplyCode, Called, Finals, Actable, TurnDone, FramingContract;
      ghost var at, before, was, made := pos, command, taken, calls;
      hide TurnAt, Messages, Frame, Start, Headers, LineEnd, EmptyLine, AtBoundaryOf, CallOk, Attempt, BodyAsAsked, Whole,
        AllKeepOn, Followable, CanBeTaken, EarlyAnswer;
      answered := false;
      wire := [];
      var exit;
      exit, unread := BaseOneRequest(fate);
      Backstop(exit, unread);
      if calm { TurnMeans(at, before, fate, was, made); }
    }

    /** What such a turn has done, in terms of the reference parser and the line itself. */
    lemma {:induction false} TurnMeans(at: nat, before: Option<Verb>, fate: Fate, was: seq<Message>, made: seq<Call>)
      requires FramingContract(oracle) && at <= |input|
      requires TurnDone(TurnAt(oracle, input, at, before), fate, was, made)
      ensures
        var frame := Frame(oracle, input, at);
        if frame.Some? && Actable(frame.value) then
          && taken == was + [frame.value] && Status(ReplyCode(fate, frame.value, input)) in wire
          && closeConnection == !GoesOn(fate, frame.value, input)
        else taken == was && closeConnection && forall c: nat :: Status(c) in wire ==> c >= 400
      ensures
        var s := Start(input, at);
        var line := input[s..LineEnd(input, s)];
        Finals(wire)
        == if line == "" || (!EmptyLine(line) && |line| <= 65536 && oracle.kind(line) == NoWords) then 0 else 1
    {
      hide TurnAt, Frame, GoesOn, ReplyCode, Called, Full, Actable, Start, LineEnd;
      TakenIsFramed(oracle, input, at, before);
      SilentExactly(oracle, input, at, before);
      match TurnAt(oracle, input, at, before) {
        case Silence =>
        case Refusal(interim, code, headOnly) => FullHasOneFinal(interim, code, headOnly);
        case Taken(interim, m) => FullHasOneFinal(interim, ReplyCode(fate, m, input), m.verb == HEAD);
      }
    }

    /** The answers to the requests taken so far, and the calls made for them. */
    ghost predicate CalmSoFar(fate: nat -> Fate, sent: seq<(seq<Wire>, bool)>, taken: seq<Message>, calls: seq<Call>) {
      && |taken| <= |sent|
      && (forall i | 0 <= i < |taken| ::
            sent[i].0 == Full(taken[i].head.expects100, ReplyCode(fate(i), taken[i], input), taken[i].verb == HEAD))
      && (forall i | 0 <= i < |taken| :: Called(fate(i), taken[i], input) <==> IsCalled(calls, i))
      && (forall k | 0 <= k < |calls| :: calls[k].index < |taken|)
    }

    static ghost predicate IsCalled(calls: seq<Call>, i: nat) {
      exists k :: 0 <= k < |calls| && calls[k].index == i
    }

    static lemma {:induction false} CallsGrow(before: seq<Call>, calls: seq<Call>, n: nat, called: bool)
      requires forall k :: 0 <= k < |before| ==> before[k].index < n
      requires before <= calls && |calls| == |before| + (if called then 1 else 0)
      requires called ==> calls[|before|].index == n
      ensures forall i: nat :: i < n ==> (IsCalled(calls, i) <==> IsCalled(before, i))
      ensures IsCalled(calls, n) <==> called
    {
      forall i: nat | i < n && IsCalled(before, i) ensures IsCalled(calls, i) {
        var k :| 0 <= k < |before| && before[k].index == i;
        assert calls[k].index == i;
      }
      forall k | 0 <= k < |before| ensures calls[k] == before[k] { }
      if called { assert calls[|before|].index == n; }
    }

    lemma {:induction false} CalmTurn(fate: nat -> Fate, sent: seq<(seq<Wire>, bool)>, turn: Turn, headOnly: bool,
        was: seq<Message>, before: seq<Call>)
      requires CalmSoFar(fate, sent, was, before) && |sent| == |was| && TurnDone(turn, fate(|sent|), was, before)
      requires turn.Taken? ==> turn.interim == turn.m.head.expects100
      ensures CalmSoFar(fate, sent + [(wire, headOnly)], taken, calls)
    {
      hide Full, ReplyCode, Called, GoesOn;
      var n := |sent|;
      if turn.Taken? { CallsGrow(before, calls, n, Called(fate(n), turn.m, input)); }
    }

    /** Nothing more can be taken: no request is left, or the next cannot be acted on, or
        the last one taken ends the connection. */
    ghost predicate Ended(fate: nat -> Fate) reads this`taken {
      var all, n := Messages(oracle, input, 0), |taken|;
      n <= |all| && (n == |all| || !Actable(all[n]) || (n > 0 && !GoesOn(fate(n - 1), all[n - 1], input)))
    }

    /** So everything on the stream is taken, a request with a cut head included, where
        each request but the last leaves the connection open, the gate lets it pass, and a
        route reads its body if it has one. */
    lemma {:induction false} TakesAll(fate: nat -> Fate)
      requires FramingContract(oracle) && CanBeTaken(oracle, input, taken) && Ended(fate)
      requires Followable(Messages(oracle, input, 0))
      requires forall i :: 0 <= i < |Messages(oracle, input, 0)| - 1 ==>
        fate(i).gate == Admitted && (Messages(oracle, input, 0)[i].length > 0 ==> fate(i).target == Route)
      ensures taken == Messages(oracle, input, 0)
    {
      hide Messages, Actable, GoesOn, KeepsOn;
      var n := |taken|;
      if 0 < n < |Messages(oracle, input, 0)| { LeftOpen(oracle, input, fate(n - 1), n - 1); }
    }

    lemma {:induction false} LastTurn(fate: nat -> Fate, at: nat, turn: Turn, before: Option<Verb>, was: seq<Message>,
        made: seq<Call>)
      requires FramingContract(oracle) && at <= |input| && AtBoundaryOf(was, at)
      requires turn == TurnAt(oracle, input, at, before) && TurnDone(turn, fate(|was|), was, made)
      ensures turn.Taken? ==> turn.interim == turn.m.head.expects100
      ensures turn.Taken? ==> taken == was + [turn.m] && closeConnection == !GoesOn(fate(|was|), turn.m, input)
      ensures !turn.Taken? ==> closeConnection && taken == was
      ensures closeConnection ==> Ended(fate)
    {
      hide TurnAt, Frame, GoesOn, Actable;
      TakenIsFramed(oracle, input, at, before);
      var rest, n := Messages(oracle, input, at), |was|;
      var frame := Frame(oracle, input, at);
      if frame.Some? { MessagesStep(oracle, input, at, frame.value); }
      assert rest != [] ==> Messages(oracle, input, 0)[n] == rest[0] && rest[0] == frame.value;
      assert turn.Taken? ==> rest != [];
    }

    /** A turn of the loop, and what is known of the connection after it. */
    method TakeTurn(fate: nat -> Fate, turn: nat, ghost sent: seq<(seq<Wire>, bool)>)
      requires StreamOk() && AtBoundaryOf(taken, pos) && AllKeepOn(taken) && 0.0 <= writeSpent <= WRITE_BUDGET
      requires |taken| == |sent| == turn && (calm ==> writeSpent == 0.0 && !dead && CalmSoFar(fate, sent, taken, calls))
      modifies this
      ensures StreamOk() && WireOk() && old(pos) <= pos
      ensures old(taken) <= taken && |taken| <= |old(taken)| + 1
      ensures fates == old(fates) + if taken == old(taken) then [] else [fate(turn)]
      ensures !closeConnection ==>
        && old(pos) < pos && AtBoundaryOf(taken, pos) && Whole(wire, command == Some(HEAD))
        && |taken| == |old(taken)| + 1 && command == Some(taken[|taken| - 1].verb) && AllKeepOn(taken)
      ensures calm ==> CalmSoFar(fate, sent + [(wire, command == Some(HEAD))], taken, calls)
      ensures calm && closeConnection ==> Ended(fate)
      ensures calm && !closeConnection ==> GoesOn(fate(turn), taken[turn], input)
    {
      hide Messages, Frame, Start, Headers, LineEnd, Exchange, Answer, Whole, EmptyLine, BodyAsAsked, EarlyAnswer,
        CallOk, AllKeepOn, Followable, CanBeTaken, TurnAt, TurnDone, CalmSoFar, Ended, GoesOn;
      ghost var at, before, was, made := pos, command, taken, calls;
      ghost var unread := HandleOneRequest(fate(turn));
      if calm {
        LastTurn(fate, at, TurnAt(oracle, input, at, before), before, was, made);
        CalmTurn(fate, sent, TurnAt(oracle, input, at, before), command == Some(HEAD), was, made);
      }
    }

    /** handle: requests until one closes the connection; `fate` says what the gate and
        the routes make of each in turn.  The requests acted on are a prefix of the
        reference parser's, all but the last of them requests after which the connection
        goes on, each POST route called with exactly its declared body; each turn answers
        the request it took; and the time spent writing stays within the budget.

        Where nothing fails the prefix is the longest there is, each of its requests gets
        exactly the one whole answer that is its own, and a route is called for exactly
        those that the gate lets pass, that name one, and whose body is there and parses. */
    method Serve(fate: nat -> Fate) returns (ghost sent: seq<(seq<Wire>, bool)>)
      requires FramingContract(oracle) && pos == 0 && taken == [] && fates == [] && calls == []
      requires writeSpent == 0.0 && !dead
      modifies this
      ensures CanBeTaken(oracle, input, taken) && AnsweredAs(sent, taken)
      ensures |fates| == |taken| && forall i :: 0 <= i < |taken| ==> fates[i] == fate(i)
      ensures forall i, j :: 0 <= i < j < |calls| ==> calls[i].index < calls[j].index
      ensures forall i :: 0 <= i < |calls| ==> CallOk(calls[i])
      ensures writeSpent <= 10.0
      ensures calm ==> Ended(fate) && CalmSoFar(fate, sent, taken, calls)
      ensures calm ==> forall i :: 0 <= i < |taken| - 1 ==> GoesOn(fate(i), taken[i], input)
    {
      hide Messages, Frame, Start, Headers, LineEnd, Exchange, Answer, Whole, EmptyLine, BodyAsAsked, EarlyAnswer,
        CallOk, AnsweredAs, AllKeepOn, Followable, CanBeTaken, TurnAt, TurnDone, CalmSoFar, Ended, GoesOn;
      closeConnection := true;
      sent := [];
      NoTurnYet(fate);
      var going, turn: nat := true, 0;
      while going
        invariant StreamOk() && 0.0 <= writeSpent <= WRITE_BUDGET && AnsweredAs(sent, taken)
        invariant calm ==> writeSpent == 0.0 && !dead
        invariant going ==> AtBoundaryOf(taken, pos) && |taken| == |sent| == turn && AllKeepOn(taken)
        invariant going && sent != [] ==>
          var (v, h) := sent[|sent| - 1];
          Whole(v, h) && h == (taken[|taken| - 1].verb == HEAD)
        invariant forall i :: 0 <= i < |taken| ==> fates[i] == fate(i)
        invariant calm ==> CalmSoFar(fate, sent, taken, calls) && (!going ==> Ended(fate))
        invariant calm ==> forall i :: 0 <= i < |taken| && (going || i < |taken| - 1) ==> GoesOn(fate(i), taken[i], input)
        decreases going, |input| - pos
      {
        ghost var was := taken;
        TakeTurn(fate, turn, sent);
        OneMoreTurn(sent, was, wire, command == Some(HEAD), taken);
        sent := sent + [(wire, command == Some(HEAD))];
        going := !closeConnection;
        turn := turn + 1;
      }
    }

    lemma {:induction false} NoTurnYet(fate: nat -> Fate)
      ensures AnsweredAs([], []) && AllKeepOn([]) && CanBeTaken(oracle, input, [])
      ensures taken == [] && calls == [] ==> CalmSoFar(fate, [], taken, calls)
    {
    }
  }
}
