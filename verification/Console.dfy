/** One connection to the operator console (mint_console.py, class Console).

    The console answers HTTP/1.0 and closes after one request, so a connection is one
    request.  What must hold is that it never ends in silence: every way a request
    can be cut short, refused or broken still gets one final response. */
module Console {
  import opened Http
  import opened Wrappers

  const MAX_LEADING_EMPTY_LINES: nat := 8

  /** What the library makes of a request line and header block: no words at all, an
      error it answers itself, either spelling of HTTP/0.9, or a head. */
  datatype LineKind = NoWords | Unreadable | ZeroNine | Readable
  datatype Verb = GET | POST | HEAD | Unimplemented
  datatype Head = Head(splits: bool, length: Option<nat>, framed: bool)
  datatype Exit = Normal | TimedOut | Reset | Failed

  /** At most one response, cut or whole. */
  predicate Reply(w: seq<Wire>) {
    |w| == 0 || (|w| == 1 && (w[0] == Cut || w[0].Status?)) ||
    (|w| == 2 && w[0].Status? && (w[1] == Body || w[1] == Cut))
  }

  lemma {:induction false} ReplyFinals(w: seq<Wire>)
    requires Reply(w)
    ensures Finals(w) == if w != [] && Final(w[0]) then 1 else 0
  {
    if |w| >= 1 {
      var v := w[..|w| - 1];
      assert |w| == 1 ==> v == [];
      assert |w| == 2 ==> v[..0] == [] && v[0] == w[0] && Finals(v) == Finals([]) + if Final(w[0]) then 1 else 0;
    }
  }

  /** Where the request line starts: after at most eight empty lines. */
  function LineStart(input: string, pos: nat, skipped: nat): (s: Option<nat>)
    requires pos <= |input| && skipped <= 8
    ensures s.Some? ==> pos <= s.value <= |input|
    decreases 8 - skipped
  {
    var e := LineEnd(input, pos);
    var line := input[pos..e];
    if |line| > 65536 || line == "" then None
    else if !EmptyLine(line) then Some(pos)
    else if skipped == 8 then None
    else LineStart(input, e, skipped + 1)
  }

  datatype RouteEnd = Answers | Relays(status: nat) | Raises

  /** What the gate, the JSON parser and the route make of the request. */
  datatype Plan = Plan(allowed: bool, parses: bool, end: RouteEnd)

  /** The status a dispatched request is answered with, where `there` octets are left. */
  function ReplyCode(p: Plan, verb: Verb, length: Option<nat>, there: nat): nat {
    if !p.allowed then 403
    else if verb == POST && length.None? then 400
    else if verb == POST && length.value > 1048576 then 413
    else if verb == POST && (length.value > there || !p.parses) then 400
    else match p.end case Answers => 200 case Relays(s) => if s >= 100 then s else 200 case Raises => 500
  }

  predicate Refusal(w: seq<Wire>) { w != [] && w[0].Status? && w[0].code >= 400 }

  lemma {:induction false} StartOf(input: string)
    ensures LineEnd(input, 0) == 0 <==> input == ""
    ensures |input[0..LineEnd(input, 0)]| > MAX_LINE ==> LineStart(input, 0, 0).None?
  {
  }

  class Console {
    const kind: string -> LineKind
    const verb: string -> Verb
    const read: (string, string) -> Head
    const input: string
    /** The peer does not reset the connection and takes whatever is written. */
    const calm: bool
    var pos: nat
    var answered: bool
    var timedOut: bool
    var nine: bool
    var closeConnection: bool
    var command: Option<Verb>
    ghost var wire: seq<Wire>
    /** The status the mint's port gave, when a route passes that on. */
    ghost var relayed: Option<nat>

    constructor (kind: string -> LineKind, verb: string -> Verb, read: (string, string) -> Head, input: string,
      calm: bool)
      ensures this.kind == kind && this.verb == verb && this.read == read && this.input == input && this.calm == calm
      ensures pos == 0 && wire == [] && relayed == None && !timedOut && !nine
    {
      this.kind, this.verb, this.read, this.input, this.calm := kind, verb, read, input, calm;
      pos, answered, timedOut, nine, closeConnection, command := 0, false, false, false, true, None;
      wire, relayed := [], None;
    }

    /** A status line of 200 or more is out exactly when `answered` says so, as long
        as the socket takes what is written. */
    ghost predicate Ok() reads this`pos, this`wire, this`answered, this`relayed, this`timedOut {
      && pos <= |input| && Reply(wire)
      && (!answered ==> wire == [] || (relayed.Some? && relayed.value < 200))
      && (!answered && wire != [] ==> !Final(wire[0]))
      && (answered ==> wire != [])
      && (answered && calm ==> Final(wire[0]))
    }

    /** Nothing has gone out yet. */
    ghost predicate Silent() reads this`pos, this`wire, this`answered, this`relayed, this`timedOut {
      Ok() && !answered && wire == [] && relayed == None
    }

    ghost predicate PassedOnInterim() reads this`relayed { relayed.Some? && relayed.value < 200 }

    method Write(w: Wire) returns (exit: Exit)
      requires w != Cut
      modifies this`wire
      ensures exit == Normal ==> wire == old(wire) + [w]
      ensures exit != Normal ==> wire == old(wire) + [Cut]
      ensures calm ==> exit == Normal
      ensures exit != Failed
    {
      var ok: bool, late: bool := *, *;
      if ok || calm {
        wire := wire + [w];
        exit := Normal;
      } else {
        wire := wire + [Cut];
        exit := if late then TimedOut else Reset;
      }
    }

    /** A readline, or a read of n octets; a bound leaves a note as it goes past. */
    method Read(n: Option<nat>) returns (r: Got)
      requires pos <= |input|
      modifies this`pos, this`timedOut
      ensures old(pos) <= pos <= |input|
      ensures r.ReadTimedOut? ==> timedOut
      ensures !r.ReadTimedOut? ==> timedOut == old(timedOut)
      ensures r.Got? ==> r.octets == input[old(pos)..pos]
      ensures r.Got? && n.None? ==> pos == LineEnd(input, old(pos))
      ensures r.Got? && n.Some? ==> |r.octets| == n.value || (|r.octets| < n.value && pos == |input|)
      ensures calm ==> !r.ReadReset?
    {
      var ok: bool, late: bool := *, *;
      if !ok && late {
        timedOut := true;
        return ReadTimedOut;
      }
      if !ok && !calm { return ReadReset; }
      var e := if n.None? then LineEnd(input, pos)
        else if n.value <= |input| - pos then pos + n.value else |input|;
      r := Got(input[pos..e]);
      pos := e;
    }

    /** _send, and the library's send_error: an interim status is not an answer. */
    method Send(code: nat) returns (exit: Exit)
      requires Ok() && !answered && wire == [] && !nine
      requires code < 200 ==> relayed == Some(code)
      modifies this`wire, this`answered
      ensures Ok() && exit != Failed
      ensures answered == (code >= 200) && wire != []
      ensures calm ==> exit == Normal && wire[0] == Status(code)
    {
      answered := code >= 200;
      exit := Write(Status(code));
      if exit == Normal && command != Some(HEAD) {
        exit := Write(Body);
      }
    }

    /** A refusal: name the request if its line never arrived, answer, hang up. */
    method Refuse(code: nat) returns (exit: Exit)
      requires Silent() && code >= 200
      modifies this`wire, this`answered, this`closeConnection, this`nine
      ensures Ok() && answered && closeConnection && !nine && relayed == None
      ensures exit != Failed && (calm ==> exit == Normal && wire[0] == Status(code))
    {
      closeConnection := true;
      nine := false;
      exit := Send(code);
    }

    method ReadHeaders() returns (text: Option<string>, exit: Exit)
      requires Silent()
      modifies this`pos, this`timedOut
      ensures Silent() && exit != Failed
      ensures exit == TimedOut ==> timedOut
      ensures exit == Normal ==> timedOut == old(timedOut)
      ensures calm ==> exit != Reset
      ensures exit == Normal ==> (text.Some? <==> Headers(input, old(pos), 0).Block?)
      ensures exit == Normal && text.Some? ==>
        pos == Headers(input, old(pos), 0).end && text.value == input[old(pos)..pos]
    {
      hide Reply, LineEnd;
      var from, n := pos, 0;
      while true
        invariant Silent() && n <= MAX_HEADERS && from <= pos
        invariant Headers(input, pos, n) == Headers(input, from, 0)
        invariant timedOut == old(timedOut)
        decreases MAX_HEADERS - n
      {
        var r := Read(None);
        if r.ReadTimedOut? { return None, TimedOut; }
        if r.ReadReset? { return None, Reset; }
        if |r.octets| > MAX_LINE || n == MAX_HEADERS { return None, Normal; }
        if r.octets == "\r\n" || r.octets == "\n" || r.octets == "" { return Some(input[from..pos]), Normal; }
        n := n + 1;
      }
    }

    /** A request this console goes on with: a request line after a bounded run of empty
        lines, read as HTTP/1.x, then a header block of bounded size that splits and
        frames. */
    ghost predicate Good(from: nat)
      requires from <= |input|
    {
      var s := LineStart(input, from, 0);
      s.Some? &&
      var e := LineEnd(input, s.value);
      kind(input[s.value..e]) == Readable && Headers(input, e, 0).Block? &&
      var h := HeadAt(s.value);
      h.splits && h.framed
    }

    ghost function HeadAt(s: nat): Head
      requires s <= |input| && Headers(input, LineEnd(input, s), 0).Block?
    {
      var e := LineEnd(input, s);
      read(input[s..e], input[e..Headers(input, e, 0).end])
    }

    /** Step over at most MAX_LEADING_EMPTY_LINES empty lines. */
    method SkipEmptyLines(first: string, ghost from: nat) returns (line: Option<string>, exit: Exit)
      requires Silent() && first != "" && !nine
      requires from <= |input| && pos == LineEnd(input, from) && first == input[from..pos] && |first| <= MAX_LINE
      modifies this`pos, this`timedOut, this`wire, this`answered, this`closeConnection, this`nine, this`command
      ensures Ok() && relayed == None && exit != Failed && !nine
      ensures exit == TimedOut && !answered ==> timedOut
      ensures calm ==> exit != Reset
      ensures line.Some? ==>
        exit == Normal && Silent() && line.value != "" && !EmptyLine(line.value) && timedOut == old(timedOut)
      ensures line.None? && exit == Normal ==> answered
      ensures !answered ==> Silent()
      ensures line.Some? ==>
        var s := LineStart(input, from, 0);
        s.Some? && pos == LineEnd(input, s.value) && line.value == input[s.value..pos]
      ensures line.None? && LineStart(input, from, 0).Some? ==> !answered && exit != Normal
      ensures calm && answered ==> Refusal(wire)
    {
      hide Reply, LineEnd;
      var l, skipped: nat := first, 0;
      ghost var at: nat := from;
      while l == "\r\n" || l == "\n" || l == "\r"
        invariant skipped <= MAX_LEADING_EMPTY_LINES
        invariant at <= |input| && pos == LineEnd(input, at) && l == input[at..pos] && |l| <= MAX_LINE
        invariant LineStart(input, at, skipped) == LineStart(input, from, 0)
        invariant Silent() && timedOut == old(timedOut) && l != "" && !nine
        decreases MAX_LEADING_EMPTY_LINES - skipped
      {
        if skipped == MAX_LEADING_EMPTY_LINES {
          command := None;
          exit := Refuse(400);
          return None, exit;
        }
        skipped := skipped + 1;
        at := pos;
        var r := Read(None);
        if r.ReadTimedOut? { return None, TimedOut; }
        if r.ReadReset? { return None, Reset; }
        l := r.octets;
        if |l| > MAX_LINE || l == "" {
          command := None;
          exit := Refuse(if l == "" then 400 else 414);
          return None, exit;
        }
      }
      return Some(l), Normal;
    }

    /** parse_request. */
    method ParseRequest(first: string, ghost from: nat) returns (go: bool, exit: Exit, head: Head)
      requires Silent() && first != "" && !nine
      requires from <= |input| && pos == LineEnd(input, from) && first == input[from..pos] && |first| <= MAX_LINE
      modifies this`pos, this`timedOut, this`wire, this`answered, this`closeConnection, this`nine, this`command
      ensures Ok() && relayed == None && exit != Failed && !nine
      ensures exit == TimedOut && !answered ==> timedOut
      ensures calm ==> exit != Reset
      ensures go ==> exit == Normal && Silent() && head.framed && command.Some? && timedOut == old(timedOut)
      ensures !go && exit == Normal ==> answered
      ensures !answered ==> Silent()
      ensures go ==> Good(from) && head == HeadAt(LineStart(input, from, 0).value)
      ensures Good(from) && !go ==> !answered && exit != Normal
      ensures go ==>
        var s := LineStart(input, from, 0).value;
        && pos == Headers(input, LineEnd(input, s), 0).end
        && command == Some(verb(input[s..LineEnd(input, s)]))
      ensures calm && answered ==> Refusal(wire)
    {
      hide Reply, LineEnd, LineStart;
      head := Head(false, None, false);
      var line, e := SkipEmptyLines(first, from);
      if line.None? { return false, e, head; }
      var l := line.value;
      command, closeConnection := None, true;
      var k := kind(l);
      if k == NoWords || k == Unreadable {
        // the library answers the second itself and is silent about the first
        exit := Refuse(400);
        return false, exit, head;
      }
      command := Some(verb(l));
      nine := k == ZeroNine;
      var block, e2 := ReadHeaders();
      if e2 != Normal {
        nine := false;
        return false, e2, head;
      }
      if block.None? {
        exit := Refuse(431);
        return false, exit, head;
      }
      if k == ZeroNine {
        exit := Refuse(400);
        return false, exit, head;
      }
      head := read(l, block.value);
      if !head.splits || !head.framed {
        exit := Refuse(400);
        return false, exit, head;
      }
      return true, Normal, head;
    }

    /** _read_json: false when the caller has been answered, or is gone. */
    method ReadJson(head: Head, parses: bool) returns (ok: bool, exit: Exit)
      requires Silent() && !nine
      modifies this`pos, this`timedOut, this`wire, this`answered, this`closeConnection, this`nine
      ensures Ok() && relayed == None && exit != Failed
      ensures ok ==> exit == Normal && Silent() && !nine && timedOut == old(timedOut)
      ensures ok ==> head.length.Some? && head.length.value <= 1048576 && pos == old(pos) + head.length.value
      ensures calm && !ok ==> exit == Normal && answered
      ensures exit != Normal ==> answered
      ensures timedOut && !old(timedOut) ==> answered
      ensures calm && !timedOut ==>
        if head.length.Some? && head.length.value <= 1048576 && head.length.value <= |input| - old(pos) && parses
        then ok
        else !ok && wire != [] && wire[0] == Status(if head.length.Some? && head.length.value > 1048576 then 413 else 400)
    {
      if head.length.None? {
        exit := Refuse(400);
        return false, exit;
      }
      if head.length.value > MAX_BODY {
        exit := Refuse(413);
        return false, exit;
      }
      var raw := "";
      if head.length.value != 0 {
        var r := Read(Some(head.length.value));
        if r.ReadTimedOut? {
          exit := Refuse(408);
          return false, exit;
        }
        if r.ReadReset? {
          closeConnection := true;
          return false, Normal;
        }
        raw := r.octets;
      }
      if |raw| != head.length.value {
        exit := Refuse(400);
        return false, exit;
      }
      if !parses {
        exit := Send(400);
        return false, exit;
      }
      return true, Normal;
    }

    /** do_GET and do_POST.  Every branch of the routes sends one response; some pass
        on the status the mint's port gave; any of them may raise before it sends. */
    method Route(head: Head, plan: Plan) returns (exit: Exit)
      requires Silent() && !nine && !timedOut && (command == Some(GET) || command == Some(POST))
      modifies this`pos, this`timedOut, this`wire, this`answered, this`closeConnection, this`nine, this`relayed
      ensures Ok() && (exit == Failed ==> Silent() && !nine && !timedOut)
      ensures calm ==> exit == Normal || exit == Failed
      ensures calm && exit == Normal ==> answered || PassedOnInterim()
      ensures PassedOnInterim() ==> !answered && !timedOut
      ensures timedOut ==> answered
      ensures calm && !timedOut ==>
        var code := ReplyCode(plan, command.value, head.length, |input| - old(pos));
        if exit == Failed then code == 500 else wire != [] && wire[0] == Status(code)
    {
      if !plan.allowed {
        exit := Refuse(403);
        return;
      }
      if command == Some(POST) {
        var ok;
        ok, exit := ReadJson(head, plan.parses);
        if !ok { return; }
      }
      if plan.end == Raises {
        exit := Failed;
      } else if plan.end.Relays? && plan.end.status >= 100 {
        relayed := Some(plan.end.status);
        exit := Send(plan.end.status);
      } else {
        exit := Send(200);
      }
    }

    /** BaseHTTPRequestHandler.handle_one_request, which swallows a TimeoutError. */
    method BaseOneRequest(plan: Plan) returns (exit: Exit)
      requires Silent() && pos == 0 && !nine && !timedOut
      modifies this
      ensures Ok() && (exit == Normal || exit == Reset || exit == Failed)
      ensures exit == Failed ==> Silent() && !nine
      ensures timedOut && !answered ==> Silent()
      ensures calm ==> exit != Reset
      ensures calm && exit == Normal && !answered ==> timedOut || input == "" || PassedOnInterim()
      ensures PassedOnInterim() ==> !answered && !timedOut && input != ""
      ensures answered || exit == Failed ==> input != "" || timedOut
      ensures calm && !timedOut ==> AnsweredBy(plan, exit == Failed)
    {
      hide LineEnd, LineStart, Headers, Reply, ReplyCode;
      var r := Read(None);
      if r.ReadTimedOut? {
        closeConnection := true;
        return Normal;
      }
      if r.ReadReset? { return Reset; }
      StartOf(input);
      if r.octets == "" {
        closeConnection := true;
        return Normal;
      }
      assert input != "";
      if |r.octets| > MAX_LINE {
        command := None;
        exit := Refuse(414);
      } else {
        var go, head;
        go, exit, head := ParseRequest(r.octets, 0);
        if go {
          if command == Some(GET) || command == Some(POST) {
            exit := Route(head, plan);
          } else {
            exit := Refuse(501);
          }
        }
      }
      if exit == TimedOut {
        closeConnection := true;
        exit := Normal;
      }
    }

    /** The request is one to be dispatched. */
    ghost predicate Dispatchable() {
      Good(0) &&
      var s := LineStart(input, 0, 0).value;
      var v := verb(input[s..LineEnd(input, s)]);
      v == GET || v == POST
    }

    ghost function DispatchedCode(plan: Plan): nat
      requires Dispatchable()
    {
      var s := LineStart(input, 0, 0).value;
      var e := LineEnd(input, s);
      ReplyCode(plan, verb(input[s..e]), HeadAt(s).length, |input| - Headers(input, e, 0).end)
    }

    /** A request is dispatched, and answered as its route has it, exactly if it is good
        and a GET or a POST; else it is refused. */
    ghost predicate AnsweredBy(plan: Plan, raised: bool) reads this`wire {
      if input == "" then wire == [] && !raised
      else if Dispatchable() then
        if raised then DispatchedCode(plan) == 500 && wire == []
        else wire != [] && wire[0] == Status(DispatchedCode(plan))
      else Refusal(wire) && !raised
    }

    /** handle_one_request.  On a socket that takes what is written, a request that
        sends at least one octet or runs out of clock gets exactly one final response,
        and the only thing that can prevent it is a route passing on an interim status
        it was given by the mint's port.  On any socket there is at most one. */
    method HandleOneRequest(plan: Plan)
      requires pos == 0 && wire == [] && relayed == None && !nine
      modifies this
      ensures Reply(wire) && Finals(wire) <= 1
      ensures calm ==>
        (Finals(wire) == 1 <==> (input != "" || timedOut) && !PassedOnInterim())
      ensures calm && !timedOut ==> AnsweredBy(plan, false)
    {
      answered, timedOut := false, false;
      var exit := BaseOneRequest(plan);
      if exit == Reset {
        closeConnection := true;
      } else if exit == Failed {
        closeConnection := true;
        if !answered { exit := Send(500); }
      }
      if timedOut && !answered {
        closeConnection := true;
        command, nine := None, false;
        exit := Send(408);
      }
      ReplyFinals(wire);
    }
  }
}
