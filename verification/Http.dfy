/** What the two HTTP servers share: how the standard library's request reader cuts
    lines and header blocks off the octet stream, and what may go out in answer to
    one request.  Octets are written as characters. */
module Http {
  import opened Wrappers

  const MAX_LINE: nat := 65536
  const MAX_HEADERS: nat := 100
  const MAX_BODY: nat := 1048576

  /** What a read comes to: octets, a TimeoutError or another OSError. */
  datatype Got = Got(octets: string) | ReadTimedOut | ReadReset

  // ------------------------------------------------------------- incoming --

  /** Where a readline of at most MAX_LINE + 1 octets stops. */
  function LineEnd(input: string, pos: nat): (e: nat)
    requires pos <= |input|
    ensures pos <= e <= |input| && e - pos <= MAX_LINE + 1
    ensures e == pos <==> pos == |input|
  {
    LineEndFrom(input, pos, pos)
  }

  function LineEndFrom(input: string, pos: nat, at: nat): (e: nat)
    requires pos <= at <= |input| && at - pos <= MAX_LINE + 1
    ensures at <= e <= |input| && e - pos <= MAX_LINE + 1
    ensures e == at <==> at == |input| || at - pos == MAX_LINE + 1
    decreases |input| - at
  {
    if at == |input| || at - pos == MAX_LINE + 1 then at
    else if input[at] == '\n' then at + 1
    else LineEndFrom(input, pos, at + 1)
  }

  /** It is a line: up to and with the first line feed, or 65537 octets, or all there is. */
  lemma {:induction false} LineEndIs(input: string, pos: nat)
    requires pos <= |input|
    ensures
      var e := LineEnd(input, pos);
      && pos <= e <= |input| && e - pos <= 65537 && (forall k :: pos <= k < e - 1 ==> input[k] != '\n')
      && (e == |input| || e - pos == 65537 || (e > pos && input[e - 1] == '\n'))
  {
    LineEndFromIs(input, pos, pos);
  }

  lemma {:induction false} LineEndFromIs(input: string, pos: nat, at: nat)
    requires pos <= at <= |input| && at - pos <= MAX_LINE + 1 && forall k :: pos <= k < at ==> input[k] != '\n'
    ensures
      var e := LineEndFrom(input, pos, at);
      && (forall k :: pos <= k < e - 1 ==> input[k] != '\n')
      && (e == |input| || e - pos == 65537 || (e > pos && input[e - 1] == '\n'))
    decreases |input| - at
  {
    if at < |input| && at - pos != MAX_LINE + 1 && input[at] != '\n' { LineEndFromIs(input, pos, at + 1); }
  }

  predicate EmptyLine(line: string) { line == "\r\n" || line == "\n" || line == "\r" }

  /** The header block: where it ends, and whether an empty line ended it (the reader
      takes the end of the stream for an empty line), or that it is too big. */
  datatype Block = Block(end: nat, ended: bool) | TooBig(at: nat)

  function Headers(input: string, pos: nat, n: nat): (b: Block)
    requires pos <= |input| && n <= 100
    ensures b.Block? ==> pos <= b.end <= |input| && (!b.ended ==> b.end == |input|)
    ensures b.TooBig? ==> pos <= b.at <= |input|
    decreases 100 - n
  {
    var e := LineEnd(input, pos);
    var line := input[pos..e];
    if |line| > 65536 || n == 100 then TooBig(e)
    else if line == "\r\n" || line == "\n" then Block(e, true)
    else if line == "" then Block(e, false)
    else Headers(input, e, n + 1)
  }

  // ------------------------------------------------------------- outgoing --

  /** One write.  `Cut` is a write that failed with some of it possibly sent. */
  datatype Wire = Interim | Status(code: nat) | Body | Cut

  /** A final response: a status line and header block, then its body; nothing after
      a failed write. */
  predicate Answer(w: seq<Wire>) {
    |w| == 0 || (|w| == 1 && w[0] == Cut) ||
    (|w| <= 2 && w[0].Status? && w[0].code >= 200 && (|w| == 2 ==> w[1] == Body || w[1] == Cut))
  }

  /** All that may go out for one request: at most one 100 Continue, before at most
      one final response. */
  predicate Exchange(w: seq<Wire>) {
    Answer(w) || (w[0] == Interim && Answer(w[1..]))
  }

  predicate Whole(w: seq<Wire>, headOnly: bool) {
    Exchange(w) && w != [] && (w[|w| - 1] == Body || (headOnly && w[|w| - 1].Status?))
  }

  predicate Final(w: Wire) { w.Status? && w.code >= 200 }

  /** How many final responses were begun. */
  function Finals(w: seq<Wire>): nat {
    if w == [] then 0 else Finals(w[..|w| - 1]) + if Final(w[|w| - 1]) then 1 else 0
  }

  /** In these shapes there is at most one final response, a 100 Continue can only
      come first, and a failed write is the last thing on the wire. */
  lemma {:induction false} ExchangeMeans(w: seq<Wire>)
    requires Exchange(w)
    ensures Finals(w) <= 1
    ensures forall i :: 0 <= i < |w| && w[i] == Interim ==> i == 0
    ensures forall i :: 0 <= i < |w| && w[i] == Cut ==> i == |w| - 1
    ensures forall i :: 0 <= i < |w| && w[i] == Body ==> i == |w| - 1 && i > 0 && w[i - 1].Status?
  {
    if !Answer(w) {
      assert w == [Interim] + w[1..];
      assert forall i :: 1 <= i < |w| ==> w[i] == w[1..][i - 1];
    }
    FinalsCount(w);
  }

  lemma {:induction false} FinalsCount(w: seq<Wire>)
    requires |w| <= 3 && forall i, j :: 0 <= i < j < |w| ==> !(Final(w[i]) && Final(w[j]))
    ensures Finals(w) <= 1
    ensures (forall i :: 0 <= i < |w| ==> !Final(w[i])) ==> Finals(w) == 0
    decreases |w|
  {
    if w != [] {
      var v := w[..|w| - 1];
      FinalsCount(v);
      assert forall i :: 0 <= i < |v| ==> v[i] == w[i];
    }
  }

  lemma {:induction false} WholeHasOneFinal(w: seq<Wire>, headOnly: bool)
    requires Whole(w, headOnly)
    ensures Finals(w) == 1
  {
    ExchangeMeans(w);
    var n := |w| - 1;
    if w[n] == Body {
      assert w[..n][n - 1] == w[n - 1];
    }
  }
}
