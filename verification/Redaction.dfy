/** What a log line may show of a credential (gui/mintctl.py, `_redact` and
    `_remember_token`). */
module Redaction {
  import opened Wrappers

  const REDACTED := "<admin token redacted>"
  const MIN_RUN := 16
  const MAX_DIGESTS := 200

  /** The alphabet of a generated credential. */
  predicate IsCred(c: char) {
    'A' <= c <= 'Z' || 'a' <= c <= 'z' || '0' <= c <= '9' || c == '_' || c == '-'
  }

  predicate AllCred(s: string) { forall i | 0 <= i < |s| :: IsCred(s[i]) }

  datatype Known<!D> = Known(digest: string -> D, digests: set<D>)

  /** Long enough to be looked at, and the digest of it is one on record. */
  predicate Matches<D(==)>(k: Known<D>, run: string) {
    |run| >= MIN_RUN && k.digest(run) in k.digests
  }

  function Mask<D(==)>(k: Known<D>, run: string): string {
    if Matches(k, run) then REDACTED else run
  }

  /** Where the run of credential characters that starts at 0 ends. */
  function RunEnd(s: string): (n: nat)
    ensures n <= |s| && AllCred(s[..n]) && (n < |s| ==> !IsCred(s[n]))
  {
    if s != "" && IsCred(s[0]) then
      var n := 1 + RunEnd(s[1..]);
      assert s[..n] == [s[0]] + s[1..][..n - 1];
      n
    else 0
  }

  /** _TOKENISH.sub over the text: each run, as far as it goes. */
  function Redact<D(==)>(k: Known<D>, s: string): string
    decreases |s|
  {
    if s == "" then ""
    else if !IsCred(s[0]) then [s[0]] + Redact(k, s[1..])
    else
      var n := RunEnd(s);
      Mask(k, s[..n]) + Redact(k, s[n..])
  }

  predicate InAlphabet(c: char) {
    c in {'A', 'B', 'C', 'D', 'E', 'F', 'G', 'H', 'I', 'J', 'K', 'L', 'M', 'N', 'O', 'P', 'Q', 'R',
      'S', 'T', 'U', 'V', 'W', 'X', 'Y', 'Z', 'a', 'b', 'c', 'd', 'e', 'f', 'g', 'h', 'i', 'j',
      'k', 'l', 'm', 'n', 'o', 'p', 'q', 'r', 's', 't', 'u', 'v', 'w', 'x', 'y', 'z', '0', '1',
      '2', '3', '4', '5', '6', '7', '8', '9', '_', '-'}
  }

  /** s[i..j] is a whole run of those 64 characters. */
  predicate Run(s: string, i: int, j: int) {
    && 0 <= i < j <= |s| && (forall k | i <= k < j :: InAlphabet(s[k]))
    && (i > 0 ==> !InAlphabet(s[i - 1])) && (j < |s| ==> !InAlphabet(s[j]))
  }

  /** The same by the ranges of `_TOKENISH`. */
  predicate CredRun(s: string, i: int, j: int) {
    && 0 <= i < j <= |s| && (forall k | i <= k < j :: IsCred(s[k]))
    && (i > 0 ==> !IsCred(s[i - 1])) && (j < |s| ==> !IsCred(s[j]))
  }

  lemma {:induction false} AlphabetIs(c: char)
    ensures InAlphabet(c) <==> IsCred(c)
  {
  }

  lemma {:induction false} RunIs(s: string, i: int, j: int)
    ensures Run(s, i, j) <==> CredRun(s, i, j)
  {
    hide IsCred, InAlphabet;
    forall c ensures InAlphabet(c) <==> IsCred(c) { AlphabetIs(c); }
  }

  ghost predicate Clean<D>(k: Known<D>, s: string) {
    forall i, j :: CredRun(s, i, j) ==> !Matches(k, s[i..j])
  }

  lemma {:induction false} CleanIs<D>(k: Known<D>, s: string)
    ensures Clean(k, s) <==> forall i, j :: Run(s, i, j) ==> |s[i..j]| < 16 || k.digest(s[i..j]) !in k.digests
  {
    hide IsCred, InAlphabet, CredRun, Run;
    forall i, j ensures Run(s, i, j) <==> CredRun(s, i, j) { RunIs(s, i, j); }
    forall i, j ensures CredRun(s, i, j) ==> 0 <= i < j <= |s| { InText(s, i, j); }
  }

  lemma {:induction false} InText(s: string, i: int, j: int)
    ensures CredRun(s, i, j) ==> 0 <= i < j <= |s|
  {
  }

  /** No run straddles the place where `b` follows `a`. */
  predicate Apart(a: string, b: string) {
    a != "" && b != "" ==> !(IsCred(a[|a| - 1]) && IsCred(b[0]))
  }

  lemma {:induction false} RunEndIs(s: string, n: nat)
    requires n <= |s| && AllCred(s[..n]) && (n < |s| ==> !IsCred(s[n]))
    ensures RunEnd(s) == n
  {
    if n > 0 {
      assert s[..n][0] == s[0];
      assert s[1..][..n - 1] == s[..n][1..];
      RunEndIs(s[1..], n - 1);
    }
  }

  /** A run of its own is masked as a whole. */
  lemma {:induction false} RedactRun<D>(k: Known<D>, run: string)
    requires AllCred(run)
    ensures Redact(k, run) == Mask(k, run)
  {
    if run == "" {
    } else {
      assert run[..|run|] == run;
      RunEndIs(run, |run|);
      assert run[|run|..] == "";
    }
  }

  lemma {:induction false} RunEndConcat(a: string, b: string)
    requires Apart(a, b) && a != "" && IsCred(a[0])
    ensures
      var n := RunEnd(a);
      && 0 < n == RunEnd(a + b) && (a + b)[..n] == a[..n] && (a + b)[n..] == a[n..] + b && Apart(a[n..], b)
  {
    hide IsCred;
    var n := RunEnd(a);
    assert (a + b)[..n] == a[..n];
    assert (a + b)[n..] == a[n..] + b;
    if n == |a| {
      assert a[..n][n - 1] == a[n - 1];
    } else {
      assert (a + b)[n] == a[n];
    }
    RunEndIs(a + b, n);
  }

  /** Text that does not share a run is redacted part by part. */
  lemma {:induction false} RedactConcat<D>(k: Known<D>, a: string, b: string)
    requires Apart(a, b)
    ensures Redact(k, a + b) == Redact(k, a) + Redact(k, b)
    decreases |a|
  {
    if a == "" {
      assert a + b == b;
    } else if !IsCred(a[0]) {
      RedactConcat(k, a[1..], b);
      assert (a + b)[1..] == a[1..] + b;
    } else {
      var n := RunEnd(a);
      RunEndConcat(a, b);
      RedactConcat(k, a[n..], b);
    }
  }

  lemma {:induction false} RunSplits(a: string, b: string, i: int, j: int)
    requires Apart(a, b) && CredRun(a + b, i, j)
    ensures
      || (j <= |a| && CredRun(a, i, j) && (a + b)[i..j] == a[i..j])
      || (i >= |a| && CredRun(b, i - |a|, j - |a|) && (a + b)[i..j] == b[i - |a|..j - |a|])
  {
    hide IsCred;
    var s := a + b;
    assert a != "" && b != "" ==> !(IsCred(s[|a| - 1]) && IsCred(s[|a|]));
    assert s[..|a|] == a && s[|a|..] == b;
    if j <= |a| { RunInPrefix(s, |a|, i, j); } else { RunInSuffix(s, |a|, i, j); }
  }

  lemma {:induction false} RunInPrefix(s: string, n: nat, i: int, j: int)
    requires n <= |s| && j <= n && CredRun(s, i, j)
    ensures CredRun(s[..n], i, j) && s[i..j] == s[..n][i..j]
  {
    hide IsCred;
    assert forall k :: 0 <= k < n ==> s[..n][k] == s[k];
  }

  lemma {:induction false} RunInSuffix(s: string, n: nat, i: int, j: int)
    requires n <= i && CredRun(s, i, j)
    ensures CredRun(s[n..], i - n, j - n) && s[i..j] == s[n..][i - n..j - n]
  {
    hide IsCred;
    assert forall k :: 0 <= k < |s| - n ==> s[n..][k] == s[n + k];
  }

  lemma {:induction false} CleanConcat<D>(k: Known<D>, a: string, b: string)
    requires Apart(a, b) && Clean(k, a) && Clean(k, b)
    ensures Clean(k, a + b)
  {
    forall i, j | CredRun(a + b, i, j) ensures !Matches(k, (a + b)[i..j]) { RunSplits(a, b, i, j); }
  }

  lemma {:induction false} MaskIsClean<D>(k: Known<D>, run: string)
    requires AllCred(run)
    ensures Clean(k, Mask(k, run))
  {
    hide Redact;
    var m := Mask(k, run);
    forall i, j | CredRun(m, i, j) ensures !Matches(k, m[i..j]) {
      if !Matches(k, run) {
        assert i == 0 && j == |run|;
        assert run[0..|run|] == run;
      } else {
        assert !IsCred(REDACTED[6]) && !IsCred(REDACTED[12]);
      }
    }
  }

  lemma {:induction false} RedactIsClean<D>(k: Known<D>, s: string)
    ensures Clean(k, Redact(k, s))
    ensures s != "" && !IsCred(s[0]) ==> Redact(k, s) != "" && Redact(k, s)[0] == s[0]
    decreases |s|
  {
    if s == "" {
    } else if !IsCred(s[0]) {
      RedactIsClean(k, s[1..]);
      CleanConcat(k, [s[0]], Redact(k, s[1..]));
    } else {
      var n := RunEnd(s);
      RedactIsClean(k, s[n..]);
      MaskIsClean(k, s[..n]);
      if n < |s| { assert s[n..][0] == s[n]; }
      CleanConcat(k, Mask(k, s[..n]), Redact(k, s[n..]));
    }
  }

  /** After redaction no whole run of 16 or more has a digest on record. */
  lemma {:induction false} NothingLeft<D>(k: Known<D>, s: string)
    ensures var t := Redact(k, s);
      forall i, j :: Run(t, i, j) && j - i >= 16 ==> k.digest(t[i..j]) !in k.digests
  {
    hide IsCred, InAlphabet, CredRun, Clean, Redact;
    RedactIsClean(k, s);
    CleanIs(k, Redact(k, s));
  }

  /** Text is left as it is exactly when it holds no such run. */
  lemma {:induction false} UntouchedExactly<D>(k: Known<D>, s: string)
    ensures Redact(k, s) == s <==> forall i, j :: Run(s, i, j) && j - i >= 16 ==> k.digest(s[i..j]) !in k.digests
  {
    hide IsCred, InAlphabet, CredRun, Clean, Redact;
    RedactIsClean(k, s);
    CleanIs(k, s);
    if Clean(k, s) { CleanIsKept(k, s); }
  }

  lemma {:induction false} SuffixRun(s: string, n: nat, i: int, j: int)
    requires n <= |s| && (0 < n < |s| ==> !(IsCred(s[n - 1]) && IsCred(s[n])))
    requires CredRun(s[n..], i, j)
    ensures CredRun(s, n + i, n + j) && s[n..][i..j] == s[n + i..n + j]
  {
    hide IsCred;
    assert forall m :: n <= m < |s| ==> s[m] == s[n..][m - n];
    assert s[n..][i] == s[n + i];
  }

  lemma {:induction false} CleanIsKept<D>(k: Known<D>, s: string)
    requires Clean(k, s)
    ensures Redact(k, s) == s
    decreases |s|
  {
    hide IsCred, Matches, Clean, CredRun;
    if s != "" {
      var n := if IsCred(s[0]) then RunEnd(s) else 1;
      FirstIsKept(k, s, n);
      CleanIsKept(k, s[n..]);
      assert s == s[..n] + s[n..];
    }
  }

  /** The first run, or the first character, is kept, and the rest is clean as well. */
  lemma {:induction false} FirstIsKept<D>(k: Known<D>, s: string, n: nat)
    requires Clean(k, s) && s != "" && n == if IsCred(s[0]) then RunEnd(s) else 1
    ensures 0 < n <= |s| && Clean(k, s[n..]) && (IsCred(s[0]) ==> Mask(k, s[..n]) == s[..n])
  {
    hide IsCred, Matches;
    if IsCred(s[0]) {
      assert forall m :: 0 <= m < n ==> s[..n][m] == s[m];
      assert CredRun(s, 0, n) && s[0..n] == s[..n];
    }
    forall i, j | CredRun(s[n..], i, j) ensures !Matches(k, s[n..][i..j]) {
      SuffixRun(s, n, i, j);
    }
  }

  lemma {:induction false} Idempotent<D>(k: Known<D>, s: string)
    ensures Redact(k, Redact(k, s)) == Redact(k, s)
  {
    RedactIsClean(k, s);
    CleanIsKept(k, Redact(k, s));
  }

  lemma {:induction false} RunStandsApart(s: string, i: int, j: int)
    requires CredRun(s, i, j)
    ensures AllCred(s[i..j]) && Apart(s[..i], s[i..j] + s[j..]) && Apart(s[i..j], s[j..])
    ensures s == s[..i] + (s[i..j] + s[j..])
  {
    hide IsCred;
    var run, after := s[i..j], s[j..];
    assert forall m :: 0 <= m < |run| ==> run[m] == s[i + m];
    assert after != "" ==> after[0] == s[j];
    assert (run + after)[0] == s[i];
  }

  /** Each whole run is masked or kept on its own account, and the text on both sides is
      redacted as if it stood alone: nothing else changes. */
  lemma {:induction false} EachRunAlone<D>(k: Known<D>, s: string, i: int, j: int)
    requires Run(s, i, j)
    ensures
      var shown := if j - i >= 16 && k.digest(s[i..j]) in k.digests then "<admin token redacted>" else s[i..j];
      Redact(k, s) == Redact(k, s[..i]) + shown + Redact(k, s[j..])
  {
    hide IsCred, InAlphabet, CredRun;
    RunIs(s, i, j);
    RedactAround(k, s, i, j);
  }

  lemma {:induction false} RedactAround<D>(k: Known<D>, s: string, i: int, j: int)
    requires CredRun(s, i, j)
    ensures Redact(k, s) == Redact(k, s[..i]) + Mask(k, s[i..j]) + Redact(k, s[j..])
  {
    hide IsCred, Redact, Mask, Apart;
    var run, after := s[i..j], s[j..];
    RunStandsApart(s, i, j);
    RedactConcat(k, s[..i], run + after);
    RedactConcat(k, run, after);
    RedactRun(k, run);
    assert Redact(k, s[..i]) + (Redact(k, run) + Redact(k, after)) == Redact(k, s[..i]) + Redact(k, run) + Redact(k, after);
  }

  predicate At(t: string, x: nat, u: string) { x + |u| <= |t| && t[x..x + |u|] == u }

  /** A credential that stands anywhere in a run, alone or touching other characters of
      its alphabet, can still be read there after redaction exactly when the digest of
      the whole run is not on record, whatever its own is. */
  lemma {:induction false} CredentialShowsExactly<D>(k: Known<D>, s: string, i: int, j: int, a: int, b: int)
    requires Run(s, i, j) && i <= a && a + 16 <= b <= j
    ensures
      var shown := if k.digest(s[i..j]) in k.digests then "<admin token redacted>" else s[i..j];
      && Redact(k, s) == Redact(k, s[..i]) + shown + Redact(k, s[j..])
      && ((exists x: nat :: At(shown, x, s[a..b])) <==> k.digest(s[i..j]) !in k.digests)
  {
    hide Redact, IsCred, InAlphabet;
    RunIs(s, i, j);
    RedactAround(k, s, i, j);
    var run, u := s[i..j], s[a..b];
    if !Matches(k, run) {
      var x: nat := a - i;
      SliceOfSlice(s, i, j, a, b);
      assert At(run, x, u);
    } else {
      forall x: nat ensures !At(REDACTED, x, u) { NoCredentialIn(s, a, b, x); }
    }
    var shown := Mask(k, run);
    assert (exists x: nat :: At(shown, x, u)) <==> k.digest(run) !in k.digests;
  }

  lemma {:induction false} SliceOfSlice(s: string, i: int, j: int, a: int, b: int)
    requires 0 <= i <= a <= b <= j <= |s|
    ensures s[i..j][a - i..a - i + |s[a..b]|] == s[a..b]
  {
    var run := s[i..j];
    var u := run[a - i..b - i];
    assert forall m :: 0 <= m < j - i ==> run[m] == s[i + m];
    assert forall m :: 0 <= m < b - a ==> u[m] == run[a - i + m];
    assert u == s[a..b];
  }

  lemma {:induction false} NoCredentialIn(s: string, a: int, b: int, x: nat)
    requires 0 <= a && a + MIN_RUN <= b <= |s| && forall m | a <= m < b :: IsCred(s[m])
    ensures !At(REDACTED, x, s[a..b])
  {
    var u := s[a..b];
    assert forall m :: 0 <= m < |u| ==> u[m] == s[a + m] && IsCred(u[m]);
    assert !IsCred(REDACTED[6]) && !IsCred(REDACTED[12]);
    if x + |u| <= |REDACTED| {
      var at := if x <= 6 then 6 else 12;
      assert REDACTED[x..x + |u|][at - x] == REDACTED[at];
    }
  }

  // ---------------------------------------------------------- digest list --

  function Newest<D>(s: seq<D>, n: nat): seq<D> { if |s| <= n then s else s[|s| - n..] }

  function Recorded<D(==)>(known: seq<D>, d: D): seq<D> {
    if d in known then known else Newest(known + [d], MAX_DIGESTS)
  }

  /** The list after each of these was presented in turn. */
  function After<D(==)>(h: seq<D>): seq<D> {
    if h == [] then [] else Recorded(After(h[..|h| - 1]), h[|h| - 1])
  }

  /** Each digest once, in the order first presented. */
  function Firsts<D(==)>(h: seq<D>): seq<D> {
    if h == [] then []
    else
      var f, d := Firsts(h[..|h| - 1]), h[|h| - 1];
      if d in f then f else f + [d]
  }

  /** No digest that has been dropped from the list is presented again. */
  predicate NoneReturns<D(==)>(h: seq<D>) {
    h != [] ==>
      var f, d := Firsts(h[..|h| - 1]), h[|h| - 1];
      NoneReturns(h[..|h| - 1]) && (d in f ==> d in Newest(f, MAX_DIGESTS))
  }

  /** Always: no digest twice, at most 200, and the one just presented is among them. */
  lemma {:induction false} ListIsSound<D>(h: seq<D>)
    ensures Distinct(After(h)) && |After(h)| <= 200
    ensures h != [] ==> h[|h| - 1] in After(h)
    ensures forall d :: d in After(h) ==> d in h
  {
    if h != [] {
      var was, d := After(h[..|h| - 1]), h[|h| - 1];
      ListIsSound(h[..|h| - 1]);
      if d !in was {
        var all := was + [d];
        assert all[|all| - 1] == d;
        var now := Newest(all, MAX_DIGESTS);
        assert now[|now| - 1] == d;
        forall x | x in now ensures x in h {
          assert x in all;
          if x != d { assert x in was; }
        }
      }
    }
  }

  lemma {:induction false} NewestOfNewest<D>(f: seq<D>, d: D, n: nat)
    requires n > 0
    ensures Newest(Newest(f, n) + [d], n) == Newest(f + [d], n)
  {
  }

  lemma {:induction false} ListIfNoneReturns<D>(h: seq<D>)
    requires NoneReturns(h)
    ensures After(h) == Newest(Firsts(h), MAX_DIGESTS)
  {
    if h != [] {
      ListIfNoneReturns(h[..|h| - 1]);
      NewestOfNewest(Firsts(h[..|h| - 1]), h[|h| - 1], MAX_DIGESTS);
    }
  }

  lemma {:induction false} ReturnShows<D>(h: seq<D>)
    requires h != [] && NoneReturns(h[..|h| - 1]) && !NoneReturns(h)
    ensures After(h) != Newest(Firsts(h), MAX_DIGESTS)
  {
    ListIfNoneReturns(h[..|h| - 1]);
    ListIsSound(h);
  }

  /** The list is the 200 most recently first-presented digests all along exactly when
      none returns after being dropped. */
  lemma {:induction false} ListExactly<D>(h: seq<D>)
    ensures NoneReturns(h) <==> forall n | 0 <= n <= |h| ::
      var f := Firsts(h[..n]); After(h[..n]) == if |f| <= 200 then f else f[|f| - 200..]
  {
    if NoneReturns(h) {
      forall n | 0 <= n <= |h| ensures After(h[..n]) == Newest(Firsts(h[..n]), MAX_DIGESTS) {
        PrefixNoneReturns(h, n);
        ListIfNoneReturns(h[..n]);
      }
    } else {
      var n := FirstReturn(h);
      assert h[..n][..n - 1] == h[..n - 1];
      ReturnShows(h[..n]);
    }
  }

  lemma {:induction false} PrefixNoneReturns<D>(h: seq<D>, n: nat)
    requires n <= |h| && NoneReturns(h)
    ensures NoneReturns(h[..n])
  {
    if n == |h| {
      assert h[..n] == h;
    } else {
      PrefixNoneReturns(h[..|h| - 1], n);
      assert h[..|h| - 1][..n] == h[..n];
    }
  }

  lemma {:induction false} FirstReturn<D>(h: seq<D>) returns (n: nat)
    requires !NoneReturns(h)
    ensures 0 < n <= |h| && NoneReturns(h[..n - 1]) && !NoneReturns(h[..n])
  {
    if NoneReturns(h[..|h| - 1]) {
      n := |h|;
      assert h[..n] == h;
    } else {
      n := FirstReturn(h[..|h| - 1]);
      assert h[..|h| - 1][..n - 1] == h[..n - 1] && h[..|h| - 1][..n] == h[..n];
    }
  }

  /** The digest file of one workdir. */
  class TokenDigests<D(==)> {
    var known: seq<D>

    constructor ()
      ensures known == []
    {
      known := [];
    }

    /** _remember_token: what it records, which may fail to reach the file, and what
        the redaction that follows will use.  A file that cannot be read back counts as
        empty. */
    method Remember(digest: Option<D>, readable: bool, writable: bool) returns (all: set<D>)
      modifies this
      ensures digest.Some? ==> digest.value in all
      ensures
        var was := if readable then old(known) else [];
        var isNew := digest.Some? && digest.value !in was;
        var longer := if isNew then was + [digest.value] else was;
        var now := if isNew && |longer| > 200 then longer[|longer| - 200..] else longer;
        all == (set d | d in now) && known == if isNew && writable then now else old(known)
      ensures digest.Some? && readable && writable ==> known == Recorded(old(known), digest.value)
    {
      var now := if readable then known else [];
      if digest.Some? && digest.value !in now {
        now := now + [digest.value];
        if |now| > MAX_DIGESTS { now := now[|now| - MAX_DIGESTS..]; }
        assert now[|now| - 1] == digest.value;
        if writable { known := now; }
      }
      all := set d | d in now;
    }
  }
}
