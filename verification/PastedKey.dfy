/** Which pasted strings open the page, and which are diagnosed as the key with
    whitespace in it (gui/app.py, `_trimmed` and `_Auth`). */
module PastedKey {

  const EDGE_MAX := 8

  /** The whitespace a terminal copy adds. */
  predicate IsEdge(c: char) { c in " \t\r\n" }

  /** The whitespace str.split() splits on, which is much more. */
  predicate IsSpace(c: char) {
    var n := c as int;
    || 9 <= n <= 13 || 28 <= n <= 32 || n == 0x85 || n == 0xA0 || n == 0x1680 || 0x2000 <= n <= 0x200A
    || n == 0x2028 || n == 0x2029 || n == 0x202F || n == 0x205F || n == 0x3000
  }

  predicate Edges(s: string, i: nat, j: nat)
    requires i <= j <= |s|
  {
    forall k | i <= k < j :: s[k] == ' ' || s[k] == '\t' || s[k] == '\r' || s[k] == '\n'
  }

  predicate SpaceFree(s: string) { forall i | 0 <= i < |s| :: !IsSpace(s[i]) }

  /** Python's whitespace, character by character. */
  predicate Listed(n: int) {
    n in {9, 10, 11, 12, 13, 28, 29, 30, 31, 32, 0x85, 0xA0, 0x1680, 0x2000, 0x2001, 0x2002, 0x2003, 0x2004, 0x2005,
          0x2006, 0x2007, 0x2008, 0x2009, 0x200A, 0x2028, 0x2029, 0x202F, 0x205F, 0x3000}
  }

  lemma {:induction false} SpaceIs(c: char)
    ensures IsSpace(c) <==> Listed(c as int)
  {
  }

  /** What secrets.token_urlsafe gives, as far as this module cares. */
  predicate IsKey(key: string) { key != "" && SpaceFree(key) }

  /** The first character from `i` on that is not edge whitespace. */
  function Head(s: string, i: nat): (n: nat)
    requires i <= |s|
    ensures i <= n <= |s| && Edges(s, i, n) && (n < |s| ==> !IsEdge(s[n]))
    decreases |s| - i
  {
    if i < |s| && IsEdge(s[i]) then Head(s, i + 1) else i
  }

  /** The end of what is left before `j` without the edge whitespace there. */
  function Tail(s: string, j: nat): (n: nat)
    requires j <= |s|
    ensures n <= j && Edges(s, n, j) && (n > 0 ==> !IsEdge(s[n - 1]))
  {
    if j > 0 && IsEdge(s[j - 1]) then Tail(s, j - 1) else j
  }

  /** All the edge whitespace goes, or, where there is more than the bound at an end,
      none of it. */
  function Trim(s: string): string {
    var a, e := Head(s, 0), Tail(s, |s|);
    if a > EDGE_MAX || (a < |s| && |s| - e > EDGE_MAX) then s
    else if a == |s| then "" else s[a..e]
  }

  lemma {:induction false} HeadIs(s: string, n: nat)
    requires n <= |s| && Edges(s, 0, n)
    ensures Head(s, 0) >= n
    ensures n < |s| && !IsEdge(s[n]) ==> Head(s, 0) == n
  {
  }

  lemma {:induction false} TailIs(s: string, n: nat)
    requires n <= |s| && Edges(s, n, |s|)
    ensures Tail(s, |s|) <= n
    ensures n > 0 && !IsEdge(s[n - 1]) ==> Tail(s, |s|) == n
  {
  }

  /** _trimmed, on a string. */
  method Trimmed(value: string) returns (r: string)
    ensures r == Trim(value)
  {
    var start, end := 0, |value|;
    while start < end && IsEdge(value[start]) && start < EDGE_MAX
      invariant 0 <= start <= end == |value| && start <= EDGE_MAX && Edges(value, 0, start)
    {
      start := start + 1;
    }
    var stop := 0;
    while end > start && IsEdge(value[end - 1]) && stop < EDGE_MAX
      invariant start <= end <= |value| && stop == |value| - end && stop <= EDGE_MAX && Edges(value, end, |value|)
    {
      end := end - 1;
      stop := stop + 1;
    }
    HeadIs(value, start);
    TailIs(value, end);
    if start >= EDGE_MAX && start < |value| && IsEdge(value[start]) {
      HeadIs(value, start + 1);
      return value;
    }
    if stop >= EDGE_MAX && end > start && IsEdge(value[end - 1]) {
      TailIs(value, end - 1);
      return value;
    }
    return value[start..end];
  }

  /** "".join(s.split()): every whitespace character gone. */
  function Squeeze(s: string): (r: string)
    ensures SpaceFree(r)
  {
    if s == "" then "" else (if IsSpace(s[0]) then "" else [s[0]]) + Squeeze(s[1..])
  }

  lemma {:induction false} SqueezeConcat(a: string, b: string)
    ensures Squeeze(a + b) == Squeeze(a) + Squeeze(b)
  {
    hide IsSpace;
    if a == "" {
      assert a + b == b;
    } else {
      SqueezeConcat(a[1..], b);
      assert (a + b)[1..] == a[1..] + b;
      var first := if IsSpace(a[0]) then "" else [a[0]];
      assert first + (Squeeze(a[1..]) + Squeeze(b)) == (first + Squeeze(a[1..])) + Squeeze(b);
    }
  }

  lemma {:induction false} SqueezeEdge(s: string)
    requires Edges(s, 0, |s|)
    ensures Squeeze(s) == ""
  {
    if s != "" {
      assert IsEdge(s[0]);
      SqueezeEdge(s[1..]);
    }
  }

  lemma {:induction false} SqueezeFree(s: string)
    requires SpaceFree(s)
    ensures Squeeze(s) == s
  {
    if s != "" { SqueezeFree(s[1..]); }
  }

  /** key_ok, where authentication is on. */
  predicate KeyOk(key: string, s: string) { Trim(s) == key }

  /** key_is_whitespace_damaged. */
  predicate Damaged(key: string, s: string) { Squeeze(s) != Trim(s) && Squeeze(s) == key }

  /** The key, cut at `i`, with at most EDGE_MAX edge characters at each end. */
  predicate KeyAt(key: string, s: string, i: nat) {
    var j := i + |key|;
    j <= |s| && s[i..j] == key && i <= 8 && |s| - j <= 8 && Edges(s, 0, i) && Edges(s, j, |s|)
  }

  lemma {:induction false} OpensWhere(key: string, s: string)
    requires IsKey(key) && KeyOk(key, s)
    ensures KeyAt(key, s, Head(s, 0))
  {
    var a, e := Head(s, 0), Tail(s, |s|);
    if s == key {
      assert !IsSpace(key[0]) && !IsSpace(key[|key| - 1]);
      assert a == 0 && e == |s|;
      assert s[0..|s|] == s;
    }
  }

  lemma {:induction false} OpensAt(key: string, s: string, i: nat)
    requires IsKey(key) && KeyAt(key, s, i)
    ensures KeyOk(key, s)
  {
    var j := i + |key|;
    assert s[i] == key[0] && s[j - 1] == key[|key| - 1];
    assert !IsSpace(s[i]) && !IsSpace(s[j - 1]);
    HeadIs(s, i);
    TailIs(s, j);
  }

  /** Exactly the strings that are the key between short runs of edge whitespace open
      the page. */
  lemma {:induction false} KeyOkExactly(key: string, s: string)
    requires IsKey(key)
    ensures KeyOk(key, s) <==> exists i: nat :: KeyAt(key, s, i)
  {
    hide KeyOk, KeyAt;
    if KeyOk(key, s) { OpensWhere(key, s); }
    forall i: nat | KeyAt(key, s, i) ensures KeyOk(key, s) { OpensAt(key, s, i); }
  }

  /** What opens the page is the key once all whitespace is gone; and the diagnosis is
      given to exactly the other strings of which that is true, which are those with
      whitespace that is not edge whitespace, or too much of it, or inside. */
  lemma {:induction false} DamagedExactly(key: string, s: string)
    requires IsKey(key)
    ensures KeyOk(key, s) ==> Squeeze(s) == key
    ensures Damaged(key, s) <==> Squeeze(s) == key && !exists i: nat :: KeyAt(key, s, i)
  {
    hide IsSpace, IsEdge, Squeeze, Head, Trim;
    KeyOkExactly(key, s);
    if KeyOk(key, s) {
      OpensWhere(key, s);
      var i := Head(s, 0);
      var j := i + |key|;
      assert s == s[..i] + key + s[j..];
      SqueezeConcat(s[..i] + key, s[j..]);
      SqueezeConcat(s[..i], key);
      SqueezeEdge(s[..i]);
      SqueezeEdge(s[j..]);
      SqueezeFree(key);
    }
  }
}
