/** The unredeemed-value report: the route's totals (gui/app.py, `route_wallet_outstanding`)
    over what the wallet component sends (gui/walletops.py). */
module UnredeemedReport {
  import opened Wrappers

  // ------------------------------------------------------------- the route --

  /** What the mint said about a string; `Unasked` is a missing or unknown word. */
  datatype State = Unspent | Spent | Unknown | Unasked

  datatype Token = Token(amount: Option<int>, state: State)

  /** The component's answer, item by item; what is not a record is skipped. */
  datatype Cell = NotAToken | Cell(token: Token)

  datatype Row = NotAPayment | Row(tokens: seq<Cell>)

  datatype Raw = Raw(rows: seq<Row>, checked: bool, unlisted: Option<int>, count: Option<int>, truncated: Option<bool>)

  datatype Report = Report(truncated: bool, unspent: int, spent: int, unstated: int, unchecked: int,
                           unredeemed: Option<int>)

  function Tokens(cells: seq<Cell>): seq<Token> {
    if cells == [] then []
    else Tokens(cells[..|cells| - 1]) + (if cells[|cells| - 1].Cell? then [cells[|cells| - 1].token] else [])
  }

  /** Every token the response lists, in order. */
  function Listed(rows: seq<Row>): seq<Token> {
    if rows == [] then []
    else Listed(rows[..|rows| - 1]) + (if rows[|rows| - 1].Row? then Tokens(rows[|rows| - 1].tokens) else [])
  }

  /** How many payments that is. */
  function Payments(rows: seq<Row>): nat {
    if rows == [] then 0 else Payments(rows[..|rows| - 1]) + (if rows[|rows| - 1].Row? then 1 else 0)
  }

  function Value(t: Token): int { if t.amount.Some? then t.amount.value else 0 }

  function In(ts: seq<Token>, s: State): int {
    if ts == [] then 0 else In(ts[..|ts| - 1], s) + (if ts[|ts| - 1].state == s then Value(ts[|ts| - 1]) else 0)
  }

  function Total(ts: seq<Token>): int {
    if ts == [] then 0 else Total(ts[..|ts| - 1]) + Value(ts[|ts| - 1])
  }

  predicate Truncated(raw: Raw, limit: int) {
    match raw.truncated
    case Some(b) => b
    case None => if raw.count.Some? then raw.count.value > Payments(raw.rows) else Payments(raw.rows) >= limit
  }

  predicate Fits(raw: Raw, limit: int) {
    if raw.unlisted.Some? then raw.unlisted.value == 0 else !Truncated(raw, limit)
  }

  predicate Complete(raw: Raw) {
    raw.checked && In(Listed(raw.rows), Unknown) == 0 && In(Listed(raw.rows), Unasked) == 0
  }

  function Headline(raw: Raw, limit: int): Option<int> {
    if Complete(raw) && Fits(raw, limit) then Some(In(Listed(raw.rows), Unspent)) else None
  }

  /** The limit asked for, as the route bounds it; none that can be read, or 0, is 20. */
  function Bounded(asked: Option<int>): (n: int)
    ensures 1 <= n <= 100
  {
    var limit := if asked.None? || asked.value == 0 then 20 else asked.value;
    if limit < 1 then 1 else if limit > 100 then 100 else limit
  }

  lemma {:induction false} BucketsSum(ts: seq<Token>)
    ensures In(ts, Unspent) + In(ts, Spent) + In(ts, Unknown) + In(ts, Unasked) == Total(ts)
  {
    if ts != [] { BucketsSum(ts[..|ts| - 1]); }
  }

  lemma {:induction false} InConcat(a: seq<Token>, b: seq<Token>, s: State)
    ensures In(a + b, s) == In(a, s) + In(b, s)
  {
    if b == [] {
      assert a + b == a;
    } else {
      assert (a + b)[..|a + b| - 1] == a + b[..|b| - 1];
      InConcat(a, b[..|b| - 1], s);
    }
  }

  type Totals = map<State, int>

  ghost predicate Sums(byState: Totals, ts: seq<Token>) {
    forall s: State :: s in byState && byState[s] == In(ts, s)
  }

  lemma {:induction false} NothingYet(byState: Totals)
    requires forall s: State :: s in byState && byState[s] == 0
    ensures Sums(byState, [])
  {
  }

  lemma {:induction false} OneMore(byState: Totals, ts: seq<Token>, t: Token)
    requires Sums(byState, ts)
    ensures Sums(byState[t.state := byState[t.state] + Value(t)], ts + [t])
  {
    assert (ts + [t])[..|ts|] == ts;
  }

  lemma {:induction false} HeadlineIs(raw: Raw, limit: int, byState: Totals)
    requires Sums(byState, Listed(raw.rows))
    ensures Headline(raw, limit) ==
      if raw.checked && byState[Unknown] == 0 && byState[Unasked] == 0 && Fits(raw, limit)
      then Some(byState[Unspent]) else None
  {
  }

  method AddTokens(byState: Totals, ghost before: seq<Token>, cells: seq<Cell>) returns (now: Totals)
    requires Sums(byState, before)
    ensures Sums(now, before + Tokens(cells))
  {
    hide In, Sums;
    now := byState;
    assert before + Tokens([]) == before;
    assert cells[..0] == [];
    for j := 0 to |cells|
      invariant Sums(now, before + Tokens(cells[..j]))
    {
      assert cells[..j + 1][..j] == cells[..j];
      if cells[j].Cell? {
        var t := cells[j].token;
        OneMore(now, before + Tokens(cells[..j]), t);
        SumsHas(now, before + Tokens(cells[..j]), t.state);
        assert before + Tokens(cells[..j]) + [t] == before + (Tokens(cells[..j]) + [t]);
        now := now[t.state := now[t.state] + Value(t)];
      } else {
        assert Tokens(cells[..j]) + [] == Tokens(cells[..j]);
      }
    }
    assert cells[..|cells|] == cells;
  }

  lemma {:induction false} SumsHas(byState: Totals, ts: seq<Token>, s: State)
    requires Sums(byState, ts)
    ensures s in byState && byState[s] == In(ts, s)
  {
  }

  /** The totals of route_wallet_outstanding, summed row by row. */
  method Outstanding(raw: Raw, asked: Option<int>) returns (r: Report)
    ensures r.unspent == In(Listed(raw.rows), Unspent) && r.spent == In(Listed(raw.rows), Spent)
    ensures r.unstated == In(Listed(raw.rows), Unknown) && r.unchecked == In(Listed(raw.rows), Unasked)
    ensures r.unspent + r.spent + r.unstated + r.unchecked == Total(Listed(raw.rows))
    ensures
      var n := if asked.None? || asked.value == 0 then 20 else asked.value;
      var limit := if n < 1 then 1 else if n > 100 then 100 else n;
      r.truncated == Truncated(raw, limit) && r.unredeemed == Headline(raw, limit)
  {
    hide In, Total, Headline, Tokens;
    var limit := Bounded(asked);
    var byState: Totals := map[Unspent := 0, Spent := 0, Unknown := 0, Unasked := 0];
    var payments := 0;
    forall s: State ensures s in byState && byState[s] == 0 {
      match s { case Unspent => case Spent => case Unknown => case Unasked => }
    }
    NothingYet(byState);
    assert raw.rows[..0] == [];
    for i := 0 to |raw.rows|
      invariant payments == Payments(raw.rows[..i]) && Sums(byState, Listed(raw.rows[..i]))
    {
      assert raw.rows[..i + 1][..i] == raw.rows[..i];
      if raw.rows[i].Row? {
        byState := AddTokens(byState, Listed(raw.rows[..i]), raw.rows[i].tokens);
        payments := payments + 1;
      } else {
        assert Listed(raw.rows[..i]) + [] == Listed(raw.rows[..i]);
      }
    }
    assert raw.rows[..|raw.rows|] == raw.rows;
    BucketsSum(Listed(raw.rows));
    var truncated := match raw.truncated
      case Some(b) => b
      case None => if raw.count.Some? then raw.count.value > payments else payments >= limit;
    var complete := raw.checked && byState[Unknown] == 0 && byState[Unasked] == 0;
    var fits := if raw.unlisted.Some? then raw.unlisted.value == 0 else !truncated;
    r := Report(truncated, byState[Unspent], byState[Spent], byState[Unknown], byState[Unasked],
                if complete && fits then Some(byState[Unspent]) else None);
    assert r.unredeemed == Headline(raw, limit) by { HeadlineIs(raw, limit, byState); }
  }

  // --------------------------------------------------- the wallet behind it --

  /** A string handed out: what it is worth, whether the store still has it as handed
      over, and whether it can still be redeemed.  The store retires only what the mint
      called spent. */
  datatype Coin = Coin(amount: nat, handedOver: bool, unspent: bool)

  predicate RealCoin(c: Coin) { c.amount > 0 && (c.unspent ==> c.handedOver) }

  type Wallet = seq<seq<Coin>>

  predicate RealPayment(p: seq<Coin>) { forall j | 0 <= j < |p| :: RealCoin(p[j]) }

  predicate RealWallet(w: Wallet) { forall p | p in w :: RealPayment(p) }

  function OutOf(p: seq<Coin>): nat {
    if p == [] then 0 else (if p[0].handedOver then p[0].amount else 0) + OutOf(p[1..])
  }

  function LiveOf(p: seq<Coin>): nat {
    if p == [] then 0 else (if p[0].unspent then p[0].amount else 0) + LiveOf(p[1..])
  }

  function Outgoing(w: Wallet): nat { if w == [] then 0 else OutOf(w[0]) + Outgoing(w[1..]) }

  /** The value this wallet paid out that nobody has redeemed. */
  function Unredeemed(w: Wallet): nat { if w == [] then 0 else LiveOf(w[0]) + Unredeemed(w[1..]) }

  function WithValueOut(w: Wallet): Wallet {
    if w == [] then [] else (if OutOf(w[0]) > 0 then [w[0]] else []) + WithValueOut(w[1..])
  }

  function AllRetired(w: Wallet): Wallet {
    if w == [] then [] else (if OutOf(w[0]) == 0 then [w[0]] else []) + AllRetired(w[1..])
  }

  /** The component's list: payments with value still out first. */
  function Ranked(w: Wallet): Wallet { WithValueOut(w) + AllRetired(w) }

  function Window(w: Wallet, limit: nat): Wallet { if |Ranked(w)| <= limit then Ranked(w) else Ranked(w)[..limit] }

  /** One string's line: its true worth, or none given, and the mint's true word or none. */
  predicate Honest(t: Token, c: Coin) {
    && (t.amount.Some? ==> t.amount.value == c.amount)
    && (t.state == Unspent ==> c.unspent) && (t.state == Spent ==> !c.unspent)
  }

  /** One payment's line; its list of strings may be missing as a whole. */
  predicate HonestRow(r: Row, p: seq<Coin>) {
    && r.Row? && (r.tokens == [] || |r.tokens| == |p|)
    && (forall j | 0 <= j < |r.tokens| :: r.tokens[j].Cell? && Honest(r.tokens[j].token, p[j]))
  }

  /** A component that tells the truth about this wallet in whatever fields it sends. */
  ghost predicate Truthful(raw: Raw, w: Wallet, limit: nat) {
    var shown := Window(w, limit);
    && RealWallet(w) && limit > 0 && |raw.rows| == |shown|
    && (forall i | 0 <= i < |shown| :: HonestRow(raw.rows[i], shown[i]))
    && (raw.unlisted.Some? ==> raw.unlisted.value == Outgoing(w) - Outgoing(shown))
    && (raw.count.Some? ==> raw.count.value == |w|)
    && (raw.truncated.Some? ==> raw.truncated.value == (|shown| < |w|))
  }

  /** The live value of strings the report gives no amount for, or does not list. */
  function MissingCells(cells: seq<Cell>, p: seq<Coin>): nat
    requires |cells| == |p|
  {
    if p == [] then 0
    else
      var n := |p| - 1;
      MissingCells(cells[..n], p[..n])
        + (if p[n].unspent && (cells[n].NotAToken? || cells[n].token.amount == None) then p[n].amount else 0)
  }

  function MissingIn(r: Row, p: seq<Coin>): nat {
    if r.NotAPayment? || |r.tokens| != |p| then LiveOf(p) else MissingCells(r.tokens, p)
  }

  function Missing(rows: seq<Row>, w: Wallet): nat
    requires |rows| == |w|
  {
    if w == [] then 0
    else Missing(rows[..|w| - 1], w[..|w| - 1]) + MissingIn(rows[|w| - 1], w[|w| - 1])
  }

  /** Every string is listed with its amount. */
  predicate TellsAll(rows: seq<Row>, w: Wallet) {
    && |rows| == |w|
    && (forall i | 0 <= i < |w| :: rows[i].Row? && |rows[i].tokens| == |w[i]|)
    && (forall i, j | 0 <= i < |w| && 0 <= j < |w[i]| :: rows[i].tokens[j].Cell? && rows[i].tokens[j].token.amount.Some?)
  }

  lemma {:induction false} HalvesKeep(w: Wallet)
    ensures var a, b := WithValueOut(w), AllRetired(w);
      && |a| + |b| == |w| && Outgoing(a) + Outgoing(b) == Outgoing(w) && Unredeemed(a) + Unredeemed(b) == Unredeemed(w)
      && (forall p :: p in a || p in b ==> p in w)
  {
    if w != [] {
      HalvesKeep(w[1..]);
      var a, b := WithValueOut(w[1..]), AllRetired(w[1..]);
      assert ([w[0]] + a)[1..] == a && ([w[0]] + b)[1..] == b;
      assert [] + a == a && [] + b == b;
      assert w == [w[0]] + w[1..];
    }
  }

  /** Ranking reorders and loses nothing. */
  lemma {:induction false} RankedKeeps(w: Wallet)
    ensures |Ranked(w)| == |w| && Outgoing(Ranked(w)) == Outgoing(w) && Unredeemed(Ranked(w)) == Unredeemed(w)
    ensures RealWallet(w) ==> RealWallet(Ranked(w))
  {
    HalvesKeep(w);
    SumsConcat(WithValueOut(w), AllRetired(w));
  }

  lemma {:induction false} SumsConcat(a: Wallet, b: Wallet)
    ensures Outgoing(a + b) == Outgoing(a) + Outgoing(b) && Unredeemed(a + b) == Unredeemed(a) + Unredeemed(b)
  {
    if a == [] {
      assert a + b == b;
    } else {
      assert (a + b)[1..] == a[1..] + b;
      SumsConcat(a[1..], b);
    }
  }

  /** Nothing out means nothing live. */
  lemma {:induction false} NothingOut(w: Wallet)
    requires RealWallet(w) && Outgoing(w) == 0
    ensures Unredeemed(w) == 0
  {
    if w != [] {
      NothingOutOf(w[0]);
      NothingOut(w[1..]);
    }
  }

  lemma {:induction false} NothingOutOf(p: seq<Coin>)
    requires RealPayment(p) && OutOf(p) == 0
    ensures LiveOf(p) == 0
  {
    if p != [] {
      assert RealCoin(p[0]);
      NothingOutOf(p[1..]);
    }
  }

  lemma {:induction false} LiveConcat(a: seq<Coin>, b: seq<Coin>)
    ensures LiveOf(a + b) == LiveOf(a) + LiveOf(b)
  {
    if a == [] {
      assert a + b == b;
    } else {
      assert (a + b)[1..] == a[1..] + b;
      LiveConcat(a[1..], b);
    }
  }

  /** With the mint's word on every string that comes with an amount, the unspent bucket
      is the live value but for what is missing. */
  lemma {:induction false} CellsLive(cells: seq<Cell>, p: seq<Coin>)
    requires RealPayment(p) && HonestRow(Row(cells), p) && |cells| == |p|
    ensures var ts := Tokens(cells);
      && In(ts, Unknown) >= 0 && In(ts, Unasked) >= 0
      && (In(ts, Unknown) == 0 && In(ts, Unasked) == 0 ==> In(ts, Unspent) + MissingCells(cells, p) == LiveOf(p))
  {
    if p != [] {
      var n := |p| - 1;
      CellsLive(cells[..n], p[..n]);
      assert Honest(cells[n].token, p[n]) && RealCoin(p[n]);
      assert Tokens(cells)[..|Tokens(cells[..n])|] == Tokens(cells[..n]);
      assert p == p[..n] + [p[n]];
      LiveConcat(p[..n], [p[n]]);
    }
  }

  lemma {:induction false} RowsLive(rows: seq<Row>, w: Wallet)
    requires RealWallet(w) && |rows| == |w| && forall i | 0 <= i < |w| :: HonestRow(rows[i], w[i])
    ensures var ts := Listed(rows);
      && In(ts, Unknown) >= 0 && In(ts, Unasked) >= 0
      && (In(ts, Unknown) == 0 && In(ts, Unasked) == 0 ==> In(ts, Unspent) + Missing(rows, w) == Unredeemed(w))
  {
    hide In, Tokens, RealPayment, HonestRow, MissingIn, LiveOf;
    if w == [] {
      InNone(Unknown);
      InNone(Unasked);
      InNone(Unspent);
    } else {
      var n := |w| - 1;
      assert forall p :: p in w[..n] ==> p in w;
      assert w[n] in w;
      RowsLive(rows[..n], w[..n]);
      RowLive(rows[n], w[n]);
      LastRow(rows);
      assert w == w[..n] + [w[n]] && [w[n]][1..] == [];
      assert Unredeemed([w[n]]) == LiveOf(w[n]) + Unredeemed([w[n]][1..]);
      SumsConcat(w[..n], [w[n]]);
    }
  }

  lemma {:induction false} InNone(s: State)
    ensures In([], s) == 0
  {
  }

  lemma {:induction false} RowLive(r: Row, p: seq<Coin>)
    requires RealPayment(p) && HonestRow(r, p)
    ensures r.Row?
    ensures var ts := Tokens(r.tokens);
      && In(ts, Unknown) >= 0 && In(ts, Unasked) >= 0
      && (In(ts, Unknown) == 0 && In(ts, Unasked) == 0 ==> In(ts, Unspent) + MissingIn(r, p) == LiveOf(p))
  {
    if |r.tokens| == |p| { CellsLive(r.tokens, p); }
  }

  /** The totals of a list of rows are those of all but the last, and the last's. */
  lemma {:induction false} LastRow(rows: seq<Row>)
    requires rows != []
    ensures var n := |rows| - 1;
      forall s: State :: In(Listed(rows), s) ==
        In(Listed(rows[..n]), s) + (if rows[n].Row? then In(Tokens(rows[n].tokens), s) else 0)
  {
    var n := |rows| - 1;
    forall s: State
      ensures In(Listed(rows), s) ==
        In(Listed(rows[..n]), s) + (if rows[n].Row? then In(Tokens(rows[n].tokens), s) else 0)
    {
      InConcat(Listed(rows[..n]), if rows[n].Row? then Tokens(rows[n].tokens) else [], s);
    }
  }

  lemma {:induction false} AllPayments(rows: seq<Row>)
    requires forall i | 0 <= i < |rows| :: rows[i].Row?
    ensures Payments(rows) == |rows|
  {
    if rows != [] { AllPayments(rows[..|rows| - 1]); }
  }

  /** If the report fits its window, whatever it leaves out has nothing live in it. */
  lemma {:induction false} FitsMeans(raw: Raw, w: Wallet, limit: nat)
    requires Truthful(raw, w, limit) && Fits(raw, limit)
    ensures Unredeemed(Window(w, limit)) == Unredeemed(w)
  {
    var r := Ranked(w);
    RankedKeeps(w);
    AllPayments(raw.rows);
    if |r| > limit {
      assert r == r[..limit] + r[limit..];
      SumsConcat(r[..limit], r[limit..]);
      assert raw.unlisted.Some?;
      NothingOut(r[limit..]);
    }
  }

  /** A figure in the headline, whatever optional fields a truthful component leaves
      out, is the whole wallet's unredeemed value less exactly the live value of the
      strings that come without an amount or are not listed.  With none such it is the
      whole. */
  lemma {:induction false} HeadlineIsTheWholeWallet(raw: Raw, w: Wallet, limit: nat)
    requires Truthful(raw, w, limit) && Headline(raw, limit).Some?
    ensures Headline(raw, limit).value + Missing(raw.rows, Window(w, limit)) == Unredeemed(w)
    ensures TellsAll(raw.rows, Window(w, limit)) ==> Headline(raw, limit).value == Unredeemed(w)
  {
    var shown := Window(w, limit);
    RankedKeeps(w);
    FitsMeans(raw, w, limit);
    RowsLive(raw.rows, shown);
    if TellsAll(raw.rows, shown) { NothingMissing(raw.rows, shown); }
  }

  lemma {:induction false} NothingMissing(rows: seq<Row>, w: Wallet)
    requires TellsAll(rows, w)
    ensures Missing(rows, w) == 0
  {
    if w != [] {
      var n := |w| - 1;
      NothingMissing(rows[..n], w[..n]);
      NoneMissing(rows[n].tokens, w[n]);
    }
  }

  lemma {:induction false} NoneMissing(cells: seq<Cell>, p: seq<Coin>)
    requires |cells| == |p| && forall j | 0 <= j < |p| :: cells[j].Cell? && cells[j].token.amount.Some?
    ensures MissingCells(cells, p) == 0
  {
    if p != [] { NoneMissing(cells[..|p| - 1], p[..|p| - 1]); }
  }

  predicate Definite(ts: seq<Token>) { forall j | 0 <= j < |ts| :: ts[j].state == Unspent || ts[j].state == Spent }

  predicate Worth(ts: seq<Token>) { forall j | 0 <= j < |ts| :: Value(ts[j]) > 0 }

  lemma {:induction false} DefiniteIs(ts: seq<Token>)
    requires Worth(ts)
    ensures In(ts, Unknown) >= 0 && In(ts, Unasked) >= 0
    ensures Definite(ts) <==> In(ts, Unknown) == 0 && In(ts, Unasked) == 0
  {
    if ts != [] {
      var n := |ts| - 1;
      DefiniteIs(ts[..n]);
      assert Definite(ts) <==> Definite(ts[..n]) && (ts[n].state == Unspent || ts[n].state == Spent);
    }
  }

  lemma {:induction false} CellsDefinite(cells: seq<Cell>)
    requires forall j | 0 <= j < |cells| :: cells[j].Cell? && Value(cells[j].token) > 0
    ensures Worth(Tokens(cells))
    ensures Definite(Tokens(cells)) <==>
      forall j | 0 <= j < |cells| :: cells[j].token.state == Unspent || cells[j].token.state == Spent
  {
    if cells != [] {
      var n := |cells| - 1;
      CellsDefinite(cells[..n]);
      DefiniteJoin(Tokens(cells[..n]), [cells[n].token]);
      assert Tokens(cells) == Tokens(cells[..n]) + [cells[n].token];
      assert Definite([cells[n].token]) <==> cells[n].token.state == Unspent || cells[n].token.state == Spent by {
        assert [cells[n].token][0] == cells[n].token;
      }
      assert forall j :: 0 <= j < n ==> cells[..n][j] == cells[j];
      if Definite(Tokens(cells)) {
        forall j | 0 <= j < n ensures cells[j].token.state == Unspent || cells[j].token.state == Spent {
          assert cells[..n][j] == cells[j];
        }
      }
    }
  }

  lemma {:induction false} DefiniteJoin(a: seq<Token>, b: seq<Token>)
    ensures Definite(a + b) <==> Definite(a) && Definite(b)
    ensures Worth(a + b) <==> Worth(a) && Worth(b)
  {
    var all := a + b;
    forall j | 0 <= j < |a| ensures a[j] in all { assert all[j] == a[j]; }
    forall j | 0 <= j < |b| ensures b[j] in all { assert all[|a| + j] == b[j]; }
    assert forall t :: t in all <==> t in a || t in b;
    MembersDecide(a);
    MembersDecide(b);
    MembersDecide(all);
  }

  lemma {:induction false} MembersDecide(ts: seq<Token>)
    ensures Definite(ts) <==> forall t :: t in ts ==> t.state == Unspent || t.state == Spent
    ensures Worth(ts) <==> forall t :: t in ts ==> Value(t) > 0
  {
    if forall t :: t in ts ==> Value(t) > 0 { forall j | 0 <= j < |ts| ensures Value(ts[j]) > 0 { assert ts[j] in ts; } }
    if forall t :: t in ts ==> t.state == Unspent || t.state == Spent {
      forall j | 0 <= j < |ts| ensures ts[j].state == Unspent || ts[j].state == Spent { assert ts[j] in ts; }
    }
  }

  predicate RowDefinite(r: Row) {
    r.Row? && forall j | 0 <= j < |r.tokens| ::
      r.tokens[j].Cell? && (r.tokens[j].token.state == Unspent || r.tokens[j].token.state == Spent)
  }

  lemma {:induction false} RowsDefinite(rows: seq<Row>)
    requires forall i | 0 <= i < |rows| :: rows[i].Row? && Priced(rows[i].tokens)
    ensures Worth(Listed(rows))
    ensures Definite(Listed(rows)) <==> forall i | 0 <= i < |rows| :: RowDefinite(rows[i])
  {
    if rows != [] {
      hide Definite, Worth;
      var n := |rows| - 1;
      RowsDefinite(rows[..n]);
      CellsDefinite(rows[n].tokens);
      DefiniteJoin(Listed(rows[..n]), Tokens(rows[n].tokens));
      assert Listed(rows) == Listed(rows[..n]) + Tokens(rows[n].tokens);
      assert (forall i | 0 <= i < |rows| :: RowDefinite(rows[i])) <==>
        (forall i | 0 <= i < n :: RowDefinite(rows[..n][i])) && RowDefinite(rows[n]) by {
        assert forall i :: 0 <= i < n ==> rows[..n][i] == rows[i];
      }
    }
  }

  /** When a figure is given at all.  A truthful component that lists every string with
      its amount gets one exactly when the mint was asked, called every listed string
      unspent or spent, and no value is out beyond the window, or, if the component does
      not say, no payment can be; and it is the whole wallet's unredeemed value. */
  lemma {:induction false} FigureGivenExactly(raw: Raw, w: Wallet, limit: nat)
    requires Truthful(raw, w, limit) && TellsAll(raw.rows, Window(w, limit))
    ensures Headline(raw, limit) != None <==>
      && raw.checked && (forall i | 0 <= i < |raw.rows| :: RowDefinite(raw.rows[i]))
      && (if raw.unlisted.Some? then Outgoing(Window(w, limit)) == Outgoing(w)
          else |w| < limit || (|w| == limit && (raw.count.Some? || raw.truncated.Some?)))
    ensures Headline(raw, limit) != None ==> Headline(raw, limit) == Some(Unredeemed(w))
  {
    hide In, Outgoing, Listed, Unredeemed, Missing, MissingIn, Definite, Worth;
    RankedKeeps(w);
    AllPriced(raw, w, limit);
    RowsDefinite(raw.rows);
    DefiniteIs(Listed(raw.rows));
    AllPayments(raw.rows);
    if Headline(raw, limit) != None { HeadlineIsTheWholeWallet(raw, w, limit); }
  }

  // ------------------------------------------------------- missing fields --

  /** `less` is `more` with some fields left out: a state, an amount. */
  predicate Deletes(less: Token, more: Token) {
    (less.state == more.state || less.state == Unasked) && (less.amount == more.amount || less.amount == None)
  }

  predicate LessCell(less: Cell, more: Cell) {
    less == more || (less.Cell? && more.Cell? && Deletes(less.token, more.token))
  }

  /** Or the payment's whole list of strings. */
  predicate LessRow(less: Row, more: Row) {
    || less == more
    || (less.Row? && more.Row?
        && (less.tokens == []
            || (|less.tokens| == |more.tokens|
                && forall j | 0 <= j < |more.tokens| :: LessCell(less.tokens[j], more.tokens[j]))))
  }

  /** Or `checked`, or the window's own account of itself. */
  ghost predicate LeavesOut(less: Raw, more: Raw) {
    && |less.rows| == |more.rows| && (forall i | 0 <= i < |more.rows| :: LessRow(less.rows[i], more.rows[i]))
    && (less.checked ==> more.checked)
    && (less.unlisted == more.unlisted || less.unlisted == None)
    && (less.count == more.count || less.count == None)
    && (less.truncated == more.truncated || less.truncated == None)
  }

  /** What the deleted amounts and lists were worth, of strings not reported spent. */
  function LostCells(less: seq<Cell>, more: seq<Cell>): int
    requires |less| == |more|
  {
    if more == [] then 0
    else
      var n := |more| - 1;
      LostCells(less[..n], more[..n]) + LostToken(less[n], more[n])
  }

  function LostToken(less: Cell, more: Cell): int {
    if less.Cell? && more.Cell? && less.token.amount == None && more.token.state != Spent
    then Value(more.token) else 0
  }

  function NotSpent(ts: seq<Token>): int { In(ts, Unspent) + In(ts, Unknown) + In(ts, Unasked) }

  function LostIn(less: Row, more: Row): int {
    if less.NotAPayment? || more.NotAPayment? then 0
    else if |less.tokens| != |more.tokens| then NotSpent(Tokens(more.tokens))
    else LostCells(less.tokens, more.tokens)
  }

  function Lost(less: seq<Row>, more: seq<Row>): int
    requires |less| == |more|
  {
    if more == [] then 0
    else Lost(less[..|more| - 1], more[..|more| - 1]) + LostIn(less[|more| - 1], more[|more| - 1])
  }

  predicate Priced(cells: seq<Cell>) {
    forall j | 0 <= j < |cells| :: cells[j].Cell? && cells[j].token.amount.Some? && cells[j].token.amount.value > 0
  }

  /** How the buckets with fields left out stand to the buckets without: nothing comes
      in, and where every string with an amount has a state, what is left of the unspent
      bucket and what was lost are all that was not spent. */
  predicate StandTo(less: seq<Token>, more: seq<Token>, lost: int) {
    && In(less, Unknown) >= 0 && In(less, Unasked) >= 0 && In(less, Unspent) <= In(more, Unspent)
    && In(more, Unspent) >= 0 && In(more, Unknown) >= 0 && In(more, Unasked) >= 0 && lost >= 0
    && (In(less, Unknown) == 0 && In(less, Unasked) == 0 ==> In(less, Unspent) + lost == NotSpent(more))
  }

  lemma {:induction false} CellsLess(less: seq<Cell>, more: seq<Cell>)
    requires |less| == |more| && Priced(more) && forall j | 0 <= j < |more| :: LessCell(less[j], more[j])
    ensures StandTo(Tokens(less), Tokens(more), LostCells(less, more))
  {
    if more != [] {
      var n := |more| - 1;
      CellsLess(less[..n], more[..n]);
      assert LessCell(less[n], more[n]) && more[n].Cell?;
      assert Tokens(less)[..|Tokens(less[..n])|] == Tokens(less[..n]);
      assert Tokens(more)[..|Tokens(more[..n])|] == Tokens(more[..n]);
    }
  }

  lemma {:induction false} RowsLess(less: seq<Row>, more: seq<Row>)
    requires |less| == |more| && forall i | 0 <= i < |more| :: LessRow(less[i], more[i])
    requires forall i | 0 <= i < |more| :: more[i].Row? && Priced(more[i].tokens)
    ensures StandTo(Listed(less), Listed(more), Lost(less, more))
  {
    if more != [] {
      var n := |more| - 1;
      RowsLess(less[..n], more[..n]);
      OneRowLess(less[n], more[n]);
      hide In, Tokens, Listed;
      LastRow(less);
      LastRow(more);
    }
  }

  lemma {:induction false} OneRowLess(less: Row, more: Row)
    requires LessRow(less, more) && more.Row? && Priced(more.tokens)
    ensures less.Row? && StandTo(Tokens(less.tokens), Tokens(more.tokens), LostIn(less, more))
  {
    if |less.tokens| == |more.tokens| {
      CellsLess(less.tokens, more.tokens);
    } else {
      CellsLess(more.tokens, more.tokens);
    }
  }

  lemma {:induction false} FitsLess(less: Raw, more: Raw, w: Wallet, limit: nat)
    requires Truthful(more, w, limit) && LeavesOut(less, more) && Fits(less, limit)
    ensures Fits(more, limit)
  {
    RankedKeeps(w);
    AllPayments(more.rows);
    forall i | 0 <= i < |less.rows| ensures less.rows[i].Row? {
      assert LessRow(less.rows[i], more.rows[i]) && HonestRow(more.rows[i], Window(w, limit)[i]);
    }
    AllPayments(less.rows);
    if less.unlisted.None? && more.unlisted.Some? {
      assert |Ranked(w)| <= limit;
    }
  }

  lemma {:induction false} AllPriced(raw: Raw, w: Wallet, limit: nat)
    requires Truthful(raw, w, limit) && TellsAll(raw.rows, Window(w, limit))
    ensures forall i | 0 <= i < |raw.rows| :: raw.rows[i].Row? && Priced(raw.rows[i].tokens)
  {
    hide Ranked;
    var shown := Window(w, limit);
    RankedKeeps(w);
    forall i | 0 <= i < |shown| ensures raw.rows[i].Row? && Priced(raw.rows[i].tokens) {
      assert HonestRow(raw.rows[i], shown[i]) && shown[i] in Ranked(w) && RealPayment(shown[i]);
    }
  }

  /** Leave fields out of a truthful and complete answer.  If a figure is still given,
      it is the figure there was exactly when nothing is lost: no amount and no list of
      strings, but of strings reported spent.  A string that comes without its amount,
      or in a list that does not come, counts as nothing and keeps the headline. */
  lemma {:induction false} FigureStandsExactly(less: Raw, more: Raw, w: Wallet, limit: nat)
    requires Truthful(more, w, limit) && TellsAll(more.rows, Window(w, limit)) && LeavesOut(less, more)
    requires Headline(less, limit).Some?
    ensures Headline(less, limit) == Headline(more, limit) <==> Lost(less.rows, more.rows) == 0
  {
    hide In, Fits, Listed, Priced, Lost;
    AllPriced(more, w, limit);
    RowsLess(less.rows, more.rows);
    FitsLess(less, more, w, limit);
  }

  /** Every string keeps its place and its amount. */
  predicate KeepsAmounts(less: seq<Row>, more: seq<Row>) {
    && |less| == |more|
    && (forall i | 0 <= i < |more| :: less[i].Row? && more[i].Row? && SameAmounts(less[i].tokens, more[i].tokens))
  }

  predicate SameAmounts(less: seq<Cell>, more: seq<Cell>) {
    && |less| == |more|
    && (forall j | 0 <= j < |more| ::
          less[j].Cell? && more[j].Cell? && less[j].token.amount.Some? && less[j].token.amount == more[j].token.amount)
  }

  lemma {:induction false} NothingLost(less: seq<Row>, more: seq<Row>)
    requires KeepsAmounts(less, more)
    ensures Lost(less, more) == 0
  {
    if more != [] {
      var n := |more| - 1;
      NothingLost(less[..n], more[..n]);
      NoneLost(less[n].tokens, more[n].tokens);
    }
  }

  lemma {:induction false} NoneLost(less: seq<Cell>, more: seq<Cell>)
    requires SameAmounts(less, more)
    ensures LostCells(less, more) == 0
  {
    if more != [] { NoneLost(less[..|more| - 1], more[..|more| - 1]); }
  }

  /** So with every list and every amount present, a null stays null and a figure stays
      or goes. */
  lemma {:induction false} NullNeverBecomesAFigure(less: Raw, more: Raw, w: Wallet, limit: nat)
    requires Truthful(more, w, limit) && TellsAll(more.rows, Window(w, limit)) && LeavesOut(less, more)
    requires KeepsAmounts(less.rows, more.rows)
    ensures Headline(less, limit) == None || Headline(less, limit) == Headline(more, limit)
  {
    NothingLost(less.rows, more.rows);
    if Headline(less, limit).Some? { FigureStandsExactly(less, more, w, limit); }
  }

  /** A payment the mint has no entry for.  Without its amount, or without its list of
      strings, the null becomes 0. */
  lemma {:induction false} MissingFieldsMislead()
    ensures
      var w := [[Coin(5, true, true)]];
      var more := Raw([Row([Cell(Token(Some(5), Unknown))])], true, Some(0), Some(1), Some(false));
      var noAmount := Raw([Row([Cell(Token(None, Unknown))])], true, Some(0), Some(1), Some(false));
      var noList := Raw([Row([])], true, Some(0), Some(1), Some(false));
      && Truthful(more, w, 20) && LeavesOut(noAmount, more) && LeavesOut(noList, more)
      && Headline(more, 20) == None && Unredeemed(w) == 5
      && Headline(noAmount, 20) == Some(0) && Headline(noList, 20) == Some(0)
  {
    hide Headline, Listed, Payments, In;
    var c := Coin(5, true, true);
    assert [[c]][1..] == [] && [c][1..] == [];
    assert OutOf([c]) == 5 && LiveOf([c]) == 5;
    assert WithValueOut([[c]]) == [[c]] + WithValueOut([[c]][1..]) && AllRetired([[c]]) == [] + AllRetired([[c]][1..]);
    assert Ranked([[c]]) == [[c]];
    OneString(Token(Some(5), Unknown), 20);
    OneString(Token(None, Unknown), 20);
    NoString(20);
  }

  lemma {:induction false} OneString(t: Token, limit: int)
    ensures Listed([Row([Cell(t)])]) == [t]
    ensures t.state == Unknown ==>
      Headline(Raw([Row([Cell(t)])], true, Some(0), Some(1), Some(false)), limit) == if Value(t) == 0 then Some(0) else None
  {
    assert [Cell(t)][..0] == [] && [Row([Cell(t)])][..0] == [] && [t][..0] == [];
    assert Tokens([Cell(t)]) == [t];
    assert Listed([Row([Cell(t)])]) == [t];
    assert forall s: State :: In([t], s) == if t.state == s then Value(t) else 0;
  }

  lemma {:induction false} NoString(limit: int)
    ensures Headline(Raw([Row([])], true, Some(0), Some(1), Some(false)), limit) == Some(0)
  {
    var rows := [Row([])];
    assert |rows| == 1 && rows[..|rows| - 1] == [] && rows[|rows| - 1].Row?;
    assert Tokens(rows[|rows| - 1].tokens) == [];
    assert Listed(rows[..|rows| - 1]) == [];
    assert Listed(rows) == [];
  }
}
