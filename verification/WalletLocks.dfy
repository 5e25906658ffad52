/** The wallet locks of the operator GUI (gui/app.py, class Api).

    A request that moves money takes the lock of every wallet it touches, in
    name order, before its first step, holds all of them through its last step,
    and gives them back newest first.  Any number of requests run at once, one
    thread each, and the scheduler picks who moves.

    A request's steps are arbitrary functions of the request's own local values
    and of the wallets it has locked, so they cover every branch of a payment, a
    receive, a recovery or a creation (a step that raises records it in the local
    value and later steps do nothing). */
module WalletLocks {
  import opened Wrappers

  // ---------------------------------------------------------------- names --

  /** Strict order of Python's sorted() on strings. */
  predicate Before(a: string, b: string) {
    b != [] && (a == [] || a[0] < b[0] || (a[0] == b[0] && Before(a[1..], b[1..])))
  }

  lemma {:induction false} BeforeTransitive(a: string, b: string, c: string)
    requires Before(a, b) && Before(b, c)
    ensures Before(a, c)
  {
    if a != [] && b[0] == a[0] && b[0] == c[0] {
      BeforeTransitive(a[1..], b[1..], c[1..]);
    }
  }

  lemma {:induction false} BeforeTotal(a: string, b: string)
    ensures Before(a, b) || Before(b, a) || a == b
    ensures !(Before(a, b) && Before(b, a))
    ensures !Before(a, a)
  {
    if a != [] && b != [] && a[0] == b[0] {
      BeforeTotal(a[1..], b[1..]);
      assert a == [a[0]] + a[1..] && b == [b[0]] + b[1..];
    }
    BeforeIrreflexive(a);
  }

  lemma {:induction false} BeforeIrreflexive(a: string)
    ensures !Before(a, a)
  {
    if a != [] { BeforeIrreflexive(a[1..]); }
  }

  ghost predicate InOrder(names: seq<string>) {
    forall i, j :: 0 <= i < j < |names| ==> Before(names[i], names[j])
  }

  /** It is the dictionary's order: the first difference decides, and a prefix comes first. */
  lemma {:induction false} BeforeIs(a: string, b: string)
    ensures Before(a, b) <==> exists n: nat ::
      n <= |a| && n < |b| && a[..n] == b[..n] && (n == |a| || a[n] < b[n])
  {
    if Before(a, b) {
      var n := FirstDifference(a, b);
    } else {
      forall n: nat | n <= |a| && n < |b| && a[..n] == b[..n] && (n == |a| || a[n] < b[n]) ensures false {
        DifferenceDecides(a, b, n);
      }
    }
  }

  lemma {:induction false} FirstDifference(a: string, b: string) returns (n: nat)
    requires Before(a, b)
    ensures n <= |a| && n < |b| && a[..n] == b[..n] && (n == |a| || a[n] < b[n])
  {
    n := 0;
    if a != [] && a[0] == b[0] {
      n := FirstDifference(a[1..], b[1..]);
      assert a == [a[0]] + a[1..] && b == [b[0]] + b[1..];
      assert a[..n + 1] == [a[0]] + a[1..][..n] && b[..n + 1] == [b[0]] + b[1..][..n];
      n := n + 1;
    }
  }

  lemma {:induction false} DifferenceDecides(a: string, b: string, n: nat)
    requires n <= |a| && n < |b| && a[..n] == b[..n] && (n == |a| || a[n] < b[n])
    ensures Before(a, b)
  {
    if n > 0 {
      assert a[0] == a[..n][0] == b[..n][0] == b[0];
      assert a[1..][..n - 1] == a[..n][1..] && b[1..][..n - 1] == b[..n][1..];
      DifferenceDecides(a[1..], b[1..], n - 1);
    }
  }

  function Names(s: seq<string>): set<string> { set x | x in s }

  /** The locks a request takes: its own wallet, and the recipient it delivers
      to (or the payer whose record it settles) when there is one. */
  function LockOrder(name: string, other: Option<string>): (order: seq<string>)
    ensures InOrder(order)
    ensures Names(order) == {name} + (if other.Some? then {other.value} else {})
  {
    match other
    case None => [name]
    case Some(o) =>
      BeforeTotal(name, o);
      if name == o then [name] else if Before(name, o) then [name, o] else [o, name]
  }

  // ---------------------------------------------------------------- model --

  type Stores<S> = map<string, S>

  datatype Request<!L, !S> = Request(
    need: seq<string>,
    start: L,
    steps: seq<(L, Stores<S>) -> (L, Stores<S>)>)

  /** How far one request is: locks taken, steps run, locks given back. */
  datatype Thread<L> = Thread(got: nat, pc: nat, freed: nat, local: L)

  /** `entered` lists the requests that hold all their locks or once did, in the
      order in which they got the last one. */
  datatype World<L, S> = World(stores: Stores<S>, threads: seq<Thread<L>>, entered: seq<nat>)

  ghost predicate WellFormed<L, S>(rs: seq<Request<L, S>>) {
    forall i :: 0 <= i < |rs| ==> rs[i].need != [] && InOrder(rs[i].need)
  }

  function Restrict<S>(s: Stores<S>, names: set<string>): Stores<S> {
    map k | k in s && k in names :: s[k]
  }

  /** One step of a request's body: it sees and changes locked wallets only. */
  function Apply<L, S>(r: Request<L, S>, pc: nat, local: L, s: Stores<S>): (L, Stores<S>)
    requires pc < |r.steps|
  {
    var (l, v) := r.steps[pc](local, Restrict(s, Names(r.need)));
    (l, (s - Names(r.need)) + Restrict(v, Names(r.need)))
  }

  /** The two agree on whether there is such a wallet and on what it holds. */
  predicate Agree<S(==)>(s: Stores<S>, t: Stores<S>, name: string) {
    (name in s <==> name in t) && (name in s ==> s[name] == t[name])
  }

  /** Inside its locked wallets a step does what its own function says, with those
      wallets alone for input; outside them it changes nothing. */
  lemma {:induction false} ApplyIs<L, S>(r: Request<L, S>, pc: nat, local: L, s: Stores<S>)
    requires pc < |r.steps|
    ensures
      var (l, v) := r.steps[pc](local, map k | k in s && k in r.need :: s[k]);
      var (l', s') := Apply(r, pc, local, s);
      && l' == l
      && (forall k :: k in r.need ==> Agree(s', v, k))
      && (forall k :: k !in r.need ==> Agree(s', s, k))
  {
    var names := Names(r.need);
    assert forall k :: k in names <==> k in r.need;
    assert Restrict(s, names) == map k | k in s && k in r.need :: s[k];
  }

  /** Started from these two, the step does the same to the locked wallets if it finds
      the same in them, and leaves the others alone. */
  ghost predicate KeepsTo<L, S>(need: seq<string>, step: (L, Stores<S>) -> (L, Stores<S>), l: L, s: Stores<S>,
      t: Stores<S>)
  {
    (forall k :: k in need ==> Agree(s, t, k)) ==>
      && step(l, s).0 == step(l, t).0
      && (forall k :: k in need ==> Agree(step(l, s).1, step(l, t).1, k))
      && (forall k :: k !in need ==> Agree(step(l, s).1, s, k))
  }

  /** No step looks at or changes any wallet but the locked ones. */
  ghost predicate Confined<L(!new), S(!new)>(r: Request<L, S>) {
    forall pc, l: L, s: Stores<S>, t: Stores<S> ::
      0 <= pc < |r.steps| ==> KeepsTo(r.need, r.steps[pc], l, s, t)
  }

  lemma {:induction false} ConfinedStep<L(!new), S(!new)>(r: Request<L, S>, pc: nat, local: L, s: Stores<S>)
    requires Confined(r) && pc < |r.steps|
    ensures Apply(r, pc, local, s) == r.steps[pc](local, s)
  {
    hide Apply;
    var seen := map k | k in s && k in r.need :: s[k];
    assert KeepsTo(r.need, r.steps[pc], local, s, seen);
    ApplyIs(r, pc, local, s);
    var was, now := Apply(r, pc, local, s).1, r.steps[pc](local, s).1;
    forall k ensures Agree(was, now, k) {
      assert k in r.need ==> Agree(s, seen, k) && Agree(now, r.steps[pc](local, seen).1, k);
      assert k !in r.need ==> Agree(now, s, k) && Agree(was, s, k);
    }
    AgreeingIsEqual(was, now);
  }

  lemma {:induction false} AgreeingIsEqual<S>(s: Stores<S>, t: Stores<S>)
    requires forall k :: Agree(s, t, k)
    ensures s == t
  {
    forall k ensures k in s <==> k in t { assert Agree(s, t, k); }
    forall k | k in s ensures s[k] == t[k] { assert Agree(s, t, k); }
  }

  function Held<L, S>(r: Request<L, S>, t: Thread<L>): set<string> {
    if t.freed <= t.got <= |r.need| then Names(r.need[..t.got - t.freed]) else {}
  }

  predicate Acquiring<L, S>(r: Request<L, S>, t: Thread<L>) { t.got < |r.need| }
  predicate Working<L, S>(r: Request<L, S>, t: Thread<L>) { t.got == |r.need| && t.pc < |r.steps| }
  predicate Done<L, S>(r: Request<L, S>, t: Thread<L>) {
    t.got == |r.need| && t.pc == |r.steps| && t.freed == |r.need|
  }

  ghost predicate Sized<L, S>(rs: seq<Request<L, S>>, w: World<L, S>) {
    |w.threads| == |rs| && forall i :: 0 <= i < |rs| ==> Bounds(rs[i], w.threads[i])
  }

  predicate Bounds<L, S>(r: Request<L, S>, t: Thread<L>) {
    && t.got <= |r.need| && t.pc <= |r.steps| && t.freed <= |r.need|
    && (t.pc > 0 ==> t.got == |r.need|)
    && (t.freed > 0 ==> t.got == |r.need| && t.pc == |r.steps|)
  }

  ghost predicate Free<L, S>(rs: seq<Request<L, S>>, w: World<L, S>, name: string)
    requires Sized(rs, w)
  {
    forall j :: 0 <= j < |rs| ==> name !in Held(rs[j], w.threads[j])
  }

  /** Only a thread whose next lock is taken has to wait. */
  ghost predicate Enabled<L, S>(rs: seq<Request<L, S>>, w: World<L, S>, i: nat)
    requires Sized(rs, w)
  {
    i < |rs| && !Done(rs[i], w.threads[i]) &&
    (Acquiring(rs[i], w.threads[i]) ==> Free(rs, w, rs[i].need[w.threads[i].got]))
  }

  function Next<L, S>(rs: seq<Request<L, S>>, w: World<L, S>, i: nat): World<L, S>
    requires |w.threads| == |rs| && i < |rs| && Bounds(rs[i], w.threads[i])
  {
    var r, t := rs[i], w.threads[i];
    if Acquiring(r, t) then
      w.(threads := w.threads[i := t.(got := t.got + 1)],
         entered := if t.got + 1 == |r.need| then w.entered + [i] else w.entered)
    else if Working(r, t) then
      var (l, s) := Apply(r, t.pc, t.local, w.stores);
      w.(stores := s, threads := w.threads[i := t.(pc := t.pc + 1, local := l)])
    else
      w.(threads := w.threads[i := t.(freed := t.freed + 1)])
  }

  function Init<L, S>(rs: seq<Request<L, S>>, s: Stores<S>): World<L, S> {
    World(s, seq(|rs|, i requires 0 <= i < |rs| => Thread(0, 0, 0, rs[i].start)), [])
  }

  /** The world after a schedule, if every pick in it could move. */
  ghost function Run<L, S>(rs: seq<Request<L, S>>, s: Stores<S>, sched: seq<nat>): Option<World<L, S>> {
    if sched == [] then Some(Init(rs, s))
    else
      var i := sched[|sched| - 1];
      match Run(rs, s, sched[..|sched| - 1])
      case Some(v) => if Sized(rs, v) && Enabled(rs, v, i) then Some(Next(rs, v, i)) else None
      case None => None
  }

  ghost predicate Reached<L, S>(rs: seq<Request<L, S>>, s: Stores<S>, sched: seq<nat>, w: World<L, S>) {
    Run(rs, s, sched) == Some(w)
  }

  ghost predicate AllDone<L, S>(rs: seq<Request<L, S>>, w: World<L, S>) {
    |w.threads| == |rs| && forall i :: 0 <= i < |rs| ==> Done(rs[i], w.threads[i])
  }

  // --------------------------------------------------- one request, alone --

  /** The first `k` steps of a request run with nobody else moving. */
  function RunSteps<L, S>(r: Request<L, S>, k: nat, s: Stores<S>): (L, Stores<S>)
    requires k <= |r.steps|
  {
    if k == 0 then (r.start, s)
    else var (l, t) := RunSteps(r, k - 1, s); Apply(r, k - 1, l, t)
  }

  /** The reference: whole requests, one after another. */
  function Serial<L, S>(rs: seq<Request<L, S>>, order: seq<nat>, s: Stores<S>): Stores<S>
    requires forall k :: 0 <= k < |order| ==> order[k] < |rs|
  {
    if order == [] then s
    else
      var r := rs[order[|order| - 1]];
      RunSteps(r, |r.steps|, Serial(rs, order[..|order| - 1], s)).1
  }

  /** The first `k` step functions, one after another on all the wallets there are. */
  function Plain<L, S>(r: Request<L, S>, k: nat, s: Stores<S>): (L, Stores<S>)
    requires k <= |r.steps|
  {
    if k == 0 then (r.start, s)
    else var (l, t) := Plain(r, k - 1, s); r.steps[k - 1](l, t)
  }

  function PlainSerial<L, S>(rs: seq<Request<L, S>>, order: seq<nat>, s: Stores<S>): Stores<S>
    requires forall k :: 0 <= k < |order| ==> order[k] < |rs|
  {
    if order == [] then s
    else
      var r := rs[order[|order| - 1]];
      Plain(r, |r.steps|, PlainSerial(rs, order[..|order| - 1], s)).1
  }

  lemma {:induction false} RunStepsIsPlain<L(!new), S(!new)>(r: Request<L, S>, k: nat, s: Stores<S>)
    requires Confined(r) && k <= |r.steps|
    ensures RunSteps(r, k, s) == Plain(r, k, s)
  {
    hide Confined, Apply;
    if k > 0 {
      RunStepsIsPlain(r, k - 1, s);
      var (l, t) := Plain(r, k - 1, s);
      ConfinedStep(r, k - 1, l, t);
    }
  }

  lemma {:induction false} SerialIsPlain<L(!new), S(!new)>(rs: seq<Request<L, S>>, order: seq<nat>, s: Stores<S>)
    requires (forall k :: 0 <= k < |order| ==> order[k] < |rs|) && forall r :: r in rs ==> Confined(r)
    ensures Serial(rs, order, s) == PlainSerial(rs, order, s)
  {
    hide Confined, RunSteps, Plain;
    if order != [] {
      var r := rs[order[|order| - 1]];
      SerialIsPlain(rs, order[..|order| - 1], s);
      RunStepsIsPlain(r, |r.steps|, Serial(rs, order[..|order| - 1], s));
    }
  }

  // ----------------------------------------------------- commuting steps --

  lemma {:induction false} ApplyAgrees<L, S>(r: Request<L, S>, pc: nat, l: L, s: Stores<S>, t: Stores<S>)
    requires pc < |r.steps| && Restrict(s, Names(r.need)) == Restrict(t, Names(r.need))
    ensures Apply(r, pc, l, s).0 == Apply(r, pc, l, t).0
    ensures Restrict(Apply(r, pc, l, s).1, Names(r.need)) == Restrict(Apply(r, pc, l, t).1, Names(r.need))
  {
  }

  lemma {:induction false} ReplacesCommute<S>(s: Stores<S>, m: set<string>, n: set<string>, vm: Stores<S>,
      vn: Stores<S>)
    requires m !! n && vm.Keys <= m && vn.Keys <= n
    ensures (((s - m) + vm) - n) + vn == (((s - n) + vn) - m) + vm
    ensures Restrict((s - m) + vm, n) == Restrict(s, n)
  {
    var x, y := (((s - m) + vm) - n) + vn, (((s - n) + vn) - m) + vm;
    assert x.Keys == y.Keys;
  }

  lemma {:induction false} ApplyCommutes<L, S>(a: Request<L, S>, i: nat, la: L, b: Request<L, S>, j: nat,
      lb: L, s: Stores<S>)
    requires i < |a.steps| && j < |b.steps| && Names(a.need) !! Names(b.need)
    ensures Apply(b, j, lb, Apply(a, i, la, s).1).0 == Apply(b, j, lb, s).0
    ensures Apply(b, j, lb, Apply(a, i, la, s).1).1 == Apply(a, i, la, Apply(b, j, lb, s).1).1
  {
    hide Names;
    var m, n := Names(a.need), Names(b.need);
    var va, vb := Restrict(a.steps[i](la, Restrict(s, m)).1, m), Restrict(b.steps[j](lb, Restrict(s, n)).1, n);
    ReplacesCommute(s, m, n, va, vb);
    ReplacesCommute(s, n, m, vb, va);
  }

  /** Running `b` does not look at, or touch, what `a` locks. */
  lemma {:induction false} RunStepsCommutes<L, S>(
    a: Request<L, S>, i: nat, la: L, b: Request<L, S>, n: nat, s: Stores<S>)
    requires i < |a.steps| && n <= |b.steps| && Names(a.need) !! Names(b.need)
    ensures RunSteps(b, n, Apply(a, i, la, s).1).0 == RunSteps(b, n, s).0
    ensures RunSteps(b, n, Apply(a, i, la, s).1).1 == Apply(a, i, la, RunSteps(b, n, s).1).1
  {
    hide Apply, Restrict;
    if n > 0 {
      RunStepsCommutes(a, i, la, b, n - 1, s);
      var (l, t) := RunSteps(b, n - 1, s);
      ApplyCommutes(a, i, la, b, n - 1, l, t);
    }
  }

  lemma {:induction false} RunStepsLeavesRest<L, S>(b: Request<L, S>, n: nat, s: Stores<S>, names: set<string>)
    requires n <= |b.steps| && names !! Names(b.need)
    ensures Restrict(RunSteps(b, n, s).1, names) == Restrict(s, names)
  {
    if n > 0 {
      RunStepsLeavesRest(b, n - 1, s, names);
    }
  }

  // ------------------------------------------------------------ invariant --

  /** Stores after the entered requests, in order, each as far as it has got. */
  function Partial<L, S>(rs: seq<Request<L, S>>, ts: seq<Thread<L>>, order: seq<nat>, s: Stores<S>): Stores<S>
    requires |ts| == |rs| && forall k :: 0 <= k < |order| ==> order[k] < |rs| && ts[order[k]].pc <= |rs[order[k]].steps|
  {
    if order == [] then s
    else
      var i := order[|order| - 1];
      RunSteps(rs[i], ts[i].pc, Partial(rs, ts, order[..|order| - 1], s)).1
  }

  ghost predicate EnteredOk<L, S>(rs: seq<Request<L, S>>, w: World<L, S>) {
    && Sized(rs, w)
    && (forall k :: 0 <= k < |w.entered| ==> w.entered[k] < |rs|)
    && (forall j, k :: 0 <= j < k < |w.entered| ==> w.entered[j] != w.entered[k])
    && (forall i :: 0 <= i < |rs| ==> (i in w.entered <==> w.threads[i].got == |rs[i].need|))
  }

  ghost predicate Exclusive<L, S>(rs: seq<Request<L, S>>, w: World<L, S>)
    requires Sized(rs, w)
  {
    forall i, j :: 0 <= i < j < |rs| ==> Held(rs[i], w.threads[i]) !! Held(rs[j], w.threads[j])
  }

  /** A request still at work shares no wallet with one that entered later. */
  ghost predicate LaterApart<L, S>(rs: seq<Request<L, S>>, w: World<L, S>)
    requires EnteredOk(rs, w)
  {
    forall j, k :: 0 <= j < k < |w.entered| && Working(rs[w.entered[j]], w.threads[w.entered[j]]) ==>
      Names(rs[w.entered[j]].need) !! Names(rs[w.entered[k]].need)
  }

  ghost predicate LocalsOk<L, S>(rs: seq<Request<L, S>>, w: World<L, S>, s: Stores<S>)
    requires EnteredOk(rs, w)
  {
    && (forall k :: 0 <= k < |w.entered| ==>
      var i := w.entered[k];
      w.threads[i].local == RunSteps(rs[i], w.threads[i].pc, Partial(rs, w.threads, w.entered[..k], s)).0)
    && (forall i :: 0 <= i < |rs| && i !in w.entered ==> w.threads[i].local == rs[i].start && w.threads[i].pc == 0)
  }

  ghost predicate Inv<L, S>(rs: seq<Request<L, S>>, s: Stores<S>, w: World<L, S>) {
    && EnteredOk(rs, w) && Exclusive(rs, w) && LaterApart(rs, w)
    && w.stores == Partial(rs, w.threads, w.entered, s)
    && LocalsOk(rs, w, s)
  }

  lemma {:induction false} PartialFrame<L, S>(
    rs: seq<Request<L, S>>, ts: seq<Thread<L>>, us: seq<Thread<L>>, order: seq<nat>, s: Stores<S>)
    requires |ts| == |us| == |rs|
    requires forall k :: 0 <= k < |order| ==>
      order[k] < |rs| && ts[order[k]].pc == us[order[k]].pc <= |rs[order[k]].steps|
    ensures Partial(rs, ts, order, s) == Partial(rs, us, order, s)
  {
    if order != [] {
      PartialFrame(rs, ts, us, order[..|order| - 1], s);
    }
  }

  lemma {:induction false} InitHolds<L, S>(rs: seq<Request<L, S>>, s: Stores<S>)
    requires WellFormed(rs)
    ensures Inv(rs, s, Init(rs, s))
  {
  }

  /** Taking or giving back a lock keeps the locks exclusive and the order true. */
  lemma {:induction false} LockStepEntered<L, S>(rs: seq<Request<L, S>>, w: World<L, S>, i: nat)
    requires WellFormed(rs) && EnteredOk(rs, w) && Exclusive(rs, w)
    requires Enabled(rs, w, i) && !Working(rs[i], w.threads[i])
    ensures EnteredOk(rs, Next(rs, w, i)) && Exclusive(rs, Next(rs, w, i))
  {
    var v := Next(rs, w, i);
    var r, t := rs[i], w.threads[i];
    if Acquiring(r, t) {
      assert r.need[..t.got + 1] == r.need[..t.got] + [r.need[t.got]];
      assert Held(r, v.threads[i]) == Held(r, t) + {r.need[t.got]};
    } else {
      assert Held(r, v.threads[i]) <= Held(r, t);
    }
    forall a, b | 0 <= a < b < |rs| ensures Held(rs[a], v.threads[a]) !! Held(rs[b], v.threads[b]) {
      assert Held(rs[a], w.threads[a]) !! Held(rs[b], w.threads[b]);
    }
    forall n | 0 <= n < |rs| ensures n in v.entered <==> v.threads[n].got == |rs[n].need| {
      assert n in w.entered <==> w.threads[n].got == |rs[n].need|;
    }
  }

  lemma {:induction false} HoldsAll<L, S>(r: Request<L, S>, t: Thread<L>)
    requires t.got == |r.need| && t.freed == 0
    ensures Held(r, t) == Names(r.need)
  {
    assert r.need[..|r.need|] == r.need;
  }

  lemma {:induction false} LockStepApart<L, S>(rs: seq<Request<L, S>>, w: World<L, S>, i: nat)
    requires EnteredOk(rs, w) && LaterApart(rs, w)
    requires i < |rs| && !Working(rs[i], w.threads[i]) && !Done(rs[i], w.threads[i])
    requires EnteredOk(rs, Next(rs, w, i)) && Exclusive(rs, Next(rs, w, i))
    ensures LaterApart(rs, Next(rs, w, i))
  {
    var v := Next(rs, w, i);
    forall j, k | 0 <= j < k < |v.entered| && Working(rs[v.entered[j]], v.threads[v.entered[j]])
      ensures Names(rs[v.entered[j]].need) !! Names(rs[v.entered[k]].need)
    {
      var a, b := v.entered[j], v.entered[k];
      if k < |w.entered| {
        assert w.entered[j] == a && w.entered[k] == b;
      } else {
        assert b == i;
        HoldsAll(rs[a], v.threads[a]);
        HoldsAll(rs[b], v.threads[b]);
        if b < a { assert Held(rs[b], v.threads[b]) !! Held(rs[a], v.threads[a]); }
      }
    }
  }

  /** A lock step moves no wallet and no local value. */
  lemma {:induction false} LockStep<L, S>(rs: seq<Request<L, S>>, s: Stores<S>, w: World<L, S>, i: nat)
    requires WellFormed(rs) && Inv(rs, s, w) && Enabled(rs, w, i) && !Working(rs[i], w.threads[i])
    ensures Inv(rs, s, Next(rs, w, i))
  {
    hide Partial, Exclusive, LaterApart, LocalsOk;
    LockStepEntered(rs, w, i);
    LockStepApart(rs, w, i);
    LockStepStores(rs, s, w, i);
    LockStepLocals(rs, s, w, i);
  }

  lemma {:induction false} LockStepStores<L, S>(rs: seq<Request<L, S>>, s: Stores<S>, w: World<L, S>, i: nat)
    requires EnteredOk(rs, w) && i < |rs| && !Working(rs[i], w.threads[i]) && !Done(rs[i], w.threads[i])
    requires EnteredOk(rs, Next(rs, w, i)) && w.stores == Partial(rs, w.threads, w.entered, s)
    requires i !in w.entered ==> w.threads[i].pc == 0
    ensures Next(rs, w, i).stores == Partial(rs, Next(rs, w, i).threads, Next(rs, w, i).entered, s)
  {
    hide Apply, Restrict, RunSteps, Held;
    var v, n := Next(rs, w, i), |w.entered|;
    LockStepPrefix(rs, s, w, i, n);
    assert w.entered[..n] == w.entered;
    if v.entered != w.entered {
      assert v.entered == w.entered + [i];
      PartialEnter(rs, v.threads, w.entered, i, s);
    }
  }

  /** A request that has run no step yet adds nothing. */
  lemma {:induction false} PartialEnter<L, S>(rs: seq<Request<L, S>>, ts: seq<Thread<L>>, order: seq<nat>,
      i: nat, s: Stores<S>)
    requires |ts| == |rs| && i < |rs| && ts[i].pc == 0
    requires forall k :: 0 <= k < |order| ==> order[k] < |rs| && ts[order[k]].pc <= |rs[order[k]].steps|
    ensures Partial(rs, ts, order + [i], s) == Partial(rs, ts, order, s)
  {
    hide Apply, Restrict;
    assert (order + [i])[..|order|] == order;
  }

  lemma {:induction false} LockStepPrefix<L, S>(rs: seq<Request<L, S>>, s: Stores<S>, w: World<L, S>, i: nat, k: nat)
    requires EnteredOk(rs, w) && i < |rs| && !Working(rs[i], w.threads[i]) && !Done(rs[i], w.threads[i])
    requires EnteredOk(rs, Next(rs, w, i)) && k <= |w.entered|
    ensures var v := Next(rs, w, i);
      Partial(rs, v.threads, v.entered[..k], s) == Partial(rs, w.threads, w.entered[..k], s)
  {
    var v := Next(rs, w, i);
    assert v.entered[..k] == w.entered[..k];
    PartialFrame(rs, w.threads, v.threads, w.entered[..k], s);
  }

  lemma {:induction false} LockStepLocals<L, S>(rs: seq<Request<L, S>>, s: Stores<S>, w: World<L, S>, i: nat)
    requires EnteredOk(rs, w) && i < |rs| && !Working(rs[i], w.threads[i]) && !Done(rs[i], w.threads[i])
    requires EnteredOk(rs, Next(rs, w, i)) && LocalsOk(rs, w, s)
    ensures LocalsOk(rs, Next(rs, w, i), s)
  {
    var v := Next(rs, w, i);
    forall k | 0 <= k < |v.entered|
      ensures var j := v.entered[k];
        v.threads[j].local == RunSteps(rs[j], v.threads[j].pc, Partial(rs, v.threads, v.entered[..k], s)).0
    {
      var j := v.entered[k];
      if k < |w.entered| {
        assert j == w.entered[k];
        LockStepPrefix(rs, s, w, i, k);
      } else {
        assert j == i && i !in w.entered;
      }
    }
    forall n | 0 <= n < |rs| && n !in v.entered
      ensures v.threads[n].local == rs[n].start && v.threads[n].pc == 0
    {
      assert n !in w.entered;
    }
  }

  /** Two progress records that differ in one request, at position `k` of the
      order, by one step. */
  ghost predicate OneAhead<L, S>(
    rs: seq<Request<L, S>>, ts: seq<Thread<L>>, us: seq<Thread<L>>, order: seq<nat>, k: nat)
  {
    && |ts| == |us| == |rs| && k < |order|
    && (forall x :: 0 <= x < |order| ==>
          order[x] < |rs| && ts[order[x]].pc <= us[order[x]].pc <= |rs[order[x]].steps|)
    && (forall x :: 0 <= x < |order| && x != k ==> ts[order[x]].pc == us[order[x]].pc)
    && us[order[k]].pc == ts[order[k]].pc + 1
    && (forall x :: k < x < |order| ==> Names(rs[order[k]].need) !! Names(rs[order[x]].need))
  }

  /** The requests that entered after position `k` left its wallets alone. */
  lemma {:induction false} LaterLeaveRest<L, S>(rs: seq<Request<L, S>>, ts: seq<Thread<L>>, order: seq<nat>,
      k: nat, s: Stores<S>)
    requires |ts| == |rs| && k < |order|
    requires forall x :: 0 <= x < |order| ==> order[x] < |rs| && ts[order[x]].pc <= |rs[order[x]].steps|
    requires forall x :: k < x < |order| ==> Names(rs[order[k]].need) !! Names(rs[order[x]].need)
    ensures Restrict(Partial(rs, ts, order, s), Names(rs[order[k]].need))
      == Restrict(Partial(rs, ts, order[..k + 1], s), Names(rs[order[k]].need))
    decreases |order|
  {
    hide Apply, Restrict;
    var n := |order| - 1;
    if k == n {
      assert order[..k + 1] == order;
    } else {
      var pre, j := order[..n], order[n];
      assert pre[..k + 1] == order[..k + 1];
      LaterLeaveRest(rs, ts, pre, k, s);
      RunStepsLeavesRest(rs[j], ts[j].pc, Partial(rs, ts, pre, s), Names(rs[order[k]].need));
    }
  }

  /** The step of the request at position `k` of the order slides past every
      later one: the whole prefix moves by exactly that step. */
  lemma {:induction false} PartialAdvance<L, S>(
    rs: seq<Request<L, S>>, ts: seq<Thread<L>>, us: seq<Thread<L>>, order: seq<nat>, k: nat, s: Stores<S>)
    requires OneAhead(rs, ts, us, order, k)
    requires ts[order[k]].local == RunSteps(rs[order[k]], ts[order[k]].pc, Partial(rs, ts, order[..k], s)).0
    ensures Partial(rs, us, order, s)
      == Apply(rs[order[k]], ts[order[k]].pc, ts[order[k]].local, Partial(rs, ts, order, s)).1
    decreases |order|
  {
    hide Apply, Restrict;
    var i, n := order[k], |order| - 1;
    var t := ts[i];
    if k == n {
      PartialFrame(rs, ts, us, order[..k], s);
    } else {
      var pre, j := order[..n], order[n];
      assert pre[..k] == order[..k];
      assert OneAhead(rs, ts, us, pre, k);
      PartialAdvance(rs, ts, us, pre, k, s);
      RunStepsCommutes(rs[i], t.pc, t.local, rs[j], ts[j].pc, Partial(rs, ts, pre, s));
    }
  }

  lemma {:induction false} WorkStepAhead<L, S>(rs: seq<Request<L, S>>, w: World<L, S>, k: nat, m: nat)
    requires EnteredOk(rs, w) && LaterApart(rs, w) && k < m <= |w.entered|
    requires Working(rs[w.entered[k]], w.threads[w.entered[k]])
    ensures OneAhead(rs, w.threads, Next(rs, w, w.entered[k]).threads, w.entered[..m], k)
  {
  }

  ghost predicate LocalOk<L, S>(rs: seq<Request<L, S>>, ts: seq<Thread<L>>, order: seq<nat>, m: nat, s: Stores<S>) {
    && |ts| == |rs| && m < |order|
    && (forall x :: 0 <= x <= m ==> order[x] < |rs| && ts[order[x]].pc <= |rs[order[x]].steps|)
    && ts[order[m]].local == RunSteps(rs[order[m]], ts[order[m]].pc, Partial(rs, ts, order[..m], s)).0
  }

  /** A request's values after a step by one that entered later. */
  lemma {:induction false} LocalBefore<L, S>(rs: seq<Request<L, S>>, ts: seq<Thread<L>>, us: seq<Thread<L>>,
      order: seq<nat>, k: nat, m: nat, s: Stores<S>)
    requires OneAhead(rs, ts, us, order, k) && m < k && LocalOk(rs, ts, order, m, s)
    requires us[order[m]] == ts[order[m]]
    ensures LocalOk(rs, us, order, m, s)
  {
    hide Apply, Restrict;
    PartialFrame(rs, ts, us, order[..m], s);
  }

  /** ... after a step of its own, taken on the stores as they really are ... */
  lemma {:induction false} LocalOwn<L, S>(rs: seq<Request<L, S>>, ts: seq<Thread<L>>, us: seq<Thread<L>>,
      order: seq<nat>, k: nat, s: Stores<S>)
    requires OneAhead(rs, ts, us, order, k) && LocalOk(rs, ts, order, k, s)
    requires us[order[k]].local
      == Apply(rs[order[k]], ts[order[k]].pc, ts[order[k]].local, Partial(rs, ts, order, s)).0
    ensures LocalOk(rs, us, order, k, s)
  {
    hide Apply, Restrict;
    var i := order[k];
    PartialFrame(rs, ts, us, order[..k], s);
    LaterLeaveRest(rs, ts, order, k, s);
    assert order[..k + 1][..k] == order[..k];
    ApplyAgrees(rs[i], ts[i].pc, ts[i].local, Partial(rs, ts, order, s), Partial(rs, ts, order[..k + 1], s));
  }

  /** ... and after a step by one that entered earlier. */
  lemma {:induction false} LocalAfter<L, S>(rs: seq<Request<L, S>>, ts: seq<Thread<L>>, us: seq<Thread<L>>,
      order: seq<nat>, k: nat, m: nat, s: Stores<S>)
    requires OneAhead(rs, ts, us, order, k) && k < m && LocalOk(rs, ts, order, m, s) && LocalOk(rs, ts, order, k, s)
    requires us[order[m]] == ts[order[m]]
    ensures LocalOk(rs, us, order, m, s)
  {
    hide Apply, Restrict;
    var i, j, pre := order[k], order[m], order[..m];
    assert pre[..k] == order[..k];
    assert OneAhead(rs, ts, us, pre, k);
    PartialAdvance(rs, ts, us, pre, k, s);
    RunStepsCommutes(rs[i], ts[i].pc, ts[i].local, rs[j], ts[j].pc, Partial(rs, ts, pre, s));
  }

  lemma {:induction false} WorkStep<L, S>(rs: seq<Request<L, S>>, s: Stores<S>, w: World<L, S>, i: nat)
    requires Inv(rs, s, w) && i < |rs| && Working(rs[i], w.threads[i])
    ensures Inv(rs, s, Next(rs, w, i))
  {
    hide Apply, Restrict, Partial, RunSteps;
    var v, n := Next(rs, w, i), |w.entered|;
    WorkStepEntered(rs, w, i);
    var k :| 0 <= k < n && w.entered[k] == i;
    assert w.entered[..n] == w.entered;
    WorkStepAhead(rs, w, k, n);
    assert LocalOk(rs, w.threads, w.entered, k, s);
    PartialAdvance(rs, w.threads, v.threads, w.entered, k, s);
    WorkStepLocals(rs, s, w, k);
  }

  lemma {:induction false} WorkStepLocals<L, S>(rs: seq<Request<L, S>>, s: Stores<S>, w: World<L, S>, k: nat)
    requires EnteredOk(rs, w) && LocalsOk(rs, w, s) && k < |w.entered|
    requires Working(rs[w.entered[k]], w.threads[w.entered[k]])
    requires EnteredOk(rs, Next(rs, w, w.entered[k]))
    requires OneAhead(rs, w.threads, Next(rs, w, w.entered[k]).threads, w.entered, k)
    requires w.stores == Partial(rs, w.threads, w.entered, s)
    ensures LocalsOk(rs, Next(rs, w, w.entered[k]), s)
  {
    hide Apply, Restrict, Partial, RunSteps;
    var i := w.entered[k];
    var v := Next(rs, w, i);
    forall m | 0 <= m < |w.entered| ensures LocalOk(rs, v.threads, w.entered, m, s) {
      assert LocalOk(rs, w.threads, w.entered, m, s);
      assert LocalOk(rs, w.threads, w.entered, k, s);
      if m < k {
        LocalBefore(rs, w.threads, v.threads, w.entered, k, m, s);
      } else if m == k {
        LocalOwn(rs, w.threads, v.threads, w.entered, k, s);
      } else {
        LocalAfter(rs, w.threads, v.threads, w.entered, k, m, s);
      }
    }
    assert v.entered == w.entered;
    forall m | 0 <= m < |v.entered|
      ensures var j := v.entered[m];
        v.threads[j].local == RunSteps(rs[j], v.threads[j].pc, Partial(rs, v.threads, v.entered[..m], s)).0
    {
      assert LocalOk(rs, v.threads, w.entered, m, s);
    }
  }

  lemma {:induction false} WorkStepEntered<L, S>(rs: seq<Request<L, S>>, w: World<L, S>, i: nat)
    requires EnteredOk(rs, w) && LaterApart(rs, w) && i < |rs| && Working(rs[i], w.threads[i])
    requires Exclusive(rs, w)
    ensures EnteredOk(rs, Next(rs, w, i)) && LaterApart(rs, Next(rs, w, i)) && Exclusive(rs, Next(rs, w, i))
    ensures i in w.entered
  {
    var v := Next(rs, w, i);
    forall a | 0 <= a < |rs| ensures Held(rs[a], v.threads[a]) == Held(rs[a], w.threads[a]) { }
    forall n | 0 <= n < |rs| ensures Bounds(rs[n], v.threads[n]) && v.threads[n].got == w.threads[n].got { }
  }

  lemma {:induction false} ReachedInv<L, S>(rs: seq<Request<L, S>>, s: Stores<S>, sched: seq<nat>, w: World<L, S>)
    requires WellFormed(rs) && Reached(rs, s, sched, w)
    ensures Inv(rs, s, w)
    decreases |sched|
  {
    if sched == [] {
      InitHolds(rs, s);
    } else {
      var v, i := LastMove(rs, s, sched, w);
      ReachedInv(rs, s, sched[..|sched| - 1], v);
      if Working(rs[i], v.threads[i]) { WorkStep(rs, s, v, i); } else { LockStep(rs, s, v, i); }
    }
  }

  /** The last move of a run. */
  lemma {:induction false} LastMove<L, S>(rs: seq<Request<L, S>>, s: Stores<S>, sched: seq<nat>, w: World<L, S>)
    returns (v: World<L, S>, i: nat)
    requires WellFormed(rs) && Reached(rs, s, sched, w) && sched != []
    ensures i == sched[|sched| - 1] && Reached(rs, s, sched[..|sched| - 1], v)
    ensures Sized(rs, v) && Enabled(rs, v, i) && w == Next(rs, v, i)
  {
    v, i := Run(rs, s, sched[..|sched| - 1]).value, sched[|sched| - 1];
  }

  lemma {:induction false} ReachedSized<L, S>(rs: seq<Request<L, S>>, s: Stores<S>, sched: seq<nat>, w: World<L, S>)
    requires WellFormed(rs) && Reached(rs, s, sched, w)
    ensures Sized(rs, w) && (sched == [] ==> w == Init(rs, s))
  {
    ReachedInv(rs, s, sched, w);
  }

  // -------------------------------------------------------- main results --

  lemma {:induction false} ApartInTheOpen<L, S>(q: Request<L, S>, t: Thread<L>, r: Request<L, S>, u: Thread<L>)
    requires Bounds(q, t) && Bounds(r, u) && Held(q, t) !! Held(r, u)
    ensures forall x, y :: 0 <= x < t.got - t.freed && 0 <= y < u.got - u.freed ==> q.need[x] != r.need[y]
  {
    forall x, y | 0 <= x < t.got - t.freed && 0 <= y < u.got - u.freed ensures q.need[x] != r.need[y] {
      assert q.need[..t.got - t.freed][x] in Held(q, t);
      assert r.need[..u.got - u.freed][y] in Held(r, u);
    }
  }

  /** No wallet is ever locked by two requests. */
  lemma {:induction false} NeverShared<L, S>(rs: seq<Request<L, S>>, s: Stores<S>, sched: seq<nat>, w: World<L,
      S>, i: nat, j: nat)
    requires WellFormed(rs) && Reached(rs, s, sched, w) && i < |rs| && j < |rs| && i != j
    ensures |w.threads| == |rs| && Bounds(rs[i], w.threads[i]) && Bounds(rs[j], w.threads[j])
    ensures
      var t, u := w.threads[i], w.threads[j];
      forall x, y :: 0 <= x < t.got - t.freed && 0 <= y < u.got - u.freed ==> rs[i].need[x] != rs[j].need[y]
  {
    ReachedInv(rs, s, sched, w);
    if j < i { assert Held(rs[j], w.threads[j]) !! Held(rs[i], w.threads[i]); }
    ApartInTheOpen(rs[i], w.threads[i], rs[j], w.threads[j]);
  }

  lemma {:induction false} PartialIsSerial<L, S>(
    rs: seq<Request<L, S>>, w: World<L, S>, order: seq<nat>, s: Stores<S>)
    requires AllDone(rs, w) && forall k :: 0 <= k < |order| ==> order[k] < |rs|
    ensures Partial(rs, w.threads, order, s) == Serial(rs, order, s)
  {
    if order != [] {
      PartialIsSerial(rs, w, order[..|order| - 1], s);
    }
  }

  /** Serialisability.  Whatever the interleaving, the wallets end as the same
      requests run whole, one after another, in the order in which they got their
      last lock; and every request returns what it returns in that serial run. */
  lemma {:induction false} Serialisable<L, S>(rs: seq<Request<L, S>>, s: Stores<S>, sched: seq<nat>, w: World<L, S>)
    requires WellFormed(rs) && Reached(rs, s, sched, w) && AllDone(rs, w)
    ensures IsOrderOf(w.entered, |rs|)
    ensures w.stores == Serial(rs, w.entered, s)
    ensures forall k :: 0 <= k < |rs| ==>
      var r := rs[w.entered[k]];
      w.threads[w.entered[k]].local == RunSteps(r, |r.steps|, Serial(rs, w.entered[..k], s)).0
  {
    hide Apply, Restrict, RunSteps, Held, Reached;
    ReachedInv(rs, s, sched, w);
    EnteredIsOrder(rs, w);
    PartialIsSerial(rs, w, w.entered, s);
    forall k | 0 <= k < |rs|
      ensures var r := rs[w.entered[k]];
        w.threads[w.entered[k]].local == RunSteps(r, |r.steps|, Serial(rs, w.entered[..k], s)).0
    {
      assert Done(rs[w.entered[k]], w.threads[w.entered[k]]);
      PartialIsSerial(rs, w, w.entered[..k], s);
    }
  }

  /** The same for steps that look at and change their locked wallets only, in terms of
      the steps themselves: the run ends as their composition, one whole request after
      another, each on all the wallets. */
  lemma {:induction false} SerialisablePlain<L(!new), S(!new)>(
    rs: seq<Request<L, S>>, s: Stores<S>, sched: seq<nat>, w: World<L, S>)
    requires WellFormed(rs) && Reached(rs, s, sched, w) && AllDone(rs, w)
    requires forall r :: r in rs ==> Confined(r)
    ensures IsOrderOf(w.entered, |rs|)
    ensures w.stores == PlainSerial(rs, w.entered, s)
    ensures forall k :: 0 <= k < |rs| ==>
      var r := rs[w.entered[k]];
      w.threads[w.entered[k]].local == Plain(r, |r.steps|, PlainSerial(rs, w.entered[..k], s)).0
  {
    hide Apply, Restrict, RunSteps, Held, Reached, Confined, Plain, Serial, PlainSerial;
    Serialisable(rs, s, sched, w);
    SerialIsPlain(rs, w.entered, s);
    forall k | 0 <= k < |rs|
      ensures var r := rs[w.entered[k]];
        w.threads[w.entered[k]].local == Plain(r, |r.steps|, PlainSerial(rs, w.entered[..k], s)).0
    {
      var r := rs[w.entered[k]];
      SerialIsPlain(rs, w.entered[..k], s);
      RunStepsIsPlain(r, |r.steps|, PlainSerial(rs, w.entered[..k], s));
    }
  }

  lemma {:induction false} EnteredIsOrder<L, S>(rs: seq<Request<L, S>>, w: World<L, S>)
    requires EnteredOk(rs, w) && AllDone(rs, w)
    ensures IsOrderOf(w.entered, |rs|)
  {
    forall i | 0 <= i < |rs| ensures i in w.entered {
      assert Done(rs[i], w.threads[i]);
    }
    OrderLength(w.entered, |rs|);
  }

  /** Each of the requests 0..n-1 once, and nothing else. */
  ghost predicate IsOrderOf(order: seq<nat>, n: nat) {
    && |order| == n
    && (forall k :: 0 <= k < |order| ==> order[k] < n)
    && (forall j, k :: 0 <= j < k < |order| ==> order[j] != order[k])
    && (forall i :: 0 <= i < n ==> i in order)
  }

  lemma {:induction false} OrderLength(order: seq<nat>, n: nat)
    requires forall k :: 0 <= k < |order| ==> order[k] < n
    requires forall j, k :: 0 <= j < k < |order| ==> order[j] != order[k]
    requires forall i :: 0 <= i < n ==> i in order
    ensures |order| == n
  {
    if n > 0 {
      assert n - 1 in order;
      var p :| 0 <= p < |order| && order[p] == n - 1;
      var rest := order[..p] + order[p + 1..];
      forall i | 0 <= i < n - 1 ensures i in rest {
        assert i in order;
        var q :| 0 <= q < |order| && order[q] == i;
        assert rest[if q < p then q else q - 1] == i;
      }
      OrderLength(rest, n - 1);
    }
  }

  function AllNames<L, S>(rs: seq<Request<L, S>>): set<string> {
    set i, x | 0 <= i < |rs| && x in rs[i].need :: x
  }

  /** Following who waits for whom climbs the name order, so it ends at a
      request that can move. */
  lemma {:induction false} Chase<L, S>(rs: seq<Request<L, S>>, s: Stores<S>, w: World<L, S>, i: nat, above: set<string>)
    returns (e: nat)
    requires WellFormed(rs) && Inv(rs, s, w) && i < |rs| && !Done(rs[i], w.threads[i])
    requires Acquiring(rs[i], w.threads[i]) ==>
      above == set x | x in AllNames(rs) && Before(rs[i].need[w.threads[i].got], x)
    ensures Enabled(rs, w, e)
    decreases Acquiring(rs[i], w.threads[i]), above
  {
    hide Partial, LaterApart, LocalsOk;
    e := i;
    if !Enabled(rs, w, i) {
      var name := rs[i].need[w.threads[i].got];
      var j :| 0 <= j < |rs| && name in Held(rs[j], w.threads[j]);
      var t := w.threads[j];
      if Acquiring(rs[j], t) {
        var wanted := rs[j].need[t.got];
        assert Before(name, wanted);
        assert 0 <= j < |rs| && wanted in rs[j].need;
        var higher := set x | x in AllNames(rs) && Before(wanted, x);
        forall x | x in higher ensures x in above { BeforeTransitive(name, wanted, x); }
        BeforeIrreflexive(wanted);
        assert wanted in above && wanted !in higher;
        e := Chase(rs, s, w, j, higher);
      } else {
        e := j;
      }
    }
  }

  /** No deadlock: while a request is unfinished, some request can move. */
  lemma {:induction false} NeverStuck<L, S>(rs: seq<Request<L, S>>, s: Stores<S>, sched: seq<nat>, w: World<L, S>)
    requires WellFormed(rs) && Reached(rs, s, sched, w) && !AllDone(rs, w)
    ensures Sized(rs, w) && exists e :: Enabled(rs, w, e)
  {
    ReachedInv(rs, s, sched, w);
    var i :| 0 <= i < |rs| && !Done(rs[i], w.threads[i]);
    var above := if Acquiring(rs[i], w.threads[i])
      then set x | x in AllNames(rs) && Before(rs[i].need[w.threads[i].got], x) else {};
    var e := Chase(rs, s, w, i, above);
  }

  function Left<L, S>(r: Request<L, S>, t: Thread<L>): int {
    (|r.need| - t.got) + (|r.steps| - t.pc) + (|r.need| - t.freed)
  }

  function TotalLeft<L, S>(rs: seq<Request<L, S>>, ts: seq<Thread<L>>): int
    requires |rs| == |ts|
  {
    if rs == [] then 0
    else TotalLeft(rs[..|rs| - 1], ts[..|ts| - 1]) + Left(rs[|rs| - 1], ts[|ts| - 1])
  }

  lemma {:induction false} TotalLeftUpdate<L, S>(rs: seq<Request<L, S>>, ts: seq<Thread<L>>, i: nat, t: Thread<L>)
    requires |rs| == |ts| && i < |rs|
    ensures TotalLeft(rs, ts[i := t]) == TotalLeft(rs, ts) - Left(rs[i], ts[i]) + Left(rs[i], t)
  {
    var n := |rs| - 1;
    if i == n {
      assert ts[i := t][..n] == ts[..n];
    } else {
      assert ts[i := t][..n] == ts[..n][i := t];
      TotalLeftUpdate(rs[..n], ts[..n], i, t);
    }
  }

  lemma {:induction false} TotalLeftZero<L, S>(rs: seq<Request<L, S>>, ts: seq<Thread<L>>)
    requires |rs| == |ts| && forall i :: 0 <= i < |rs| ==> Bounds(rs[i], ts[i])
    ensures TotalLeft(rs, ts) >= 0
    ensures TotalLeft(rs, ts) == 0 <==> forall i :: 0 <= i < |rs| ==> Done(rs[i], ts[i])
  {
    if rs != [] {
      var n := |rs| - 1;
      TotalLeftZero(rs[..n], ts[..n]);
      if forall i :: 0 <= i < n ==> Done(rs[..n][i], ts[..n][i]) {
        forall i | 0 <= i < n ensures Done(rs[i], ts[i]) { assert Done(rs[..n][i], ts[..n][i]); }
      } else {
        var i :| 0 <= i < n && !Done(rs[..n][i], ts[..n][i]);
        assert !Done(rs[i], ts[i]);
      }
    }
  }

  /** Every move uses up exactly one unit of the work there was at the start, so
      a run is finished precisely when it has made that many moves. */
  lemma {:induction false} RunLength<L, S>(rs: seq<Request<L, S>>, s: Stores<S>, sched: seq<nat>, w: World<L, S>)
    requires WellFormed(rs) && Reached(rs, s, sched, w)
    ensures |w.threads| == |rs|
    ensures |sched| + TotalLeft(rs, w.threads) == TotalLeft(rs, Init(rs, s).threads)
    ensures |sched| <= TotalLeft(rs, Init(rs, s).threads)
    ensures AllDone(rs, w) <==> |sched| == TotalLeft(rs, Init(rs, s).threads)
    decreases |sched|
  {
    hide Reached, Next, Init, TotalLeft, Enabled;
    ReachedSized(rs, s, sched, w);
    TotalLeftZero(rs, w.threads);
    if sched != [] {
      var v, i := LastMove(rs, s, sched, w);
      RunLength(rs, s, sched[..|sched| - 1], v);
      NextLeft(rs, v, i, w);
    }
  }

  lemma {:induction false} NextLeft<L, S>(rs: seq<Request<L, S>>, w: World<L, S>, i: nat, v: World<L, S>)
    requires Sized(rs, w) && i < |rs| && !Done(rs[i], w.threads[i]) && v == Next(rs, w, i)
    ensures |v.threads| == |rs| && TotalLeft(rs, v.threads) == TotalLeft(rs, w.threads) - 1
  {
    var t := v.threads[i];
    assert v.threads == w.threads[i := t];
    TotalLeftUpdate(rs, w.threads, i, t);
    assert Left(rs[i], t) == Left(rs[i], w.threads[i]) - 1;
  }

  /** Every run that has not finished can be carried on until it has. */
  lemma {:induction false} AlwaysFinishes<L, S>(rs: seq<Request<L, S>>, s: Stores<S>, sched: seq<nat>, w: World<L, S>)
    returns (more: seq<nat>, end: World<L, S>)
    requires WellFormed(rs) && Reached(rs, s, sched, w)
    ensures sched <= more && Reached(rs, s, more, end) && AllDone(rs, end)
    decreases TotalLeft(rs, Init(rs, s).threads) - |sched|
  {
    RunLength(rs, s, sched, w);
    more, end := sched, w;
    if !AllDone(rs, w) {
      NeverStuck(rs, s, sched, w);
      var e :| Enabled(rs, w, e);
      var longer := sched + [e];
      assert longer[..|longer| - 1] == sched;
      assert Reached(rs, s, longer, Next(rs, w, e));
      RunLength(rs, s, longer, Next(rs, w, e));
      more, end := AlwaysFinishes(rs, s, longer, Next(rs, w, e));
    }
  }

  /** Name order is what does it: with each payment taking its own wallet first,
      two payments in opposite directions reach a state in which neither can move. */
  lemma {:induction false} CallOrderDeadlocks(s: Stores<int>)
    ensures var rs := [Request(["a", "b"], 0, []), Request(["b", "a"], 0, [])];
      exists w: World<int, int> :: Reached(rs, s, [0, 1], w) && Sized(rs, w) &&
        !AllDone(rs, w) && forall e :: !Enabled(rs, w, e)
  {
    var rs: seq<Request<int, int>> := [Request(["a", "b"], 0, []), Request(["b", "a"], 0, [])];
    var w0 := Init(rs, s);
    var w1 := Next(rs, w0, 0);
    var w2 := Next(rs, w1, 1);
    var sched: seq<nat> := [0, 1];
    assert sched[..1] == [0] && [0][..0] == [];
    assert Reached(rs, s, [], w0);
    assert Reached(rs, s, [0], w1) by { assert Sized(rs, w0) && Enabled(rs, w0, 0); }
    assert Held(rs[0], w1.threads[0]) == {"a"} by { assert rs[0].need[..1] == ["a"]; }
    assert "b" != "a" by { assert "b"[0] != "a"[0]; }
    assert Enabled(rs, w1, 1);
    assert Reached(rs, s, sched, w2);
    assert Held(rs[1], w2.threads[1]) == {"b"} by { assert rs[1].need[..1] == ["b"]; }
    assert Held(rs[0], w2.threads[0]) == {"a"};
    assert !Done(rs[0], w2.threads[0]);
  }
}
