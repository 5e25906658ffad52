/** The serve-then-batch-redeem seller (examples/j3-metered-api/metered_api.py).

    `MeteredSeller` accepts bearer tokens that the mint calls unspent, serves, and
    redeems what it holds every `REDEEM_EVERY` tokens.  Its customers may spend a
    token again at any moment, so every call to the mint is preceded by whatever
    everybody else does to the ledger.

    `Books` is what the seller knows, `World` adds the ledger; a run is a sequence
    of `Step`s.  The class methods are proved to perform legal steps and no others,
    and the theorems are about every legal run. */
module MeteredSeller {
  import opened Wrappers

  const PRICE_MC: nat := 100
  const REDEEM_EVERY: nat := 10

  type Key = string

  /** A token string as the codec reads it. */
  datatype Token = Malformed | Token(text: string, mintId: string, amount: nat, key: Key)

  datatype Held = Held(text: string, key: Key, amount: nat, client: string)

  function Face(hs: seq<Held>): nat {
    if hs == [] then 0 else Face(hs[..|hs| - 1]) + hs[|hs| - 1].amount
  }

  function Keys(hs: seq<Held>): set<Key> { set h | h in hs :: h.key }

  function KeyList(hs: seq<Held>): seq<Key> { seq(|hs|, i requires 0 <= i < |hs| => hs[i].key) }

  function Sum(xs: seq<nat>): nat {
    if xs == [] then 0 else Sum(xs[..|xs| - 1]) + xs[|xs| - 1]
  }

  /** Python's list.remove: the first equal element goes. */
  function RemoveFirst(hs: seq<Held>, x: Held): seq<Held> {
    if hs == [] then [] else if hs[0] == x then hs[1..] else [hs[0]] + RemoveFirst(hs[1..], x)
  }

  /** What is left of `hs` after removing batch[n-1], ..., batch[0] where bad. */
  function DropBad(hs: seq<Held>, batch: seq<Held>, bad: set<nat>, n: nat): seq<Held>
    requires n <= |batch|
    decreases n
  {
    if n == 0 then hs
    else DropBad(if n - 1 in bad then RemoveFirst(hs, batch[n - 1]) else hs, batch, bad, n - 1)
  }

  /** The entries of `batch` at bad positions below n, in order. */
  function BadOnes(batch: seq<Held>, bad: set<nat>, n: nat): seq<Held>
    requires n <= |batch|
  {
    if n == 0 then [] else BadOnes(batch, bad, n - 1) + if n - 1 in bad then [batch[n - 1]] else []
  }

  /** The entries of `batch` at the other positions, in order. */
  function GoodOnes(batch: seq<Held>, bad: set<nat>, n: nat): seq<Held>
    requires n <= |batch|
  {
    if n == 0 then [] else GoodOnes(batch, bad, n - 1) + if n - 1 in bad then [] else [batch[n - 1]]
  }

  // ---------------------------------------------------------------- steps --

  /** The seller's state, with four history figures: the face value and keys it has
      accepted so far, the gross it has redeemed and what that burned. */
  datatype Books = Books(
    held: seq<Held>, heldKeys: set<Key>, revenue: seq<nat>, fraudMc: nat, served: nat,
    accepted: seq<Key>, acceptedMc: nat, redeemedMc: nat, burnedMc: nat)

  /** `live` are the unspent ledger entries, `seen` every entry there ever was. */
  datatype World = World(books: Books, live: set<Key>, seen: set<Key>)

  datatype Step =
    | Others(live: set<Key>, seen: set<Key>)   // everybody else acts on the ledger
    | Accept(batch: seq<Held>)                 // one served bearer request
    | Drop(bad: set<nat>)                      // the mint refused these positions
    | Redeem(burn: nat)                        // the mint took the whole batch
    | Draw                                     // one served channel draw

  const EMPTY := Books([], {}, [], 0, 0, [], 0, 0, 0)

  /** Spent stays spent: an entry that is gone never comes back, pruned or not. */
  ghost predicate Later(live0: set<Key>, seen0: set<Key>, live: set<Key>, seen: set<Key>) {
    seen0 <= seen && live <= seen && live * seen0 <= live0
  }

  /** A refused position is spent, unknown, or a repeat within the batch. */
  ghost predicate Refusable(hs: seq<Held>, i: nat, live: set<Key>) {
    i < |hs| && (hs[i].key !in live || exists j :: 0 <= j < i && hs[j].key == hs[i].key)
  }

  ghost predicate Legal(w: World, s: Step) {
    match s
    case Others(live, seen) => Later(w.live, w.seen, live, seen)
    case Accept(batch) =>
      && batch != [] && Face(batch) >= 100
      && Keys(batch) <= w.live && Keys(batch) !! w.books.heldKeys
    case Drop(bad) => bad != {} && forall i :: i in bad ==> Refusable(w.books.held, i, w.live)
    case Redeem(burn) =>
      && w.books.held != [] && burn <= Face(w.books.held)
      && Keys(w.books.held) <= w.live && Distinct(KeyList(w.books.held))
    case Draw => true
  }

  function Do(w: World, s: Step): World {
    var b := w.books;
    match s
    case Others(live, seen) => w.(live := live, seen := seen)
    case Accept(batch) => w.(books := b.(
      held := b.held + batch, heldKeys := b.heldKeys + Keys(batch), served := b.served + 1,
      accepted := b.accepted + KeyList(batch), acceptedMc := b.acceptedMc + Face(batch)))
    case Drop(bad) =>
      var n := |b.held|;
      w.(books := b.(
        held := DropBad(b.held, b.held, bad, n),
        heldKeys := b.heldKeys - Keys(BadOnes(b.held, bad, n)),
        fraudMc := b.fraudMc + Face(BadOnes(b.held, bad, n))))
    case Redeem(burn) =>
      var gross := Face(b.held);
      w.(live := w.live - Keys(b.held),
         books := b.(
           held := [], heldKeys := b.heldKeys - Keys(b.held),
           revenue := b.revenue + [if burn <= gross then gross - burn else 0],
           redeemedMc := b.redeemedMc + gross, burnedMc := b.burnedMc + burn))
    case Draw => w.(books := b.(served := b.served + 1))
  }

  function After(w: World, steps: seq<Step>): World {
    if steps == [] then w else Do(After(w, steps[..|steps| - 1]), steps[|steps| - 1])
  }

  ghost predicate LegalRun(w: World, steps: seq<Step>) {
    steps != [] ==>
      LegalRun(w, steps[..|steps| - 1]) && Legal(After(w, steps[..|steps| - 1]), steps[|steps| - 1])
  }

  lemma {:induction false} RunsJoin(w: World, a: seq<Step>, b: seq<Step>)
    requires LegalRun(w, a) && LegalRun(After(w, a), b)
    ensures LegalRun(w, a + b) && After(w, a + b) == After(After(w, a), b)
  {
    if b == [] {
      assert a + b == a;
    } else {
      var n := |b| - 1;
      RunsJoin(w, a, b[..n]);
      assert (a + b)[..|a + b| - 1] == a + b[..n];
    }
  }

  lemma {:induction false} NoSteps(w: World)
    ensures LegalRun(w, []) && After(w, []) == w
  {
  }

  /** One more step at the end of a legal run. */
  lemma {:induction false} RunGrows(w: World, a: seq<Step>, s: Step)
    requires LegalRun(w, a) && Legal(After(w, a), s)
    ensures LegalRun(w, a + [s]) && After(w, a + [s]) == Do(After(w, a), s)
  {
    assert (a + [s])[..|a + [s]| - 1] == a;
  }

  /** The same, for a run known by where it has got to. */
  lemma {:induction false} Extend(start: World, steps: seq<Step>, now: World, s: Step, next: World)
    requires LegalRun(start, steps) && After(start, steps) == now && Legal(now, s) && Do(now, s) == next
    ensures LegalRun(start, steps + [s]) && After(start, steps + [s]) == next
  {
    RunGrows(start, steps, s);
  }

  lemma {:induction false} OthersMove(start: World, steps: seq<Step>, now: World, next: World)
    requires LegalRun(start, steps) && After(start, steps) == now
    requires Later(now.live, now.seen, next.live, next.seen) && next.books == now.books
    ensures LegalRun(start, steps + [Others(next.live, next.seen)])
    ensures After(start, steps + [Others(next.live, next.seen)]) == next
  {
    Extend(start, steps, now, Others(next.live, next.seen), next);
  }

  lemma {:induction false} BookedStep(at: World, s: Step, now: World)
    requires (s.Redeem? || s.Drop?) && now.books == Do(at, s).books && now.seen == at.seen
    requires now.live == if s.Redeem? then at.live - Keys(at.books.held) else at.live
    ensures Do(at, s) == now
  {
  }

  // ------------------------------------------------------ dropping, exactly --

  lemma {:induction false} FaceJoin(a: seq<Held>, b: seq<Held>)
    ensures Face(a + b) == Face(a) + Face(b)
  {
    if b == [] {
      assert a + b == a;
    } else {
      FaceJoin(a, b[..|b| - 1]);
      assert (a + b)[..|a + b| - 1] == a + b[..|b| - 1];
    }
  }

  lemma {:induction false} RemoveFirstFacts(hs: seq<Held>, x: Held)
    requires x in hs
    ensures multiset(hs) == multiset(RemoveFirst(hs, x)) + multiset{x}
    ensures Face(hs) == Face(RemoveFirst(hs, x)) + x.amount
    ensures |hs| == |RemoveFirst(hs, x)| + 1
  {
    assert hs == [hs[0]] + hs[1..];
    FaceJoin([hs[0]], hs[1..]);
    if hs[0] != x {
      RemoveFirstFacts(hs[1..], x);
      FaceJoin([hs[0]], RemoveFirst(hs[1..], x));
    }
  }

  lemma {:induction false} Cancel(h: multiset<Held>, r: multiset<Held>, b: multiset<Held>, rest: multiset<Held>, x: Held)
    requires h == r + multiset{x} && b == rest + multiset{x} && b <= h
    ensures x in h && rest <= r
  {
    assert b[x] > 0;
    forall y ensures rest[y] <= r[y] {
      assert b[y] <= h[y];
    }
  }

  /** Every dropped entry is found, whether or not the batch repeats entries. */
  lemma {:induction false} DropBadFacts(hs: seq<Held>, batch: seq<Held>, bad: set<nat>, n: nat)
    requires n <= |batch| && multiset(BadOnes(batch, bad, n)) <= multiset(hs)
    ensures Face(hs) == Face(DropBad(hs, batch, bad, n)) + Face(BadOnes(batch, bad, n))
    ensures |hs| == |DropBad(hs, batch, bad, n)| + |BadOnes(batch, bad, n)|
    decreases n
  {
    if n > 0 {
      var x, rest := batch[n - 1], BadOnes(batch, bad, n - 1);
      if n - 1 in bad {
        assert BadOnes(batch, bad, n) == rest + [x];
        DropOne(hs, rest, x);
        DropBadFacts(RemoveFirst(hs, x), batch, bad, n - 1);
        FaceLast(rest, x);
      } else {
        assert BadOnes(batch, bad, n) == rest;
        DropBadFacts(hs, batch, bad, n - 1);
      }
    }
  }

  lemma {:induction false} FaceLast(hs: seq<Held>, x: Held)
    ensures Face(hs + [x]) == Face(hs) + x.amount
  {
    assert (hs + [x])[..|hs|] == hs;
  }

  lemma {:induction false} DropOne(hs: seq<Held>, rest: seq<Held>, x: Held)
    requires multiset(rest + [x]) <= multiset(hs)
    ensures x in hs && multiset(rest) <= multiset(RemoveFirst(hs, x))
    ensures Face(hs) == Face(RemoveFirst(hs, x)) + x.amount && |hs| == |RemoveFirst(hs, x)| + 1
  {
    assert multiset(rest + [x])[x] > 0;
    assert x in multiset(hs);
    RemoveFirstFacts(hs, x);
    Cancel(multiset(hs), multiset(RemoveFirst(hs, x)), multiset(rest + [x]), multiset(rest), x);
  }

  lemma {:induction false} BadOnesWithin(batch: seq<Held>, bad: set<nat>, n: nat)
    requires n <= |batch|
    ensures multiset(BadOnes(batch, bad, n)) <= multiset(batch[..n])
    ensures forall h :: h in BadOnes(batch, bad, n) <==> exists i :: 0 <= i < n && i in bad && batch[i] == h
  {
    if n > 0 {
      BadOnesWithin(batch, bad, n - 1);
      assert batch[..n] == batch[..n - 1] + [batch[n - 1]];
    }
  }

  lemma {:induction false} RemoveAtEnd(a: seq<Held>, x: Held, b: seq<Held>)
    requires x !in a
    ensures RemoveFirst(a + [x] + b, x) == a + b
  {
    if a == [] {
      assert a + [x] + b == [x] + b;
    } else {
      assert (a + [x] + b)[1..] == a[1..] + [x] + b;
      RemoveAtEnd(a[1..], x, b);
      assert a + b == [a[0]] + (a[1..] + b);
    }
  }

  /** With distinct keys the drop removes exactly the bad positions and keeps the
      order of the rest. */
  lemma {:induction false} DropKeepsTheRest(batch: seq<Held>, bad: set<nat>, n: nat, tail: seq<Held>)
    requires n <= |batch| && Distinct(KeyList(batch))
    ensures DropBad(batch[..n] + tail, batch, bad, n) == GoodOnes(batch, bad, n) + tail
    decreases n
  {
    if n > 0 {
      var a, x := batch[..n - 1], batch[n - 1];
      assert batch[..n] + tail == a + [x] + tail;
      if n - 1 in bad {
        forall i | 0 <= i < n - 1 ensures a[i] != x {
          assert KeyList(batch)[i] != KeyList(batch)[n - 1];
        }
        RemoveAtEnd(a, x, tail);
        DropKeepsTheRest(batch, bad, n - 1, tail);
      } else {
        assert a + [x] + tail == a + ([x] + tail);
        DropKeepsTheRest(batch, bad, n - 1, [x] + tail);
        assert GoodOnes(batch, bad, n - 1) + ([x] + tail) == GoodOnes(batch, bad, n) + tail;
      }
    }
  }

  /** A refused batch gets strictly shorter: this is why the retry loop ends. */
  lemma {:induction false} DropShrinks(w: World, bad: set<nat>)
    requires Legal(w, Drop(bad))
    ensures |Do(w, Drop(bad)).books.held| < |w.books.held|
  {
    var hs := w.books.held;
    BadOnesWithin(hs, bad, |hs|);
    assert hs[..|hs|] == hs;
    DropBadFacts(hs, hs, bad, |hs|);
    var i :| i in bad;
    assert hs[i] in BadOnes(hs, bad, |hs|);
  }

  // ---------------------------------------------------------- conservation --

  /** Accepted value is held, lost to fraud, or redeemed; redeemed value is revenue
      or burned. */
  ghost predicate Conserved(b: Books) {
    && b.acceptedMc == Face(b.held) + b.fraudMc + b.redeemedMc
    && b.redeemedMc == Sum(b.revenue) + b.burnedMc
  }

  lemma {:induction false} StepConserves(w: World, s: Step)
    requires Conserved(w.books) && Legal(w, s)
    ensures Conserved(Do(w, s).books)
  {
    var b := w.books;
    match s
    case Accept(batch) => FaceJoin(b.held, batch);
    case Drop(bad) =>
      BadOnesWithin(b.held, bad, |b.held|);
      assert b.held[..|b.held|] == b.held;
      DropBadFacts(b.held, b.held, bad, |b.held|);
    case Redeem(burn) =>
      var net := Face(b.held) - burn;
      assert (b.revenue + [net])[..|b.revenue|] == b.revenue;
    case _ =>
  }

  /** Conservation over every run, even when a request repeats a token and the
      mint's refusals name any positions: no value is created or lost on the books. */
  lemma {:induction false} RunConserves(w: World, steps: seq<Step>)
    requires Conserved(w.books) && LegalRun(w, steps)
    ensures Conserved(After(w, steps).books)
  {
    if steps != [] {
      RunConserves(w, steps[..|steps| - 1]);
      StepConserves(After(w, steps[..|steps| - 1]), steps[|steps| - 1]);
    }
  }

  /** What the redemptions of a run burn. */
  function BurnOf(steps: seq<Step>): nat {
    if steps == [] then 0
    else
      var s := steps[|steps| - 1];
      BurnOf(steps[..|steps| - 1]) + if s.Redeem? then s.burn else 0
  }

  /** Between these two the step enters in `revenue`, if it is a redemption, the face
      value held before less its burn, and else nothing. */
  ghost predicate BooksTheNet(was: Books, now: Books, s: Step) {
    if s.Redeem? then
      && |now.revenue| == |was.revenue| + 1 && now.revenue[..|was.revenue|] == was.revenue
      && now.revenue[|was.revenue|] == Face(was.held) - s.burn
    else now.revenue == was.revenue
  }

  /** Which figure is which, in every run: what is booked as burned is what the
      redemptions burned, and a redemption, and nothing else, adds a revenue entry: the
      face value held just before it less its own burn. */
  lemma {:induction false} RunBooksTheNet(w: World, steps: seq<Step>)
    requires LegalRun(w, steps)
    ensures After(w, steps).books.burnedMc == w.books.burnedMc + BurnOf(steps)
    ensures forall n :: 0 <= n < |steps| ==>
      BooksTheNet(After(w, steps[..n]).books, After(w, steps[..n + 1]).books, steps[n])
  {
    hide Legal, Do, BooksTheNet;
    if steps != [] {
      var m := |steps| - 1;
      var pre := steps[..m];
      RunBooksTheNet(w, pre);
      StepBooksTheNet(After(w, pre), steps[m]);
      assert steps[..m + 1] == steps;
      forall n | 0 <= n < m
        ensures BooksTheNet(After(w, steps[..n]).books, After(w, steps[..n + 1]).books, steps[n])
      {
        assert BooksTheNet(After(w, pre[..n]).books, After(w, pre[..n + 1]).books, pre[n]);
        assert pre[..n] == steps[..n] && pre[..n + 1] == steps[..n + 1];
      }
    }
  }

  lemma {:induction false} StepBooksTheNet(w: World, s: Step)
    requires Legal(w, s)
    ensures BooksTheNet(w.books, Do(w, s).books, s)
    ensures Do(w, s).books.burnedMc == w.books.burnedMc + if s.Redeem? then s.burn else 0
  {
  }

  lemma {:induction false} DropMovesToFraud(w: World, bad: set<nat>)
    requires Legal(w, Drop(bad))
    ensures
      var was, now := w.books, Do(w, Drop(bad)).books;
      Face(now.held) + now.fraudMc == Face(was.held) + was.fraudMc
  {
    var hs := w.books.held;
    BadOnesWithin(hs, bad, |hs|);
    assert hs[..|hs|] == hs;
    DropBadFacts(hs, hs, bad, |hs|);
  }

  // ------------------------------------------------------- held_keys, once --

  ghost predicate KeysTrue(b: Books) {
    b.heldKeys == Keys(b.held) && Distinct(KeyList(b.held))
  }

  /** Requests without a repeated token. */
  ghost predicate NoRepeats(steps: seq<Step>) {
    forall i :: 0 <= i < |steps| && steps[i].Accept? ==> Distinct(KeyList(steps[i].batch))
  }

  lemma {:induction false} KeysOfJoin(a: seq<Held>, b: seq<Held>)
    ensures Keys(a + b) == Keys(a) + Keys(b)
    ensures KeyList(a + b) == KeyList(a) + KeyList(b)
  {
    forall k | k in Keys(a) + Keys(b) ensures k in Keys(a + b) {
      var h :| (h in a || h in b) && h.key == k;
      assert h in a + b;
    }
  }

  lemma {:induction false} InKeys(hs: seq<Held>, k: Key)
    ensures k in Keys(hs) <==> k in KeyList(hs)
    ensures k in Keys(hs) <==> exists i :: 0 <= i < |hs| && hs[i].key == k
  {
    if k in Keys(hs) {
      var h :| h in hs && h.key == k;
      var i :| 0 <= i < |hs| && hs[i] == h;
      assert KeyList(hs)[i] == k;
    }
    if k in KeyList(hs) {
      var i :| 0 <= i < |KeyList(hs)| && KeyList(hs)[i] == k;
      assert hs[i] in hs;
    }
  }

  /** The survivors of a drop: an ordered selection, so still distinct ... */
  lemma {:induction false} GoodOnesDistinct(batch: seq<Held>, bad: set<nat>, n: nat)
    requires n <= |batch| && Distinct(KeyList(batch))
    ensures Distinct(KeyList(GoodOnes(batch, bad, n)))
    ensures forall h :: h in GoodOnes(batch, bad, n) ==> exists i :: 0 <= i < n && batch[i] == h
  {
    if n > 0 {
      var good, x := GoodOnes(batch, bad, n - 1), batch[n - 1];
      GoodOnesDistinct(batch, bad, n - 1);
      if n - 1 in bad {
        assert good + [] == good;
      } else {
        KeysOfJoin(good, [x]);
        DistinctJoin(KeyList(good), KeyList([x]));
        forall i | 0 <= i < |good| ensures good[i].key != x.key {
          assert good[i] in good;
          var j :| 0 <= j < n - 1 && batch[j] == good[i];
          assert KeyList(batch)[j] != KeyList(batch)[n - 1];
        }
      }
    }
  }

  /** ... and their keys are the batch's keys less the dropped ones. */
  lemma {:induction false} GoodOnesKeys(batch: seq<Held>, bad: set<nat>, n: nat)
    requires n <= |batch| && Distinct(KeyList(batch))
    ensures Keys(GoodOnes(batch, bad, n)) == Keys(batch[..n]) - Keys(BadOnes(batch, bad, n))
    ensures Keys(BadOnes(batch, bad, n)) <= Keys(batch[..n])
  {
    hide KeyList;
    if n > 0 {
      var a, x := batch[..n - 1], batch[n - 1];
      var good, ugly := GoodOnes(batch, bad, n - 1), BadOnes(batch, bad, n - 1);
      GoodOnesKeys(batch, bad, n - 1);
      assert batch[..n] == a + [x];
      KeysOfJoin(a, [x]);
      NotAmong(batch, n - 1);
      assert Keys([x]) == {x.key} by { assert [x][0] in [x]; }
      if n - 1 in bad {
        KeysOfJoin(ugly, [x]);
        assert good + [] == good;
      } else {
        KeysOfJoin(good, [x]);
        assert ugly + [] == ugly;
      }
    }
  }

  lemma {:induction false} NotAmong(batch: seq<Held>, n: nat)
    requires n < |batch| && Distinct(KeyList(batch))
    ensures batch[n].key !in Keys(batch[..n])
  {
    InKeys(batch[..n], batch[n].key);
    forall i | 0 <= i < n ensures batch[i].key != batch[n].key {
      assert KeyList(batch)[i] != KeyList(batch)[n];
    }
  }

  lemma {:induction false} DropKeys(w: World, bad: set<nat>)
    requires KeysTrue(w.books) && Legal(w, Drop(bad))
    ensures KeysTrue(Do(w, Drop(bad)).books)
    ensures Keys(BadOnes(w.books.held, bad, |w.books.held|)) !! w.live
  {
    var hs := w.books.held;
    var n := |hs|;
    assert hs[..n] + [] == hs && hs[..n] == hs;
    DropKeepsTheRest(hs, bad, n, []);
    assert GoodOnes(hs, bad, n) + [] == GoodOnes(hs, bad, n);
    GoodOnesDistinct(hs, bad, n);
    GoodOnesKeys(hs, bad, n);
    BadOnesWithin(hs, bad, n);
    forall k | k in Keys(BadOnes(hs, bad, n)) ensures k !in w.live {
      var h :| h in BadOnes(hs, bad, n) && h.key == k;
      var i :| 0 <= i < n && i in bad && hs[i] == h;
      assert Refusable(hs, i, w.live);
      forall j | 0 <= j < i ensures hs[j].key != hs[i].key {
        assert KeyList(hs)[j] != KeyList(hs)[i];
      }
    }
  }

  lemma {:induction false} DistinctJoin(a: seq<Key>, b: seq<Key>)
    ensures Distinct(a + b) <==> Distinct(a) && Distinct(b) && forall i, j :: 0 <= i < |a| && 0 <= j < |b| ==> a[i] != b[j]
  {
    if Distinct(a + b) {
      forall i, j | 0 <= i < j < |a| ensures a[i] != a[j] { assert (a + b)[i] != (a + b)[j]; }
      forall i, j | 0 <= i < j < |b| ensures b[i] != b[j] { assert (a + b)[|a| + i] != (a + b)[|a| + j]; }
      forall i, j | 0 <= i < |a| && 0 <= j < |b| ensures a[i] != b[j] { assert (a + b)[i] != (a + b)[|a| + j]; }
    }
  }

  /** Everything known about a run in which no request repeats a token. */
  ghost predicate OnceInv(w: World) {
    && KeysTrue(w.books) && w.live <= w.seen && Distinct(w.books.accepted)
    && (forall k :: k in w.books.accepted ==> k in w.seen && (k in w.books.heldKeys || k !in w.live))
    && (forall k :: k in w.books.heldKeys ==> k in w.books.accepted)
  }

  lemma {:induction false} AcceptOnce(w: World, batch: seq<Held>)
    requires OnceInv(w) && Legal(w, Accept(batch)) && Distinct(KeyList(batch))
    ensures OnceInv(Do(w, Accept(batch)))
  {
    var b := w.books;
    KeysOfJoin(b.held, batch);
    forall k ensures k in Keys(batch) <==> k in KeyList(batch) { InKeys(batch, k); }
    forall k ensures k in Keys(b.held) <==> k in KeyList(b.held) { InKeys(b.held, k); }
    forall j | 0 <= j < |batch| ensures KeyList(batch)[j] in Keys(batch) { assert batch[j] in batch; }
    DistinctJoin(KeyList(b.held), KeyList(batch));
    DistinctJoin(b.accepted, KeyList(batch));
  }

  lemma {:induction false} StepOnce(w: World, s: Step)
    requires OnceInv(w) && Legal(w, s) && (s.Accept? ==> Distinct(KeyList(s.batch)))
    ensures OnceInv(Do(w, s))
  {
    match s
    case Accept(batch) => AcceptOnce(w, batch);
    case Drop(bad) => DropKeys(w, bad);
    case _ =>
  }

  lemma {:induction false} RunOnce(w: World, steps: seq<Step>)
    requires OnceInv(w) && LegalRun(w, steps) && NoRepeats(steps)
    ensures OnceInv(After(w, steps))
  {
    if steps != [] {
      var n := |steps| - 1;
      assert NoRepeats(steps[..n]);
      RunOnce(w, steps[..n]);
      StepOnce(After(w, steps[..n]), steps[n]);
    }
  }

  lemma {:induction false} AcceptedGrows(w: World, steps: seq<Step>, n: nat)
    requires n <= |steps|
    ensures After(w, steps[..n]).books.accepted <= After(w, steps).books.accepted
    decreases |steps|
  {
    if n < |steps| {
      var m := |steps| - 1;
      assert steps[..m][..n] == steps[..n];
      AcceptedGrows(w, steps[..m], n);
    } else {
      assert steps[..n] == steps;
    }
  }

  /** At-most-once service, exactly.  Starting with empty books, no key is accepted
      twice in a whole run if and only if no single request repeats a token. */
  lemma {:induction false} ServedAtMostOnce(w: World, steps: seq<Step>)
    requires w.books == EMPTY && w.live <= w.seen && LegalRun(w, steps)
    ensures Distinct(After(w, steps).books.accepted) <==> NoRepeats(steps)
    ensures NoRepeats(steps) ==> KeysTrue(After(w, steps).books)
  {
    hide LegalRun, Legal, OnceInv, KeyList, Do;
    StartsOnce(w);
    if NoRepeats(steps) {
      RunOnce(w, steps);
      OnceMeans(After(w, steps));
    } else {
      var i :| 0 <= i < |steps| && steps[i].Accept? && !Distinct(KeyList(steps[i].batch));
      AcceptedGrows(w, steps, i + 1);
      AcceptAdds(w, steps, i);
      var old_, new_ := After(w, steps[..i]).books.accepted, KeyList(steps[i].batch);
      DistinctJoin(old_, new_);
      var all, head := After(w, steps).books.accepted, old_ + new_;
      assert all == head + all[|head|..];
      DistinctJoin(head, all[|head|..]);
    }
  }

  lemma {:induction false} StartsOnce(w: World)
    requires w.books == EMPTY && w.live <= w.seen
    ensures OnceInv(w)
  {
  }

  lemma {:induction false} OnceMeans(w: World)
    requires OnceInv(w)
    ensures KeysTrue(w.books) && Distinct(w.books.accepted)
  {
  }

  lemma {:induction false} AcceptAdds(w: World, steps: seq<Step>, i: nat)
    requires i < |steps| && steps[i].Accept?
    ensures var was, now := After(w, steps[..i]).books, After(w, steps[..i + 1]).books;
      now.accepted == was.accepted + KeyList(steps[i].batch) && now.held == was.held + steps[i].batch
  {
    var pre := steps[..i + 1];
    assert pre[..i] == steps[..i] && pre[i] == steps[i];
  }

  lemma {:induction false} PrefixLegal(w: World, steps: seq<Step>, n: nat)
    requires n <= |steps| && LegalRun(w, steps)
    ensures LegalRun(w, steps[..n])
    decreases |steps|
  {
    if n == |steps| {
      assert steps[..n] == steps;
    } else {
      var m := |steps| - 1;
      PrefixLegal(w, steps[..m], n);
      assert steps[..m][..n] == steps[..n];
    }
  }

  /** held_keys, exactly: it is the key set of what is held, without repeats, all along
      a run if and only if no single request repeats a token. */
  lemma {:induction false} HeldKeysTrueExactly(w: World, steps: seq<Step>)
    requires w.books == EMPTY && w.live <= w.seen && LegalRun(w, steps)
    ensures NoRepeats(steps) <==> forall n | 0 <= n <= |steps| :: KeysTrue(After(w, steps[..n]).books)
  {
    hide LegalRun, Legal, OnceInv;
    if NoRepeats(steps) {
      forall n | 0 <= n <= |steps| ensures KeysTrue(After(w, steps[..n]).books) {
        PrefixLegal(w, steps, n);
        ServedAtMostOnce(w, steps[..n]);
      }
    } else {
      var i :| 0 <= i < |steps| && steps[i].Accept? && !Distinct(KeyList(steps[i].batch));
      var pre, held, batch := steps[..i + 1], After(w, steps[..i]).books.held, steps[i].batch;
      AcceptAdds(w, steps, i);
      assert KeyList(held + batch) == KeyList(held) + KeyList(batch);
      DistinctJoin(KeyList(held), KeyList(batch));
      assert !KeysTrue(After(w, pre).books);
    }
  }

  /** The code checks each token against what is held, never against the rest of
      its own request, so one request can break `held_keys`: two copies of a token
      worth 50 are accepted as 100, the mint refuses the second as spent, and the
      first is then held under a key `held_keys` no longer has. */
  lemma {:induction false} RepeatedTokenBreaksHeldKeys()
    ensures var h := Held("t", "k", 50, "mallory");
      var w, run := World(EMPTY, {"k"}, {"k"}), [Accept([h, h]), Drop({1})];
      LegalRun(w, run) && After(w, run).books.held == [h] && After(w, run).books.heldKeys == {}
      && !KeysTrue(After(w, run).books)
  {
    hide LegalRun, After;
    var h := Held("t", "k", 50, "mallory");
    var w, two := World(EMPTY, {"k"}, {"k"}), [h, h];
    TwoCopies(h);
    NoSteps(w);
    var v := World(Books(two, {"k"}, [], 0, 1, ["k", "k"], 100, 0, 0), {"k"}, {"k"});
    assert Do(w, Accept(two)) == v by { assert [] + two == two && KeyList(two) == ["k", "k"]; }
    Extend(w, [], w, Accept(two), v);
    assert Legal(v, Drop({1})) by { assert two[0].key == two[1].key; assert Refusable(two, 1, {"k"}); }
    Extend(w, [] + [Accept(two)], v, Drop({1}), Do(v, Drop({1})));
    assert [] + [Accept(two)] + [Drop({1})] == [Accept(two), Drop({1})];
    assert Keys([h]) == {"k"} by { assert [h][0] in [h]; }
  }

  lemma {:induction false} TwoCopies(h: Held)
    ensures Face([h, h]) == 2 * h.amount && Keys([h, h]) == {h.key}
    ensures BadOnes([h, h], {1}, 2) == [h] && DropBad([h, h], [h, h], {1}, 2) == [h]
    ensures Face([h]) == h.amount && Keys([h]) == {h.key}
  {
    var two, bad: set<nat> := [h, h], {1};
    assert two == [h] + [h] && [h] == [] + [h];
    FaceLast([h], h);
    FaceLast([], h);
    assert two[0] in two && [h][0] in [h];
    assert 0 !in bad && 1 in bad;
    assert BadOnes(two, bad, 0) == [];
    assert BadOnes(two, bad, 1) == [] + [];
    assert BadOnes(two, bad, 2) == [] + [two[1]];
    assert RemoveFirst(two, two[1]) == two[1..] == [h];
    assert DropBad([h], two, bad, 0) == [h];
    assert DropBad([h], two, bad, 1) == [h];
  }

  // ------------------------------------------------------------- the mint --

  datatype TokenState = Unspent | Spent | Unknown
  datatype Reason = IsSpent | IsUnknown | IsOther
  datatype Problem = Problem(index: Option<int>, isInput: bool, reason: Reason)
  datatype Outcome = Exchanged | Rejected(problems: seq<Problem>) | Unavailable

  lemma {:induction false} CanAccept(w: World, batch: seq<Held>)
    requires Face(batch) >= PRICE_MC && Keys(batch) !! w.books.heldKeys
    requires forall i :: 0 <= i < |batch| ==> KeyList(batch)[i] in w.live
    ensures Legal(w, Accept(batch))
  {
    forall k | k in Keys(batch) ensures k in w.live { InKeys(batch, k); }
  }

  /** What the ledger says about an input is so. */
  ghost predicate TrueProblem(p: Problem, hs: seq<Held>, live: set<Key>) {
    p.isInput ==> (p.index.Some? && 0 <= p.index.value < |hs| &&
                   (p.reason != IsOther ==> Refusable(hs, p.index.value, live)))
  }

  /** The ledger behind the HTTP client.  Before it answers, everybody else may have
      acted; a call that fails in transport may or may not have committed. */
  class Mint {
    /** Nobody else acts, every call is answered, and none is unbalanced or locked. */
    const calm: bool
    var live: set<Key>
    var seen: set<Key>
    /** What it priced and the burn it asked for, and the outputs it made. */
    ghost var priced: seq<(nat, Option<nat>)>
    ghost var paid: seq<nat>

    ghost predicate Valid() reads this { live <= seen }

    method OthersAct()
      requires Valid()
      modifies this`live, this`seen
      ensures Valid() && Later(old(live), old(seen), live, seen)
      ensures calm ==> live == old(live) && seen == old(seen)
    {
      if calm { return; }
      var l: set<Key>, s: set<Key> := *, *;
      s := seen + s;
      live := s * l - (seen - live);
      seen := s;
    }

    method Status(keys: seq<Key>) returns (states: Option<seq<TokenState>>)
      requires Valid()
      modifies this`live, this`seen
      ensures Valid() && Later(old(live), old(seen), live, seen)
      ensures calm ==> live == old(live) && seen == old(seen) && states.Some?
      ensures states.Some? ==> |states.value| == |keys|
      ensures states.Some? ==> forall i :: 0 <= i < |keys| ==>
        states.value[i] == if keys[i] in live then Unspent else if keys[i] in seen then Spent else Unknown
    {
      OthersAct();
      var l, s := live, seen;
      var up: bool := *;
      states := if !up && !calm then None else Some(seq(|keys|, i requires 0 <= i < |keys| =>
        if keys[i] in l then Unspent else if keys[i] in s then Spent else Unknown));
    }

    /** `burn_policy` from the descriptor, applied to the batch. */
    method Burn(gross: nat) returns (burn: Option<nat>)
      requires Valid()
      modifies this`live, this`seen, this`priced
      ensures Valid() && Later(old(live), old(seen), live, seen)
      ensures calm ==> live == old(live) && seen == old(seen) && burn.Some?
      ensures burn.Some? ==> burn.value <= gross
      ensures priced == old(priced) + [(gross, burn)]
    {
      OthersAct();
      var up: bool, b: nat := *, *;
      burn := if up && b <= gross then Some(b) else if calm then Some(gross) else None;
      priced := priced + [(gross, burn)];
    }

    /** `before` is the ledger at the instant the exchange ran. */
    method Exchange(hs: seq<Held>, net: nat) returns (o: Outcome, ghost before: (set<Key>, set<Key>))
      requires Valid() && hs != []
      modifies this`live, this`seen, this`paid
      ensures Valid() && Later(old(live), old(seen), before.0, before.1)
      ensures o.Exchanged? ==> Keys(hs) <= before.0 && Distinct(KeyList(hs)) && paid == old(paid) + [net]
      ensures o.Exchanged? ==> live == before.0 - Keys(hs) && seen == before.1
      ensures o.Rejected? ==> (live, seen) == before && forall p :: p in o.problems ==> TrueProblem(p, hs, live)
      ensures o.Rejected? ==> paid == old(paid)
      ensures o.Unavailable? ==> Later(before.0, before.1, live, seen)
      ensures calm ==> before == (old(live), old(seen)) && !o.Unavailable?
      ensures calm ==> (o.Exchanged? <==> Keys(hs) <= old(live) && Distinct(KeyList(hs)))
      ensures calm && o.Rejected? ==> Names(o.problems, hs, old(live)) && exists i: nat :: Named(o.problems, i)
    {
      OthersAct();
      SomeRefusable(hs, live);
      before := (live, seen);
      var problems := Problems(hs);
      var up: bool, other: bool := *, *;
      if !calm && !up {
        var committed: bool := *;
        if committed && problems == [] { live, paid := live - Keys(hs), paid + [net]; }
        o := Unavailable;
      } else if !calm && other {
        // a mismatched amount, a locked token, or an unbalanced call
        o := Rejected(problems + [Problem(None, false, IsOther), Problem(Some(0), true, IsOther)]);
      } else if problems != [] {
        o := Rejected(problems);
      } else {
        live, paid := live - Keys(hs), paid + [net];
        o := Exchanged;
      }
    }

    /** One problem for each input that is spent, unknown, or a repeat. */
    method Problems(hs: seq<Held>) returns (problems: seq<Problem>)
      ensures forall p :: p in problems ==> TrueProblem(p, hs, live)
      ensures problems == [] <==> Keys(hs) <= live && Distinct(KeyList(hs))
      ensures Names(problems, hs, live)
    {
      problems := [];
      var before: set<Key> := {};
      for i := 0 to |hs|
        invariant before == Keys(hs[..i])
        invariant forall p :: p in problems ==> TrueProblem(p, hs, live)
        invariant forall n | 0 <= n < i :: Refusable(hs, n, live) <==> Named(problems, n)
        invariant forall p :: p in problems ==> p.isInput && p.reason != IsOther && p.index.Some? && 0 <= p.index.value < i
        invariant problems == [] <==> Keys(hs[..i]) <= live && Distinct(KeyList(hs[..i]))
      {
        var k := hs[i].key;
        ghost var a, was := hs[..i], problems;
        NextKey(hs, i, live);
        if k in before {
          problems := problems + [Problem(Some(i), true, IsSpent)];
        } else if k !in live {
          problems := problems + [Problem(Some(i), true, if k in seen then IsSpent else IsUnknown)];
        }
        forall n | 0 <= n < i ensures Named(problems, n) <==> Named(was, n) { NamedGrows(was, problems, n, i); }
        if problems != was {
          assert problems[|was|] in problems && problems[|was|].index == Some(i);
          assert Named(problems, i);
        } else {
          assert !Named(problems, i);
        }
        before := before + {k};
      }
      assert hs[..|hs|] == hs;
    }
  }

  /** The mint says of the input at this position that it is spent or unknown. */
  ghost predicate Named(problems: seq<Problem>, i: nat) {
    exists p :: p in problems && p.isInput && p.reason != IsOther && p.index == Some(i)
  }

  ghost predicate Names(problems: seq<Problem>, hs: seq<Held>, live: set<Key>) {
    forall i | 0 <= i < |hs| :: Refusable(hs, i, live) <==> Named(problems, i)
  }

  lemma {:induction false} NamedGrows(was: seq<Problem>, now: seq<Problem>, n: nat, i: nat)
    requires n < i && (now == was || exists p: Problem :: p.index == Some(i) && now == was + [p])
    ensures Named(now, n) <==> Named(was, n)
  {
    if now != was {
      var p: Problem :| p.index == Some(i) && now == was + [p];
      assert forall q :: q in now <==> q in was || q == p;
    }
  }

  lemma {:induction false} NextKey(hs: seq<Held>, i: nat, live: set<Key>)
    requires i < |hs|
    ensures
      var a, k := hs[..i], hs[i].key;
      && Keys(hs[..i + 1]) == Keys(a) + {k}
      && (Refusable(hs, i, live) <==> k in Keys(a) || k !in live)
      && (Distinct(KeyList(hs[..i + 1])) <==> Distinct(KeyList(a)) && k !in Keys(a))
  {
    var a, k := hs[..i], hs[i].key;
    assert hs[..i + 1] == a + [hs[i]];
    KeysOfJoin(a, [hs[i]]);
    assert Keys([hs[i]]) == {k} by { assert [hs[i]][0] in [hs[i]]; }
    InKeys(a, k);
    assert (exists j :: 0 <= j < |a| && a[j].key == k) ==> exists j :: 0 <= j < i && hs[j].key == k;
    DistinctJoin(KeyList(a), [k]);
    assert KeyList([hs[i]]) == [k];
    assert k in KeyList(a) <==> exists j :: 0 <= j < |a| && KeyList(a)[j] == [k][0];
    forall j | 0 <= j < i ensures hs[j].key == k ==> k in Keys(a) { assert a[j] in a; }
  }

  // ----------------------------------------------------------- the seller --

  datatype ChannelDraw = ChannelDraw(known: bool, good: bool)
  datatype Envelope = Envelope(mintId: string, draw: Option<ChannelDraw>, tokens: seq<Token>)
  datatype Refusal = BadFormat(index: nat) | AmountMismatch | AlreadySpent(index: nat)
    | NotUnspent(problems: seq<(nat, TokenState)>) | UnknownChannel | BadDraw
  datatype Pass = Again | Done | Failed
  datatype Answer = Served | Refused(why: Refusal) | Raised

  predicate NoneRaised(answers: seq<Answer>) { forall i | 0 <= i < |answers| :: !answers[i].Raised? }

  /** A request's tokens as they would be held, when all parse for this mint. */
  function AsHeld(ts: seq<Token>, client: string): seq<Held>
    requires forall t :: t in ts ==> t.Token?
  {
    seq(|ts|, i requires 0 <= i < |ts| => assert ts[i] in ts; Held(ts[i].text, ts[i].key, ts[i].amount, client))
  }

  predicate Parses(t: Token, mintId: string) { t.Token? && t.mintId == mintId }

  /** With fewer than ten in all the tokens are held as well; with ten or more everything
      is redeemed. */
  ghost predicate HeldOrRedeemed(was: Books, parsed: seq<Held>, now: Books, priced: seq<(nat, Option<nat>)>) {
    var both := was.(held := was.held + parsed);
    if |was.held| + |parsed| < 10 then
      && now.held == both.held && now.heldKeys == was.heldKeys + Keys(parsed)
      && now.revenue == was.revenue && now.fraudMc == was.fraudMc && now.burnedMc == was.burnedMc
    else Redeemed(both, now, priced)
  }

  /** Served if all these keys are unspent, and else refused for those that are not, each
      at its position, in order, with the ledger's word for it. */
  ghost predicate AsTheLedgerSays(a: Answer, keys: seq<Key>, live: set<Key>, seen: set<Key>) {
    if forall i :: 0 <= i < |keys| ==> keys[i] in live then a.Served?
    else
      && a.Refused? && a.why.NotUnspent?
      && (forall p: (nat, TokenState) :: p in a.why.problems <==>
            p.0 < |keys| && keys[p.0] !in live && p.1 == if keys[p.0] in seen then Spent else Unknown)
      && forall m, n :: 0 <= m < n < |a.why.problems| ==> a.why.problems[m].0 < a.why.problems[n].0
  }

  /** Everything held was exchanged or refused.  The face value of what was left to
      exchange is the last the mint priced; it is booked less the burn it asked for. */
  ghost predicate Redeemed(was: Books, now: Books, priced: seq<(nat, Option<nat>)>) {
    && now.held == []
    && var gross := Face(was.held) + was.fraudMc - now.fraudMc;
       || (gross == 0 && now.revenue == was.revenue && now.burnedMc == was.burnedMc)
       || (priced != [] && priced[|priced| - 1].0 == gross && priced[|priced| - 1].1.Some? &&
           var burn := priced[|priced| - 1].1.value;
           burn <= gross && now.revenue == was.revenue + [gross - burn] && now.burnedMc == was.burnedMc + burn)
  }

  lemma {:induction false} WholeRedeemed(start: Books, was: Books, now: Books, priced: seq<(nat, Option<nat>)>)
    requires now.held == [] && now.fraudMc == was.fraudMc && priced != [] && priced[|priced| - 1].1.Some?
    requires
      var (g, b) := priced[|priced| - 1];
      && g == Face(was.held) && b.value <= g && now.burnedMc == was.burnedMc + b.value
      && now.revenue == was.revenue + [g - b.value]
    requires was.revenue == start.revenue && was.burnedMc == start.burnedMc
    requires Face(was.held) + was.fraudMc == Face(start.held) + start.fraudMc
    ensures Redeemed(start, now, priced)
  {
  }

  lemma {:induction false} RedeemedAlike(was: Books, like: Books, now: Books, priced: seq<(nat, Option<nat>)>)
    requires Redeemed(was, now, priced) && was.held == like.held && was.fraudMc == like.fraudMc
    requires was.revenue == like.revenue && was.burnedMc == like.burnedMc
    ensures Redeemed(like, now, priced)
  {
  }

  lemma {:induction false} NothingToRedeem(was: Books, now: Books, priced: seq<(nat, Option<nat>)>)
    requires now.held == [] && now.revenue == was.revenue && now.burnedMc == was.burnedMc
    requires Face(now.held) + now.fraudMc == Face(was.held) + was.fraudMc
    ensures Redeemed(was, now, priced)
  {
  }

  lemma {:induction false} SomeRefusable(hs: seq<Held>, live: set<Key>)
    ensures (Keys(hs) <= live && Distinct(KeyList(hs))) || exists i: nat :: i < |hs| && Refusable(hs, i, live)
  {
    if !Distinct(KeyList(hs)) {
      var i, j :| 0 <= i < j < |hs| && KeyList(hs)[i] == KeyList(hs)[j];
      assert Refusable(hs, j, live);
    } else if !(Keys(hs) <= live) {
      var k :| k in Keys(hs) && k !in live;
      InKeys(hs, k);
      var i :| 0 <= i < |hs| && hs[i].key == k;
      assert Refusable(hs, i, live);
    }
  }

  class MeteredSeller {
    const mint: Mint
    const mintId: string
    var held: seq<Held>
    var heldKeys: set<Key>
    var revenue: seq<nat>
    var fraudMc: nat
    var served: nat
    var rejections: seq<(string, Refusal)>
    var exchangeCalls: nat
    var statusCalls: nat
    ghost var accepted: seq<Key>
    ghost var acceptedMc: nat
    ghost var redeemedMc: nat
    ghost var burnedMc: nat

    ghost function BooksNow(): Books reads this {
      Books(held, heldKeys, revenue, fraudMc, served, accepted, acceptedMc, redeemedMc, burnedMc)
    }

    ghost function Now(): World reads this, mint { World(BooksNow(), mint.live, mint.seen) }

    constructor (mint: Mint, mintId: string)
      ensures this.mint == mint && this.mintId == mintId && BooksNow() == EMPTY
    {
      this.mint, this.mintId := mint, mintId;
      held, heldKeys, revenue, fraudMc, served := [], {}, [], 0, 0;
      rejections, exchangeCalls, statusCalls := [], 0, 0;
      accepted, acceptedMc, redeemedMc, burnedMc := [], 0, 0, 0;
    }

    method Refuse(why: Refusal, client: string) returns (a: Answer)
      modifies this`rejections
      ensures a == Refused(why) && rejections == old(rejections) + [(client, why)]
    {
      rejections := rejections + [(client, why)];
      a := Refused(why);
    }

    /** Drop the positions the mint refused, highest first. */
    method DropRefused(bad: set<nat>)
      requires forall i :: i in bad ==> i < |held|
      modifies this`held, this`heldKeys, this`fraudMc
      ensures held == DropBad(old(held), old(held), bad, |old(held)|)
      ensures heldKeys == old(heldKeys) - Keys(BadOnes(old(held), bad, |old(held)|))
      ensures fraudMc == old(fraudMc) + Face(BadOnes(old(held), bad, |old(held)|))
    {
      var batch := held;
      var i := |batch|;
      ghost var all := BadOnes(batch, bad, |batch|);
      ghost var gone: seq<Held> := [];
      while i > 0
        invariant 0 <= i <= |batch|
        invariant BadOnes(batch, bad, i) + gone == all
        invariant DropBad(held, batch, bad, i) == DropBad(batch, batch, bad, |batch|)
        invariant heldKeys == old(heldKeys) - Keys(gone)
        invariant fraudMc == old(fraudMc) + Face(gone)
      {
        i := i - 1;
        if i in bad {
          var h := batch[i];
          fraudMc := fraudMc + h.amount;
          held := RemoveFirst(held, h);
          heldKeys := heldKeys - {h.key};
          FaceJoin([h], gone);
          KeysOfJoin([h], gone);
          assert Keys([h]) == {h.key} by { assert [h][0] in [h]; }
          assert Face([h]) == h.amount by { assert [h][..0] == []; }
          assert BadOnes(batch, bad, i) + ([h] + gone) == BadOnes(batch, bad, i + 1) + gone;
          gone := [h] + gone;
        } else {
          assert BadOnes(batch, bad, i + 1) == BadOnes(batch, bad, i);
        }
      }
      assert gone == all by { assert [] + gone == gone; }
    }

    /** The answer to a whole-batch exchange, entered in the books. */
    method Book(o: Outcome, burn: nat, ghost at: World) returns (r: Pass, ghost s: Option<Step>)
      requires held != [] && burn <= Face(held) && at.books == BooksNow()
      requires o.Exchanged? ==> Keys(held) <= at.live && Distinct(KeyList(held))
      requires o.Rejected? ==> forall p :: p in o.problems ==> TrueProblem(p, held, at.live)
      modifies this`held, this`heldKeys, this`fraudMc, this`revenue, this`redeemedMc, this`burnedMc
      ensures s.Some? ==> Legal(at, s.value) && BooksNow() == Do(at, s.value).books
      ensures s.None? ==> BooksNow() == at.books
      ensures o.Rejected? ==>
        if exists i: nat :: Named(o.problems, i)
        then r.Again? && s.Some? && s.value.Drop? && forall i :: i in s.value.bad <==> Named(o.problems, i)
        else r.Failed?
      ensures r.Again? ==> o.Rejected? && s.Some? && s.value.Drop? && |held| < |old(held)|
      ensures r.Again? ==> Face(held) + fraudMc == Face(old(held)) + old(fraudMc)
      ensures r.Done? ==> fraudMc == old(fraudMc) && burnedMc == old(burnedMc) + burn
      ensures if r.Done? then revenue == old(revenue) + [Face(old(held)) - burn] else revenue == old(revenue)
      ensures !r.Done? ==> burnedMc == old(burnedMc)
      ensures r.Done? ==> o.Exchanged? && s == Some(Redeem(burn)) && held == []
      ensures r.Failed? ==> s.None?
      ensures o.Exchanged? ==> r.Done?
    {
      match o {
        case Unavailable => r, s := Failed, None;
        case Rejected(problems) =>
          var bad: set<nat> := set p | p in problems && p.isInput && p.reason != IsOther && p.index.Some? &&
            p.index.value >= 0 :: p.index.value;
          assert forall i: nat :: i in bad <==> Named(problems, i);
          if bad == {} {
            r, s := Failed, None;
          } else {
            DropShrinks(at, bad);
            DropMovesToFraud(at, bad);
            DropRefused(bad);
            r, s := Again, Some(Drop(bad));
          }
        case Exchanged =>
          revenue := revenue + [Face(held) - burn];
          heldKeys := heldKeys - Keys(held);
          redeemedMc, burnedMc := redeemedMc + Face(held), burnedMc + burn;
          held := [];
          r, s := Done, Some(Redeem(burn));
      }
    }

    /** One pass of the redemption loop: price the batch, offer it, book the answer. */
    method RedeemOnce() returns (r: Pass, ghost steps: seq<Step>)
      requires mint.Valid() && held != []
      modifies this, mint
      ensures mint.Valid()
      ensures LegalRun(old(Now()), steps) && Now() == After(old(Now()), steps)
      ensures r.Done? ==> held == [] && fraudMc == old(fraudMc)
      ensures r.Done? ==>
        && |mint.priced| == |old(mint.priced)| + 1
        && match mint.priced[|old(mint.priced)|] {
             case (g, Some(burn)) =>
               && g == Face(old(held)) && burn <= g && burnedMc == old(burnedMc) + burn
               && revenue == old(revenue) + [g - burn] && mint.paid == old(mint.paid) + [g - burn]
             case _ => false
           }
      ensures r.Again? ==> |held| < |old(held)| && Face(held) + fraudMc == Face(old(held)) + old(fraudMc)
      ensures !r.Done? ==> revenue == old(revenue) && burnedMc == old(burnedMc)
      ensures mint.calm ==> !r.Failed?
      ensures mint.calm && Keys(old(held)) <= old(mint.live) && Distinct(KeyList(old(held))) ==>
        r.Done? && mint.live == old(mint.live) - Keys(old(held))
      ensures served == old(served) && rejections == old(rejections) && statusCalls == old(statusCalls)
      ensures accepted == old(accepted)
    {
      hide LegalRun, After, Face, Keys, KeyList, Distinct, Legal, Do;
      ghost var start := Now();
      NoSteps(start);
      var burn := mint.Burn(Face(held));
      OthersMove(start, [], start, Now());
      steps := [] + [Others(mint.live, mint.seen)];
      if burn.None? { return Failed, steps; }
      ghost var more;
      r, more := Offer(burn.value);
      RunsJoin(start, steps, more);
      steps := steps + more;
    }

    /** The exchange of everything held for one output, and its entry in the books. */
    method Offer(burn: nat) returns (r: Pass, ghost steps: seq<Step>)
      requires mint.Valid() && held != [] && burn <= Face(held)
      modifies this, mint
      ensures mint.Valid() && mint.priced == old(mint.priced)
      ensures LegalRun(old(Now()), steps) && Now() == After(old(Now()), steps)
      ensures r.Done? ==> held == [] && fraudMc == old(fraudMc) && burnedMc == old(burnedMc) + burn
      ensures r.Done? ==>
        && revenue == old(revenue) + [Face(old(held)) - burn] && mint.paid == old(mint.paid) + [Face(old(held)) - burn]
      ensures r.Again? ==> |held| < |old(held)| && Face(held) + fraudMc == Face(old(held)) + old(fraudMc)
      ensures !r.Done? ==> revenue == old(revenue) && burnedMc == old(burnedMc)
      ensures mint.calm ==> !r.Failed?
      ensures mint.calm && Keys(old(held)) <= old(mint.live) && Distinct(KeyList(old(held))) ==>
        r.Done? && mint.live == old(mint.live) - Keys(old(held))
      ensures served == old(served) && rejections == old(rejections) && statusCalls == old(statusCalls)
      ensures accepted == old(accepted)
    {
      hide LegalRun, After, Face, Keys, KeyList, DropBad, BadOnes, Distinct, Refusable, TrueProblem, Named, Names,
        Legal, Do;
      ghost var start := Now();
      NoSteps(start);
      exchangeCalls := exchangeCalls + 1;
      var o, before := mint.Exchange(held, Face(held) - burn);
      ghost var offered := World(start.books, before.0, before.1);
      OthersMove(start, [], start, offered);
      steps := [] + [Others(before.0, before.1)];
      ghost var s;
      r, s := Book(o, burn, offered);
      if s.Some? {
        BookedStep(offered, s.value, Now());
        Extend(start, steps, offered, s.value, Now());
        steps := steps + [s.value];
      } else {
        OthersMove(start, steps, offered, Now());
        steps := steps + [Others(mint.live, mint.seen)];
      }
    }

    /** Redeem everything held in one exchange; drop what was double-spent and try
        again with the rest.  Returns false where the code lets an exception out. */
    method RedeemHeld() returns (ok: bool, ghost steps: seq<Step>)
      requires mint.Valid()
      modifies this, mint
      ensures mint.Valid()
      ensures LegalRun(old(Now()), steps) && Now() == After(old(Now()), steps)
      ensures ok ==> held == [] && Redeemed(old(BooksNow()), BooksNow(), mint.priced)
      ensures !ok ==> revenue == old(revenue) && burnedMc == old(burnedMc)
      ensures old(held) == [] ==> unchanged(this) && unchanged(mint)
      ensures mint.calm ==> ok
      ensures mint.calm && Keys(old(held)) <= old(mint.live) && Distinct(KeyList(old(held))) ==>
        && fraudMc == old(fraudMc) && mint.live == old(mint.live) - Keys(old(held))
        && (old(held) != [] ==> |revenue| == |old(revenue)| + 1)
      ensures served == old(served) && rejections == old(rejections) && statusCalls == old(statusCalls)
      ensures accepted == old(accepted)
    {
      hide LegalRun, After, Face, KeyList, Distinct, Redeemed;
      ghost var start := Now();
      NoSteps(start);
      steps := [];
      ghost var done := false;
      while held != []
        invariant mint.Valid()
        invariant done ==> held == [] && Redeemed(start.books, BooksNow(), mint.priced)
        invariant !done ==> revenue == old(revenue) && burnedMc == old(burnedMc)
        invariant !done ==> Face(held) + fraudMc == Face(old(held)) + old(fraudMc)
        invariant old(held) == [] ==> unchanged(this) && unchanged(mint)
        invariant mint.calm && Keys(old(held)) <= old(mint.live) && Distinct(KeyList(old(held))) ==>
          && fraudMc == old(fraudMc)
          && if done then |revenue| == |old(revenue)| + 1 && mint.live == old(mint.live) - Keys(old(held))
             else held == old(held) && mint.live == old(mint.live)
        invariant LegalRun(start, steps) && Now() == After(start, steps)
        invariant served == old(served) && rejections == old(rejections) && statusCalls == old(statusCalls)
        invariant accepted == old(accepted)
        decreases |held|
      {
        ghost var was := BooksNow();
        var r, more := RedeemOnce();
        RunsJoin(start, steps, more);
        steps := steps + more;
        if r.Failed? { return false, steps; }
        if r.Done? {
          done := true;
          WholeRedeemed(start.books, was, BooksNow(), mint.priced);
        }
      }
      if !done { NothingToRedeem(start.books, BooksNow(), mint.priced); }
      return true, steps;
    }

    method HandleChannelDraw(draw: ChannelDraw, client: string) returns (a: Answer, ghost steps: seq<Step>)
      modifies this`rejections, this`served
      ensures a == if !draw.known then Refused(UnknownChannel) else if !draw.good then Refused(BadDraw) else Served
      ensures BooksNow() == if a.Served? then old(BooksNow()).(served := old(served) + 1) else old(BooksNow())
      ensures rejections == old(rejections) + if a.Refused? then [(client, a.why)] else []
      ensures LegalRun(old(Now()), steps) && Now() == After(old(Now()), steps)
      ensures held == old(held) && accepted == old(accepted)
    {
      NoSteps(Now());
      steps := [];
      if !draw.known {
        a := Refuse(UnknownChannel, client);
      } else if !draw.good {
        a := Refuse(BadDraw, client);
      } else {
        served := served + 1;
        a := Served;
        Extend(old(Now()), [], old(Now()), Draw, Now());
        steps := [] + [Draw];
      }
    }

    /** The checks that need no mint: the envelope's tokens parse for this mint, are
        worth the price, and none of them is already held. */
    method Screen(tokens: seq<Token>, client: string) returns (why: Option<Refusal>, parsed: seq<Held>)
      ensures why.None? <==> Screened(tokens, client)
      ensures why.Some? ==> RefusedFor(why.value, tokens, client)
      ensures why.None? ==> parsed == AsHeld(tokens, client)
    {
      parsed := [];
      var i := 0;
      while i < |tokens|
        invariant 0 <= i <= |tokens| && forall j :: 0 <= j < i ==> Parses(tokens[j], mintId)
        invariant |parsed| == i
        invariant forall j :: 0 <= j < i ==> parsed[j] == Held(tokens[j].text, tokens[j].key, tokens[j].amount, client)
      {
        if !Parses(tokens[i], mintId) { return Some(BadFormat(i)), []; }
        parsed := parsed + [Held(tokens[i].text, tokens[i].key, tokens[i].amount, client)];
        i := i + 1;
      }
      assert parsed == AsHeld(tokens, client);
      if Face(parsed) < PRICE_MC { return Some(AmountMismatch), []; }
      i := 0;
      while i < |parsed|
        invariant 0 <= i <= |parsed| && forall j :: 0 <= j < i ==> parsed[j].key !in heldKeys
      {
        if parsed[i].key in heldKeys {
          assert parsed[i] in parsed && tokens[i].key == parsed[i].key;
          assert forall j :: 0 <= j < i ==> tokens[j].key == parsed[j].key;
          return Some(AlreadySpent(i)), [];
        }
        i := i + 1;
      }
      why := None;
    }

    /** The first thing wrong, in the order of the checks. */
    ghost predicate RefusedFor(why: Refusal, tokens: seq<Token>, client: string) reads this {
      match why
      case BadFormat(i) =>
        && i < |tokens| && !(tokens[i].Token? && tokens[i].mintId == mintId)
        && forall j :: 0 <= j < i ==> tokens[j].Token? && tokens[j].mintId == mintId
      case AmountMismatch =>
        && (forall j :: 0 <= j < |tokens| ==> tokens[j].Token? && tokens[j].mintId == mintId)
        && Face(AsHeld(tokens, client)) < 100
      case AlreadySpent(i) =>
        && (forall j :: 0 <= j < |tokens| ==> tokens[j].Token? && tokens[j].mintId == mintId)
        && Face(AsHeld(tokens, client)) >= 100 && i < |tokens| && tokens[i].key in heldKeys
        && forall j :: 0 <= j < i ==> tokens[j].key !in heldKeys
      case _ => false
    }

    predicate IsBearer(env: Option<Envelope>) {
      env.Some? && env.value.mintId == mintId && env.value.draw.None?
    }

    ghost predicate Screened(tokens: seq<Token>, client: string) reads this {
      && (forall j :: 0 <= j < |tokens| ==> tokens[j].Token? && tokens[j].mintId == mintId)
      && Face(AsHeld(tokens, client)) >= 100
      && Keys(AsHeld(tokens, client)) !! heldKeys
    }

    lemma {:induction false} Acceptable(tokens: seq<Token>, client: string)
      requires Screened(tokens, client)
      ensures Face(AsHeld(tokens, client)) >= PRICE_MC && Keys(AsHeld(tokens, client)) !! heldKeys
      ensures WellPaid(tokens, client)
    {
    }

    predicate WellPaid(tokens: seq<Token>, client: string) {
      && (forall j | 0 <= j < |tokens| :: tokens[j].Token? && tokens[j].mintId == mintId)
      && Face(AsHeld(tokens, client)) >= 100
    }

    lemma {:induction false} RefusalFits(why: Refusal, tokens: seq<Token>, client: string)
      requires RefusedFor(why, tokens, client)
      ensures WellPaid(tokens, client) <==> why.AlreadySpent?
      ensures why.BadFormat? || why.AmountMismatch? || why.AlreadySpent?
    {
    }

    /** As far as the request alone decides, without the books or the mint. */
    predicate AnswerFits(env: Option<Envelope>, client: string, a: Answer) {
      if env.None? || env.value.mintId != mintId then a == Refused(BadFormat(0))
      else if env.value.draw.Some? then
        var draw := env.value.draw.value;
        a == if !draw.known then Refused(UnknownChannel) else if !draw.good then Refused(BadDraw) else Served
      else if WellPaid(env.value.tokens, client) then
        a.Refused? ==> a.why.AlreadySpent? || a.why.NotUnspent?
      else a.Refused? && (a.why.BadFormat? || a.why.AmountMismatch?)
    }

    /** One request.  A refusal changes nothing on the books and gives the first thing
        wrong.  A served bearer request takes exactly its own tokens into `accepted`,
        once; they are held, or with ten or more everything is redeemed.  Any other
        answer the caller gets leaves the held tokens as they were, so only an exception
        from the mint can leave more.  With a mint that answers and nobody else at work,
        a request is served exactly when nothing is wrong with it. */
    method HandleRequest(env: Option<Envelope>, client: string) returns (a: Answer, ghost steps: seq<Step>)
      requires mint.Valid()
      modifies this, mint
      ensures mint.Valid()
      ensures LegalRun(old(Now()), steps) && Now() == After(old(Now()), steps)
      ensures env.None? || env.value.mintId != mintId ==> a == Refused(BadFormat(0))
      ensures env.Some? && env.value.mintId == mintId && env.value.draw.Some? ==>
        var draw := env.value.draw.value;
        a == if !draw.known then Refused(UnknownChannel) else if !draw.good then Refused(BadDraw) else Served
      ensures IsBearer(env) ==>
        if old(Screened(env.value.tokens, client)) then a.Refused? ==> a.why.NotUnspent?
        else a.Refused? && old(RefusedFor(a.why, env.value.tokens, client))
      ensures AnswerFits(env, client, a)
      ensures a.Refused? ==> BooksNow() == old(BooksNow())
      ensures a.Refused? || a.Served? ==> rejections == old(rejections) + if a.Refused? then [(client, a.why)] else []
      ensures a.Served? ==> env.Some? && env.value.mintId == mintId && served == old(served) + 1
      ensures a.Served? && env.value.draw.Some? ==> BooksNow() == old(BooksNow()).(served := old(served) + 1)
      ensures a.Served? && IsBearer(env) ==> old(Screened(env.value.tokens, client))
      ensures a.Served? && IsBearer(env) ==>
        var parsed := AsHeld(env.value.tokens, client);
        accepted == old(accepted) + KeyList(parsed) && HeldOrRedeemed(old(BooksNow()), parsed, BooksNow(), mint.priced)
      ensures !a.Raised? && |old(held)| < 10 ==> |held| < 10
      ensures mint.calm ==> !a.Raised?
      ensures mint.calm && IsBearer(env) && old(Screened(env.value.tokens, client)) ==>
        AsTheLedgerSays(a, KeyList(AsHeld(env.value.tokens, client)), old(mint.live), old(mint.seen))
    {
      hide LegalRun, After, HeldOrRedeemed, Screened, RefusedFor, Face, Keys, WellPaid;
      ghost var start := Now();
      NoSteps(start);
      steps := [];
      if env.None? || env.value.mintId != mintId {
        a := Refuse(BadFormat(0), client);
        return;
      }
      if env.value.draw.Some? {
        a, steps := HandleChannelDraw(env.value.draw.value, client);
        return;
      }
      var why, parsed := Screen(env.value.tokens, client);
      if why.Some? {
        RefusalFits(why.value, env.value.tokens, client);
        a := Refuse(why.value, client);
        return;
      }
      Acceptable(env.value.tokens, client);
      statusCalls := statusCalls + 1;
      var states := mint.Status(KeyList(parsed));
      Extend(start, [], start, Others(mint.live, mint.seen), Now());
      steps := [] + [Others(mint.live, mint.seen)];
      if states.None? { return Raised, steps; }
      var problems := NotSpendable(states.value);
      if problems != [] {
        a := Refuse(NotUnspent(problems), client);
        return;
      }
      CanAccept(Now(), parsed);
      a, steps := ServeAndHold(parsed, start, steps);
    }

    /** Any number of requests, one after another.  What they do is one legal run, so the
        books stay conserved; and as long as no call has raised, fewer than REDEEM_EVERY
        tokens are held after each. */
    method Session(envs: seq<(Option<Envelope>, string)>)
      returns (answers: seq<Answer>, sizes: seq<nat>, ghost steps: seq<Step>)
      requires mint.Valid() && |held| < 10 && Conserved(BooksNow())
      modifies this, mint
      ensures mint.Valid() && |answers| == |sizes| == |envs|
      ensures LegalRun(old(Now()), steps) && Now() == After(old(Now()), steps) && Conserved(BooksNow())
      ensures forall i :: 0 <= i < |envs| && NoneRaised(answers[..i + 1]) ==> sizes[i] < 10
      ensures mint.calm ==> NoneRaised(answers)
      ensures forall i :: 0 <= i < |envs| ==> AnswerFits(envs[i].0, envs[i].1, answers[i])
    {
      hide LegalRun, After, Conserved, AnswerFits;
      ghost var start := Now();
      NoSteps(start);
      answers, sizes, steps := [], [], [];
      for n := 0 to |envs|
        invariant mint.Valid() && |answers| == |sizes| == n
        invariant LegalRun(start, steps) && Now() == After(start, steps)
        invariant NoneRaised(answers) ==> |held| < 10
        invariant forall i :: 0 <= i < n && NoneRaised(answers[..i + 1]) ==> sizes[i] < 10
        invariant mint.calm ==> NoneRaised(answers)
        invariant forall i :: 0 <= i < n ==> AnswerFits(envs[i].0, envs[i].1, answers[i])
      {
        var a, more := HandleRequest(envs[n].0, envs[n].1);
        RunsJoin(start, steps, more);
        steps := steps + more;
        ghost var was, old_ := answers, sizes;
        answers, sizes := answers + [a], sizes + [|held|];
        forall i | 0 <= i < n && NoneRaised(answers[..i + 1]) ensures sizes[i] < 10 {
          assert answers[..i + 1] == was[..i + 1] && sizes[i] == old_[i];
        }
        assert answers[..n + 1] == answers && answers[n] == a;
        assert NoneRaised(answers) ==> NoneRaised(was) by {
          assert forall i :: 0 <= i < n ==> was[i] == answers[i];
        }
      }
      RunConserves(start, steps);
    }

    /** Serve, hold the request's tokens, and redeem when enough are held. */
    method ServeAndHold(parsed: seq<Held>, ghost start: World, ghost before: seq<Step>)
      returns (a: Answer, ghost steps: seq<Step>)
      requires mint.Valid() && Legal(Now(), Accept(parsed))
      requires LegalRun(start, before) && Now() == After(start, before)
      modifies this, mint
      ensures mint.Valid() && !a.Refused?
      ensures LegalRun(start, steps) && Now() == After(start, steps)
      ensures served == old(served) + 1 && accepted == old(accepted) + KeyList(parsed)
      ensures a.Served? ==> rejections == old(rejections) && |held| < 10
      ensures a.Served? ==> HeldOrRedeemed(old(BooksNow()), parsed, BooksNow(), mint.priced)
      ensures mint.calm ==> a.Served?
    {
      hide LegalRun, After, Face, Redeemed;
      ghost var at := Now();
      held, heldKeys := held + parsed, heldKeys + Keys(parsed);
      served := served + 1;
      accepted, acceptedMc := accepted + KeyList(parsed), acceptedMc + Face(parsed);
      Extend(start, before, at, Accept(parsed), Now());
      steps := before + [Accept(parsed)];
      a := Served;
      if |held| >= REDEEM_EVERY {
        ghost var both := BooksNow();
        var ok, more := RedeemHeld();
        RunsJoin(start, steps, more);
        steps := steps + more;
        if ok { RedeemedAlike(both, at.books.(held := at.books.held + parsed), BooksNow(), mint.priced); }
        if !ok { a := Raised; }
      }
    }
  }

  /** The positions the mint does not call unspent, with its word for each. */
  method NotSpendable(states: seq<TokenState>) returns (problems: seq<(nat, TokenState)>)
    ensures forall p :: p in problems <==> p.0 < |states| && states[p.0] == p.1 != Unspent
    ensures problems == [] <==> forall i :: 0 <= i < |states| ==> states[i] == Unspent
    ensures forall m, n :: 0 <= m < n < |problems| ==> problems[m].0 < problems[n].0
  {
    problems := [];
    for i := 0 to |states|
      invariant forall p :: p in problems <==> p.0 < i && states[p.0] == p.1 != Unspent
      invariant problems == [] <==> forall j :: 0 <= j < i ==> states[j] == Unspent
      invariant forall m :: 0 <= m < |problems| ==> problems[m].0 < i
      invariant forall m, n :: 0 <= m < n < |problems| ==> problems[m].0 < problems[n].0
    {
      if states[i] != Unspent { problems := problems + [(i, states[i])]; }
    }
  }
}
