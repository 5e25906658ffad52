/** The mint supervisor (gui/mintctl.py): one control in one workdir, a state file that
    can be lost or replaced at any moment, and a process table whose pids are recycled.

    Everything the control learns it learns one read at a time, and the rest of the
    machine moves between any two reads. */
module MintControl {
  import opened Wrappers

  // --------------------------------------------------------- process table --

  /** A command line: a run_mint.py's on this workdir's ledger with its --port, or any
      other. */
  datatype Argv = Other | Mint(port: Option<int>)

  /** `birth` is the start time, which with the pid names a process for good; `readable`
      says whether this process may read its command line; `ours` is a child this
      process has not waited for, so that its pid stays taken. */
  datatype Proc = Proc(birth: nat, argv: Argv, readable: bool, zombie: bool, ours: bool)

  type Table = map<int, Proc>

  /** What the rest of the machine may do: start other servers on this ledger, start
      them where a scan cannot find them, make reads of /proc fail, not move at all (nor
      touch the state file), let this process signal whatever it likes. */
  datatype Others = Others(startServers: bool, outOfSight: bool, failReads: bool, still: bool, permitted: bool)

  predicate Quiet(o: Others) { o.still && !o.failReads }

  predicate ValidPort(port: Option<int>) { port.Some? && 0 < port.value < 65536 }

  predicate Serving(t: Table, p: int) { p in t && !t[p].zombie && t[p].argv.Mint? }

  predicate CanRead(t: Table, p: int) { p in t && !t[p].zombie && t[p].readable }

  ghost predicate NoServer(t: Table) { forall p :: !Serving(t, p) }

  ghost predicate AtMostOne(t: Table) { forall p, q :: Serving(t, p) && Serving(t, q) ==> p == q }

  /** A server a scan can find and adopt: its command line can be read and gives a port. */
  predicate InSight(p: Proc) { p.argv.Mint? && p.readable && ValidPort(p.argv.port) }

  ghost predicate AllInSight(t: Table) { forall p :: Serving(t, p) ==> InSight(t[p]) }

  /** Every server there is, or may come to be, can be found, and looking does not fail. */
  ghost predicate StayInSight(o: Others, t: Table) {
    AllInSight(t) && !o.failReads && (o.startServers ==> !o.outOfSight)
  }

  /** Nobody but this control starts servers, there is at most one, and it can be found. */
  ghost predicate Alone(o: Others, t: Table) {
    !o.startServers && !o.failReads && AtMostOne(t) && AllInSight(t)
  }

  /** Every process of `u` born before `n` was in `t` under the same pid; the dead stay dead. */
  predicate Later(t: Table, n: nat, u: Table) {
    forall p | p in u && u[p].birth < n ::
      && p in t && t[p].birth == u[p].birth && t[p].argv == u[p].argv && t[p].readable == u[p].readable
      && (t[p].zombie ==> u[p].zombie)
  }

  predicate Newcomers(o: Others, n: nat, u: Table) {
    forall p | p in u && u[p].birth >= n && u[p].argv.Mint? ::
      o.startServers && (o.outOfSight || InSight(u[p]))
  }

  /** From one instant to a later one, as far as servers go, when this control starts none. */
  predicate Follows(o: Others, t: Table, n: nat, u: Table, m: nat) {
    n <= m && Later(t, n, u) && Newcomers(o, n, u)
  }

  predicate KeepsOurs(t: Table, u: Table) {
    forall p | p in t && t[p].ours :: p in u && u[p].ours && u[p].birth == t[p].birth
  }

  /** One move of the environment: exits, reaping by other parents, pids reused. */
  predicate CanBecome(o: Others, me: int, t: Table, n: nat, u: Table, m: nat) {
    && Follows(o, t, n, u, m) && KeepsOurs(t, u)
    && (forall p | p in u :: u[p].birth < m && (u[p].birth >= n ==> !u[p].ours && p > 0))
    && (forall p | p in u && u[p].birth < n && p in t :: u[p].ours == t[p].ours)
    && (me in t ==> me in u && u[me] == t[me])
    && (o.still ==> t == u)
  }

  lemma {:induction false} FollowsOn(o: Others, t: Table, n: nat, u: Table, m: nat, v: Table, k: nat)
    requires Follows(o, t, n, u, m) && Follows(o, u, m, v, k)
    ensures Follows(o, t, n, v, k)
  {
    forall p | p in v && v[p].birth >= n && v[p].argv.Mint?
      ensures o.startServers && (o.outOfSight || InSight(v[p]))
    {
      if v[p].birth < m { assert p in u && u[p].argv == v[p].argv; }
    }
  }

  /** Where nobody else starts servers, what serves now served before. */
  lemma {:induction false} ServersWereThere(o: Others, t: Table, n: nat, u: Table, m: nat)
    requires Follows(o, t, n, u, m) && !o.startServers
    ensures forall p :: Serving(u, p) ==>
      Serving(t, p) && t[p].birth == u[p].birth && t[p].argv == u[p].argv && t[p].readable == u[p].readable
    ensures AtMostOne(t) ==> AtMostOne(u)
    ensures AllInSight(t) ==> AllInSight(u)
    ensures NoServer(t) ==> NoServer(u)
  {
    forall p | Serving(u, p)
      ensures Serving(t, p) && t[p].birth == u[p].birth && t[p].argv == u[p].argv && t[p].readable == u[p].readable
    {
      assert u[p].birth < n;
    }
  }

  datatype Signal = Signal(pid: int, birth: nat, kill: bool)

  /** The process a signal to this pid reaches. */
  function Struck(t: Table, pid: int, kill: bool): Signal
    requires pid in t
  {
    Signal(pid, t[pid].birth, kill)
  }

  lemma {:induction false} Moved(o: Others, me: int, t: Table, n: nat, u: Table, m: nat)
    requires CanBecome(o, me, t, n, u, m)
    ensures Follows(o, t, n, u, m) && KeepsOurs(t, u)
    ensures forall p :: p in u && u[p].ours ==> p in t && t[p].ours
    ensures forall p :: p in t && t[p].ours ==> p in u && u[p].ours && u[p].birth == t[p].birth
  {
  }

  lemma {:induction false} StaysStill(o: Others, me: int, t: Table, n: nat, u: Table, m: nat)
    requires CanBecome(o, me, t, n, u, m)
    ensures o.still ==> t == u
  {
  }

  lemma {:induction false} MadeZombie(o: Others, t: Table, n: nat, u: Table, m: nat, p: int)
    requires Follows(o, t, n, u, m) && KeepsOurs(t, u) && p in u
    ensures Follows(o, t, n, u[p := u[p].(zombie := true)], m) && KeepsOurs(t, u[p := u[p].(zombie := true)])
  {
  }

  datatype Sent = Sent | NoSuchProcess | NotPermitted

  /** One kill(2), and the instant at which it looked for the process. */
  datatype Try = Try(pid: int, kill: bool, sent: Sent, at: nat)

  /** There is always a pid to be had. */
  lemma {:induction false} FreePid(taken: set<int>) returns (p: int)
    ensures p > 0 && forall q | q in taken :: q < p
  {
    p := 1;
    assert (forall q :: q !in taken) ==> taken == {};
    if taken != {} {
      var q :| q in taken;
      var below := FreePid(taken - {q});
      p := if below <= q then q + 1 else below;
      forall x | x in taken ensures x < p {
        assert x != q ==> x in taken - {q};
      }
    }
  }

  class Kernel {
    const me: int
    const others: Others
    /** SIGKILL takes effect within the grace period. */
    const killWorks: bool
    /** There are pids and the state file can be written; a mint that serves answers
        for itself in time. */
    const healthy: bool
    /** Where nothing moves, the ports on which the mint of the record answers. */
    const listening: set<int>
    var table: Table
    var next: nat
    ghost var instants: seq<Table>
    ghost var signals: seq<Signal>
    ghost var tries: seq<Try>
    /** How many servers this control has started beside a live one. */
    ghost var overlaps: nat

    constructor (me: int, others: Others, killWorks: bool, healthy: bool, listening: set<int>, table: Table, next: nat)
      requires me in table && table[me] == Proc(table[me].birth, Other, true, false, false)
      requires forall p :: p in table ==> p > 0 && table[p].birth < next && !table[p].ours
      ensures this.me == me && this.others == others && this.killWorks == killWorks
      ensures this.healthy == healthy && this.listening == listening
      ensures this.table == table && this.next == next && signals == [] && tries == [] && overlaps == 0 && Valid()
    {
      this.me, this.others, this.killWorks, this.table, this.next := me, others, killWorks, table, next;
      this.healthy, this.listening := healthy, listening;
      instants, signals, tries, overlaps := [table], [], [], 0;
    }

    ghost predicate Valid() reads this`table, this`next, this`instants {
      && me in table && !table[me].zombie && table[me].argv == Other && !table[me].ours
      && (forall p :: p in table ==> p > 0 && table[p].birth < next)
      && instants != [] && instants[|instants| - 1] == table
    }

    method Churn()
      requires Valid()
      modifies this`table, this`next, this`instants
      ensures Valid() && CanBecome(others, me, old(table), old(next), table, next)
      ensures instants == old(instants) + [table]
    {
      var t: Table, n: nat := *, *;
      if CanBecome(others, me, table, next, t, n) { table, next := t, n; }
      instants := instants + [table];
    }

    /** A read of /proc can fail. */
    method Fails() returns (fails: bool)
      ensures fails ==> others.failReads
    {
      fails := *;
      fails := fails && others.failReads;
    }

    /** /proc/<pid>/stat: the start time. */
    method StartTicks(pid: int) returns (ticks: Option<nat>)
      requires Valid()
      modifies this`table, this`next, this`instants
      ensures Valid() && CanBecome(others, me, old(table), old(next), table, next)
      ensures instants == old(instants) + [table]
      ensures ticks.Some? ==> pid in table && ticks.value == table[pid].birth
      ensures ticks.None? ==> others.failReads || pid !in table
    {
      Churn();
      var fails := Fails();
      ticks := if pid in table && !fails then Some(table[pid].birth) else None;
    }

    /** /proc/<pid>/stat: the state; a failed read is no zombie. */
    method IsZombie(pid: int) returns (z: bool)
      requires Valid()
      modifies this`table, this`next, this`instants
      ensures Valid() && CanBecome(others, me, old(table), old(next), table, next)
      ensures instants == old(instants) + [table]
      ensures z ==> pid in table && table[pid].zombie
      ensures !z ==> others.failReads || pid !in table || !table[pid].zombie
    {
      Churn();
      var fails := Fails();
      z := pid in table && table[pid].zombie && !fails;
    }

    /** /proc/<pid>/cmdline, which is empty once the process is a zombie, and reads as
        empty where this process may not read it. */
    method Cmdline(pid: int) returns (argv: Option<Argv>)
      requires Valid()
      modifies this`table, this`next, this`instants
      ensures Valid() && CanBecome(others, me, old(table), old(next), table, next)
      ensures instants == old(instants) + [table]
      ensures argv.Some? ==> CanRead(table, pid) && argv.value == table[pid].argv
      ensures argv.None? ==> others.failReads || !CanRead(table, pid)
    {
      Churn();
      var fails := Fails();
      argv := if CanRead(table, pid) && !fails then Some(table[pid].argv) else None;
    }

    /** A fork and exec of run_mint.py on this ledger. */
    method Spawn(port: int) returns (pid: Option<int>)
      requires Valid()
      modifies this`table, this`next, this`instants, this`overlaps
      ensures pid.None? ==> unchanged(this) && !healthy
      ensures overlaps == if pid.None? || NoServer(old(table)) then old(overlaps) else old(overlaps) + 1
      ensures pid.Some? ==>
        && pid.value !in old(table) && next == old(next) + 1
        && table == old(table)[pid.value := Proc(old(next), Mint(Some(port)), true, false, true)]
      ensures Valid() && old(instants) <= instants
    {
      var p: int := *;
      if p < 1 || p in table {
        if !healthy { return None; }
        ghost var q := FreePid(table.Keys);
        assert q !in table.Keys;
        p :| p > 0 && p !in table;
      }
      if exists q :: Serving(table, q) { overlaps := overlaps + 1; }
      table := table[p := Proc(next, Mint(Some(port)), true, false, true)];
      next := next + 1;
      instants := instants + [table];
      pid := Some(p);
    }

    /** waitpid, without blocking, on a child of ours. */
    method Wait(pid: int) returns (exited: bool)
      requires Valid() && pid in table && table[pid].ours
      modifies this`table, this`next, this`instants
      ensures Valid() && old(instants) <= instants
      ensures Follows(others, old(table), old(next), table, next)
      ensures forall p :: p in old(table) && p != pid && old(table[p]).ours ==>
        p in table && table[p].ours && table[p].birth == old(table[p]).birth
      ensures forall p :: p in table && table[p].ours ==> p in old(table) && old(table[p]).ours
      ensures exited <==> pid !in table
      ensures !exited ==> table[pid].ours && !table[pid].zombie && table[pid].birth == old(table[pid]).birth
      ensures others.still ==> (exited <==> old(table)[pid].zombie)
      ensures others.still ==> forall p :: Serving(table, p) <==> Serving(old(table), p)
      ensures others.still ==> forall p :: p in table ==> p in old(table) && table[p] == old(table[p])
    {
      Churn();
      exited := table[pid].zombie;
      if exited {
        table := table - {pid};
        instants := instants + [table];
      }
    }

    /** kill(2).  Permission is never refused for a child of ours. */
    method Kill(pid: int, kill: bool) returns (r: Sent)
      requires Valid() && pid != me
      modifies this`table, this`next, this`instants, this`signals, this`tries
      ensures Valid() && old(instants) <= instants
      ensures Follows(others, old(table), old(next), table, next) && KeepsOurs(old(table), table)
      ensures forall p :: p in table && table[p].ours ==> p in old(table) && old(table[p]).ours
      ensures tries == old(tries) + [Try(pid, kill, r, |old(instants)|)]
      ensures |old(instants)| < |instants| && (r.NoSuchProcess? <==> pid !in instants[|old(instants)|])
      ensures r.NotPermitted? ==> !others.permitted
      ensures others.still ==>
        && instants[|old(instants)|] == old(table) && (r.Sent? ==> pid in old(table))
        && table == if r.Sent? && kill && killWorks && pid in old(table)
                    then old(table)[pid := old(table)[pid].(zombie := true)] else old(table)
      ensures r.Sent? ==> signals == old(signals) + [Signal(pid, instants[|old(instants)|][pid].birth, kill)]
      ensures r.Sent? ==> pid in table && signals == old(signals) + [Struck(table, pid, kill)]
      ensures r.Sent? && kill && killWorks ==> table[pid].zombie
      ensures !r.Sent? ==> signals == old(signals)
      ensures pid in old(table) && old(table[pid]).ours ==> r.Sent?
    {
      hide CanBecome, Follows, KeepsOurs;
      ghost var t, n := table, next;
      Churn();
      Moved(others, me, t, n, table, next);
      assert others.still ==> table == t by { StaysStill(others, me, t, n, table, next); }
      if pid !in table {
        r := NoSuchProcess;
        tries := tries + [Try(pid, kill, r, |instants| - 1)];
        return;
      }
      var permitted: bool := *;
      if !permitted && !others.permitted && !table[pid].ours {
        r := NotPermitted;
        tries := tries + [Try(pid, kill, r, |instants| - 1)];
        return;
      }
      tries := tries + [Try(pid, kill, Sent, |instants| - 1)];
      signals := signals + [Struck(table, pid, kill)];
      if kill && killWorks {
        MadeZombie(others, t, n, table, next, pid);
        table := table[pid := table[pid].(zombie := true)];
        instants := instants + [table];
      }
      return Sent;
    }

    /** _probe: does this mint answer there? */
    method Probe(port: int) returns (answered: bool)
      ensures others.still ==> (answered <==> port in listening)
    {
      answered := *;
      if others.still { answered := port in listening; }
    }

    /** One request for the child's descriptor: not yet, as itself, or as another mint. */
    method Ask(pid: int, last: bool) returns (answer: Option<bool>)
      ensures healthy && pid in table && !table[pid].zombie ==> answer == Some(true) || (answer == None && !last)
    {
      answer := *;
      if healthy && pid in table && !table[pid].zombie {
        answer := if answer.Some? || last then Some(true) else None;
      }
    }

    /** The Popen object is gone: somebody else will wait for the child. */
    method Disown(pid: int)
      requires Valid() && pid in table
      modifies this`table, this`instants
      ensures Valid() && old(instants) <= instants
      ensures table == old(table)[pid := old(table[pid]).(ours := false)]
      ensures Follows(others, old(table), old(next), table, next)
    {
      table := table[pid := table[pid].(ours := false)];
      instants := instants + [table];
    }
  }

  // ------------------------------------------------------------ supervisor --

  /** mint-control.json, as far as it is read back: any field can be missing or wrong. */
  datatype State = State(pid: Option<int>, ticks: Option<nat>, port: Option<int>)

  /** A child this control started, and its exit status once it has been waited for. */
  datatype Popen = Popen(pid: int, birth: nat, code: Option<int>)

  datatype Report = Report(running: bool, pid: Option<int>, port: Option<int>, responding: Option<bool>)

  datatype Fate = Gone | Denied | Survived

  datatype Outcome = Done(report: Report) | Refused | Failed

  predicate Live(c: Option<Popen>) { c.Some? && c.value.code.None? }

  function CleanPort(port: Option<int>): Option<int> { if ValidPort(port) then port else None }

  /** Readably, and with that start time where one was recorded. */
  predicate ServingSince(t: Table, pid: int, ticks: Option<nat>) {
    Serving(t, pid) && t[pid].readable && (ticks.Some? ==> ticks.value == t[pid].birth)
  }

  /** The record still names a live server: same pid, same start time, our ledger. */
  predicate RecordMatches(s: State, own: Option<Popen>, t: Table) {
    && s.pid.Some? && s.pid.value > 0 && ServingSince(t, s.pid.value, s.ticks)
    && !(own.Some? && own.value.pid == s.pid.value && own.value.code.Some?)
  }

  predicate Shown(t: Table, p: int) { Serving(t, p) && t[p].readable }

  predicate ShownBefore(t: Table, n: nat, p: int) { Shown(t, p) && t[p].birth < n }

  /** A server a scan can adopt. */
  ghost predicate Findable(t: Table) {
    exists p :: Serving(t, p) && InSight(t[p])
  }

  /** The child is neither gone nor a zombie. */
  predicate Alive(t: Table, c: Popen) { c.pid in t && t[c.pid].birth == c.birth && !t[c.pid].zombie }

  ghost predicate OnlyTo(before: seq<Signal>, after: seq<Signal>, c: Popen) {
    before <= after && forall k :: |before| <= k < |after| ==> after[k].pid == c.pid && after[k].birth == c.birth
  }

  ghost predicate OnlyToPid(before: seq<Signal>, after: seq<Signal>, pid: int) {
    before <= after && forall k :: |before| <= k < |after| ==> after[k].pid == pid
  }

  ghost predicate OwnOrReaped(was: Option<Popen>, own: Option<Popen>, t: Table) {
    own == was || (Live(was) && own.Some? && own == Some(was.value.(code := own.value.code)) && !Alive(t, was.value))
  }

  /** Only this control's own child may be serving. */
  ghost predicate OwnOnly(t: Table, own: Option<Popen>) {
    forall p :: Serving(t, p) ==> Live(own) && p == own.value.pid
  }

  predicate Stale(own: Option<Popen>, pid: int) {
    own.Some? && own.value.pid == pid && own.value.code.Some?
  }

  predicate ZombieChild(own: Option<Popen>, t: Table, pid: int) {
    Live(own) && own.value.pid == pid && pid in t && t[pid].zombie
  }

  /** What was tried: SIGTERM first, to that pid, and then perhaps SIGKILL; one fails
      for want of a process exactly when there is none there at that instant, and each
      that is sent is a signal to the process there then. */
  ghost predicate Tried(before: seq<Try>, after: seq<Try>, pid: int, was: seq<Signal>, now: seq<Signal>, ts: seq<Table>) {
    && before <= after && was <= now
    && (forall k :: |before| <= k < |after| ==>
          && after[k].pid == pid && after[k].kill == (k > |before|) && after[k].at < |ts|
          && (after[k].sent.NoSuchProcess? <==> pid !in ts[after[k].at]))
    && now[|was|..] == SentOf(after[|before|..], ts)
  }

  function SentOf(tries: seq<Try>, ts: seq<Table>): seq<Signal> {
    if tries == [] then []
    else
      var first := tries[0];
      (if first.sent.Sent? && first.at < |ts| && first.pid in ts[first.at]
       then [Signal(first.pid, ts[first.at][first.pid].birth, first.kill)] else [])
      + SentOf(tries[1..], ts)
  }

  lemma {:induction false} SentOfStays(tries: seq<Try>, ts: seq<Table>, us: seq<Table>)
    requires ts <= us && forall k :: 0 <= k < |tries| ==> tries[k].at < |ts|
    ensures SentOf(tries, ts) == SentOf(tries, us)
  {
    if tries != [] { SentOfStays(tries[1..], ts, us); }
  }

  lemma {:induction false} TriedStays(before: seq<Try>, after: seq<Try>, pid: int, was: seq<Signal>, now: seq<Signal>,
      ts: seq<Table>, us: seq<Table>)
    requires Tried(before, after, pid, was, now, ts) && ts <= us
    ensures Tried(before, after, pid, was, now, us)
  {
    assert forall k :: |before| <= k < |after| ==> ts[after[k].at] == us[after[k].at];
    SentOfStays(after[|before|..], ts, us);
  }

  lemma {:induction false} TriedOnce(before: seq<Try>, t: Try, was: seq<Signal>, now: seq<Signal>, ts: seq<Table>)
    requires !t.kill && t.at < |ts| && (t.sent.NoSuchProcess? <==> t.pid !in ts[t.at])
    requires now == was + if t.sent.Sent? then [Signal(t.pid, ts[t.at][t.pid].birth, t.kill)] else []
    ensures Tried(before, before + [t], t.pid, was, now, ts)
  {
    assert (before + [t])[|before|..] == [t] && [t][1..] == [] && SentOf([], ts) == [];
    assert now[|was|..] == if t.sent.Sent? then [Signal(t.pid, ts[t.at][t.pid].birth, t.kill)] else [];
    assert SentOf([t], ts) == now[|was|..];
  }

  /** The first of them, sent, is a SIGTERM to whatever had the pid at that instant. */
  lemma {:induction false} FirstTry(before: seq<Try>, after: seq<Try>, pid: int, was: seq<Signal>, now: seq<Signal>,
      ts: seq<Table>)
    requires Tried(before, after, pid, was, now, ts) && |before| < |after|
    ensures after[|before|].at < |ts| && (after[|before|].sent.NoSuchProcess? <==> pid !in ts[after[|before|].at])
    ensures after[|before|].sent.Sent? ==>
      |was| < |now| && now[|was|] == Signal(pid, ts[after[|before|].at][pid].birth, false)
  {
    var first := after[|before|];
    assert after[|before|..][0] == first;
    if first.sent.Sent? {
      assert SentOf(after[|before|..], ts)[0] == Signal(pid, ts[first.at][pid].birth, false);
      assert now[|was|] == now[|was|..][0];
    }
  }

  lemma {:induction false} TriedTwice(before: seq<Try>, s: Try, t: Try, was: seq<Signal>, mid: seq<Signal>,
      now: seq<Signal>, ts: seq<Table>)
    requires Tried(before, before + [s], s.pid, was, mid, ts)
    requires t.kill && t.pid == s.pid && t.at < |ts| && (t.sent.NoSuchProcess? <==> t.pid !in ts[t.at])
    requires now == mid + if t.sent.Sent? then [Signal(t.pid, ts[t.at][t.pid].birth, t.kill)] else []
    ensures Tried(before, before + [s] + [t], s.pid, was, now, ts)
  {
    assert (before + [s])[|before|..] == [s] && [s][1..] == [];
    assert (before + [s] + [t])[|before|..] == [s, t] && [s, t][1..] == [t] && [t][1..] == [];
    assert now[|was|..] == mid[|was|..] + now[|mid|..];
    assert SentOf([], ts) == [] && SentOf([s, t], ts) == SentOf([s], ts) + SentOf([t], ts);
  }

  predicate SameChild(own: Option<Popen>, c: Popen) {
    own.Some? && own.value.pid == c.pid && own.value.birth == c.birth
  }

  /** The child not yet waited for keeps its pid, and there is no other. */
  ghost predicate OwnTaken(o: Others, t: Table, n: nat, own: Option<Popen>) {
    && (own.Some? ==> own.value.birth < n)
    && (own.Some? && own.value.code.Some? && !o.startServers ==> !Serving(t, own.value.pid))
    && (Live(own) ==>
          var c := own.value;
          c.pid in t && t[c.pid].ours && t[c.pid].birth == c.birth)
    && (forall p :: p in t && t[p].ours ==> Live(own) && p == own.value.pid)
  }

  datatype Scene = Scene(table: Table, next: nat, own: Option<Popen>)

  /** From one instant to a later one while this control only looks. */
  ghost predicate Watched(o: Others, a: Scene, b: Scene) {
    && Follows(o, a.table, a.next, b.table, b.next)
    && OwnTaken(o, b.table, b.next, b.own) && OwnOrReaped(a.own, b.own, b.table)
    && (o.still ==> SameServers(a.table, b.table))
  }

  /** Nothing is different but that a zombie of ours may be gone. */
  ghost predicate SameServers(t: Table, u: Table) {
    && (forall p :: Serving(t, p) <==> Serving(u, p))
    && (forall p :: p in u ==> p in t && u[p] == t[p])
  }

  lemma {:induction false} SameAt(t: Table, u: Table, p: int)
    requires SameServers(t, u)
    ensures (Serving(t, p) <==> Serving(u, p)) && (p in u ==> p in t && u[p] == t[p])
  {
  }

  lemma {:induction false} WatchedOn(o: Others, me: int, a: Scene, b: Scene, c: Scene)
    requires Watched(o, a, b) && b.own == c.own && CanBecome(o, me, b.table, b.next, c.table, c.next)
    requires forall p :: p in b.table ==> b.table[p].birth < b.next
    ensures Watched(o, a, c) && (o.still ==> c.table == b.table)
  {
    FollowsOn(o, a.table, a.next, b.table, b.next, c.table, c.next);
  }

  lemma {:induction false} StillShown(o: Others, a: Scene, b: Scene)
    requires Watched(o, a, b)
    ensures forall n: nat, p :: n <= a.next && ShownBefore(b.table, n, p) ==> ShownBefore(a.table, n, p)
    ensures forall n: nat, p :: n <= a.next && ShownBefore(b.table, n, p) ==> ShownBefore(b.table, a.next, p)
    ensures a.next <= b.next
  {
  }

  lemma {:induction false} NotShown(t: Table, n: nat, p: int)
    requires p in t && t[p].argv == Other
    ensures !ShownBefore(t, n, p)
  {
  }

  lemma {:induction false} ShownListed(t: Table, n: nat)
    ensures forall p :: ShownBefore(t, n, p) ==> p in t.Keys
  {
  }

  lemma {:induction false} WatchedTwice(o: Others, a: Scene, b: Scene, c: Scene)
    requires Watched(o, a, b) && Watched(o, b, c)
    ensures Watched(o, a, c)
  {
    FollowsOn(o, a.table, a.next, b.table, b.next, c.table, c.next);
  }

  lemma {:induction false} FollowsSelf(o: Others, t: Table, n: nat)
    requires forall p :: p in t ==> t[p].birth < n
    ensures Follows(o, t, n, t, n)
  {
  }

  lemma {:induction false} FollowsGrows(o: Others, t: Table, n: nat, u: Table, m: nat)
    requires Follows(o, t, n, u, m)
    ensures n <= m
  {
  }

  lemma {:induction false} WatchedFollows(o: Others, a: Scene, b: Scene)
    requires Watched(o, a, b)
    ensures Follows(o, a.table, a.next, b.table, b.next) && OwnOrReaped(a.own, b.own, b.table)
  {
  }

  /** As Follows, but that this control started one child. */
  ghost predicate FollowsBut(o: Others, t: Table, n: nat, u: Table, m: nat, c: Popen) {
    && n <= m && Later(t, n, u)
    && (forall p :: p in u && u[p].birth >= n && u[p].argv.Mint? ==>
          || (o.startServers && (o.outOfSight || InSight(u[p])))
          || (p == c.pid && u[p].birth == c.birth && InSight(u[p])))
  }

  /** Whatever has that pid and start time is the mint that was started. */
  predicate IsChild(t: Table, c: Popen, port: int) {
    c.pid in t && t[c.pid].birth == c.birth ==> t[c.pid].argv == Mint(Some(port)) && t[c.pid].readable
  }

  /** The child serves. */
  predicate Serves(t: Table, c: Popen, port: int) { Alive(t, c) && t[c.pid].argv == Mint(Some(port)) }

  lemma {:induction false} ChildMatches(t: Table, c: Popen, port: int)
    requires IsChild(t, c, port) && Alive(t, c) && c.pid > 0 && c.code.None?
    ensures RecordMatches(State(Some(c.pid), Some(c.birth), Some(port)), Some(c), t)
  {
  }

  lemma {:induction false} ChildStays(o: Others, t: Table, n: nat, u: Table, m: nat, c: Popen, port: int)
    requires Follows(o, t, n, u, m) && IsChild(t, c, port) && c.birth < n
    ensures IsChild(u, c, port) && c.birth < m
  {
  }

  lemma {:induction false} SpawnFollows(o: Others, t: Table, n: nat, c: Popen, port: int)
    requires c.pid !in t && c.birth == n && ValidPort(Some(port))
    requires forall p :: p in t ==> t[p].birth < n
    ensures FollowsBut(o, t, n, t[c.pid := Proc(n, Mint(Some(port)), true, false, true)], n + 1, c)
  {
  }

  lemma {:induction false} TakenBy(o: Others, t: Table, n: nat, own: Option<Popen>, c: Popen, port: int)
    requires OwnTaken(o, t, n, own) && c.pid !in t && c.birth == n && c.code.None?
    ensures
      var u := t[c.pid := Proc(n, Mint(Some(port)), true, false, true)];
      var v := if Live(own) then u[own.value.pid := u[own.value.pid].(ours := false)] else u;
      OwnTaken(o, v, n + 1, Some(c)) && IsChild(v, c, port)
  {
  }

  lemma {:induction false} ButInSight(o: Others, t: Table, n: nat, u: Table, m: nat, c: Popen)
    requires FollowsBut(o, t, n, u, m, c)
    ensures StayInSight(o, t) ==> StayInSight(o, u)
  {
    forall p | Serving(u, p) && StayInSight(o, t) ensures InSight(u[p]) {
      if u[p].birth < n { assert Serving(t, p); }
    }
  }

  lemma {:induction false} TakenOn(o: Others, me: int, t: Table, n: nat, own: Option<Popen>, u: Table, m: nat)
    requires OwnTaken(o, t, n, own) && CanBecome(o, me, t, n, u, m)
    requires forall p :: p in t ==> t[p].birth < n
    ensures OwnTaken(o, u, m, own)
  {
  }

  lemma {:induction false} ButFollows(o: Others, t: Table, n: nat, u: Table, m: nat, c: Popen, v: Table, k: nat)
    requires FollowsBut(o, t, n, u, m, c) && Follows(o, u, m, v, k)
    ensures FollowsBut(o, t, n, v, k, c)
  {
    forall p | p in v && v[p].birth >= n && v[p].argv.Mint?
      ensures || (o.startServers && (o.outOfSight || InSight(v[p])))
              || (p == c.pid && v[p].birth == c.birth && InSight(v[p]))
    {
      if v[p].birth < m { assert p in u && u[p].argv == v[p].argv; }
    }
  }

  lemma {:induction false} SightStays(o: Others, t: Table, n: nat, u: Table, m: nat)
    requires Follows(o, t, n, u, m)
    ensures StayInSight(o, t) ==> StayInSight(o, u)
  {
    forall p | Serving(u, p) && StayInSight(o, t) ensures InSight(u[p]) {
      if u[p].birth < n { assert Serving(t, p); }
    }
  }

  lemma {:induction false} ButServer(o: Others, t: Table, n: nat, u: Table, m: nat, c: Popen)
    requires FollowsBut(o, t, n, u, m, c) && !o.startServers
    ensures forall p :: Serving(u, p) ==> p == c.pid || Serving(t, p)
  {
    forall p | Serving(u, p) ensures p == c.pid || Serving(t, p) {
      if u[p].birth < n { assert Serving(t, p); }
    }
  }

  lemma {:induction false} AloneStays(o: Others, t: Table, n: nat, u: Table, m: nat)
    requires Follows(o, t, n, u, m)
    ensures Alone(o, t) ==> Alone(o, u)
  {
    if Alone(o, t) { ServersWereThere(o, t, n, u, m); }
  }

  /** A start begun when nothing was found running: whatever serves at its end was not
      there before, and with nobody else at work it is the child. */
  lemma {:induction false} StartedAlone(o: Others, a: Scene, b: Scene, c: Popen, e: Scene)
    requires Follows(o, a.table, a.next, b.table, b.next) && FollowsBut(o, b.table, b.next, e.table, e.next, c)
    requires StayInSight(o, a.table) ==> forall p :: Serving(b.table, p) ==> b.table[p].birth >= a.next
    ensures StayInSight(o, a.table) ==> forall p :: Serving(e.table, p) ==> e.table[p].birth >= a.next
    ensures Alone(o, a.table) ==> Alone(o, e.table) && NoServer(b.table)
    ensures Alone(o, a.table) ==> forall p :: Serving(e.table, p) ==> p == c.pid && Alive(e.table, c)
  {
    forall p | StayInSight(o, a.table) && Serving(e.table, p) ensures e.table[p].birth >= a.next {
      if e.table[p].birth < a.next { assert Serving(b.table, p); }
    }
    if Alone(o, a.table) {
      forall p ensures !Serving(b.table, p) {
        assert p in b.table && b.table[p].birth >= a.next ==> !b.table[p].argv.Mint?;
      }
      forall p | Serving(e.table, p) ensures p == c.pid && Alive(e.table, c) && InSight(e.table[p]) {
        assert !Serving(b.table, p);
      }
    }
  }

  /** The one server was at `pid` and what was at `pid` is gone. */
  lemma {:induction false} TakenDown(o: Others, t: Table, n: nat, k: nat, u: Table, m: nat, pid: int)
    requires Follows(o, t, n, u, m) && n <= k
    requires !o.startServers && !o.failReads ==> Serving(t, pid) && !(Serving(u, pid) && u[pid].birth < k)
    ensures !o.startServers && !o.failReads && AtMostOne(t) ==> NoServer(u)
  {
    if !o.startServers && !o.failReads && AtMostOne(t) {
      forall p ensures !Serving(u, p) {
        assert p in u && u[p].birth >= n ==> !u[p].argv.Mint?;
        assert Serving(t, p) ==> p == pid;
      }
    }
  }

  lemma {:induction false} GoneStays(o: Others, t: Table, n: nat, u: Table, m: nat, pid: int, k: nat)
    requires Follows(o, t, n, u, m) && k <= n && !(Serving(t, pid) && t[pid].birth < k)
    ensures !(Serving(u, pid) && u[pid].birth < k)
  {
  }

  lemma {:induction false} NoneStays(o: Others, t: Table, n: nat, u: Table, m: nat)
    requires Follows(o, t, n, u, m)
    ensures !o.startServers && NoServer(t) ==> NoServer(u)
  {
    if !o.startServers { ServersWereThere(o, t, n, u, m); }
  }

  lemma {:induction false} NoneFound(o: Others, t: Table, n: nat, u: Table, m: nat)
    requires Follows(o, t, n, u, m)
    requires StayInSight(o, t) ==> forall p :: Serving(u, p) ==> u[p].birth >= n
    ensures Alone(o, t) ==> NoServer(u)
  {
    if Alone(o, t) {
      forall p ensures !Serving(u, p) {
        assert p in u && u[p].birth >= n ==> !u[p].argv.Mint?;
      }
    }
  }

  lemma {:induction false} LookingStarts(o: Others, a: Scene)
    requires OwnTaken(o, a.table, a.next, a.own) && forall p :: p in a.table ==> a.table[p].birth < a.next
    ensures Watched(o, a, a)
  {
  }

  lemma {:induction false} SameChildAt(o: Others, a: Scene, b: Scene, c: Popen)
    requires Watched(o, a, b) && o.still && Serving(a.table, c.pid) && Alive(a.table, c)
    ensures Alive(b.table, c)
  {
    assert Serving(b.table, c.pid);
  }

  lemma {:induction false} WatchedTaken(o: Others, a: Scene, b: Scene)
    requires Watched(o, a, b)
    ensures OwnTaken(o, b.table, b.next, b.own)
  {
  }

  lemma {:induction false} PortsWatched(o: Others, a: Scene, b: Scene)
    requires Watched(o, a, b)
    ensures a.next <= b.next
    ensures StayInSight(o, a.table) ==> StayInSight(o, b.table)
  {
    forall p | Serving(b.table, p) && StayInSight(o, a.table) ensures InSight(b.table[p]) {
      SeenServer(o, a, b, p);
    }
  }

  lemma {:induction false} StillWatched(o: Others, a: Scene, b: Scene)
    requires Watched(o, a, b)
    ensures o.still ==> SameServers(a.table, b.table) && (Findable(a.table) <==> Findable(b.table))
    ensures o.still && AtMostOne(a.table) ==> AtMostOne(b.table)
  {
    if o.still {
      assert forall p :: Serving(a.table, p) <==> Serving(b.table, p);
      if Findable(a.table) {
        var p :| Serving(a.table, p) && InSight(a.table[p]);
        assert Serving(b.table, p);
      }
    }
  }

  /** No process has this pid, or a dead one has. */
  predicate Absent(t: Table, pid: int) { pid in t ==> t[pid].zombie }

  lemma {:induction false} AbsentStays(o: Others, a: Scene, b: Scene, pid: int)
    requires Watched(o, a, b)
    ensures o.still && Absent(a.table, pid) ==> Absent(b.table, pid)
  {
  }

  /** What is known of a server seen while looking. */
  lemma {:induction false} SeenServer(o: Others, a: Scene, b: Scene, p: int)
    requires Watched(o, a, b) && Serving(b.table, p)
    ensures StayInSight(o, a.table) ==> InSight(b.table[p])
    ensures !o.startServers || o.still ==>
      Serving(a.table, p) && a.table[p].argv == b.table[p].argv && a.table[p].readable == b.table[p].readable
  {
    if b.table[p].birth < a.next { assert Serving(a.table, p); }
  }

  /** When a signal meant for the process at this pid can reach another: exactly when
      the machine moves and the process is neither this one nor a child of it that has
      not been waited for.  So a signal to the control's own child cannot go astray, and
      one to an adopted mint can. */
  lemma {:induction false} SignalAstrayExactly(o: Others, me: int, t: Table, n: nat, p: int, kill: bool)
    requires p in t && me in t && forall q :: q in t ==> q > 0 && t[q].birth < n
    ensures (exists u: Table, m: nat :: CanBecome(o, me, t, n, u, m) && p in u && Struck(u, p, kill) != Struck(t, p, kill))
      <==> !o.still && !t[p].ours && p != me
  {
    if !o.still && !t[p].ours && p != me {
      var u := t[p := Proc(n, Other, true, false, false)];
      assert CanBecome(o, me, t, n, u, n + 1) && Struck(u, p, kill) != Struck(t, p, kill);
    }
  }

  /** The record names the process: its pid, with its start time where it has one, and
      not the pid of a child that has been waited for. */
  predicate Names(s: State, own: Option<Popen>, t: Table, p: int)
    requires p in t
  {
    s.pid == Some(p) && p > 0 && (s.ticks.Some? ==> s.ticks.value == t[p].birth) && !Stale(own, p)
  }

  /** Which live servers are out of reach of the record and of the scan alike: those
      whose command line cannot be read, and those without a usable --port that the
      record does not name. */
  lemma {:induction false} OutOfReachExactly(s: State, own: Option<Popen>, t: Table, p: int)
    requires AtMostOne(t) && Serving(t, p)
    ensures !RecordMatches(s, own, t) && !Findable(t)
      <==> !t[p].readable || (!(t[p].argv.port.Some? && 1 <= t[p].argv.port.value <= 65535) && !Names(s, own, t, p))
  {
    if InSight(t[p]) { assert Findable(t); }
    forall q | Serving(t, q) ensures q == p { }
  }

  datatype Op = DoStart(accepted: bool, port: int) | DoStop(budgetOk: bool) | DoStatus | Restart

  /** Whether a mint should be up after these. */
  function Up(was: bool, ops: seq<Op>): bool {
    if ops == [] then was
    else
      var before := Up(was, ops[..|ops| - 1]);
      match ops[|ops| - 1]
      case DoStart(accepted, port) => before || (accepted && 1 <= port <= 65535)
      case DoStop(budgetOk) => before && !budgetOk
      case _ => before
  }

  lemma {:induction false} Sighted(o: Others, t: Table)
    requires Alone(o, t)
    ensures NoServer(t) <==> !Findable(t)
    ensures forall s, own: Option<Popen> :: RecordMatches(s, own, t) ==> Findable(t)
  {
    forall s, own: Option<Popen> | RecordMatches(s, own, t) ensures Findable(t) {
      assert Serving(t, s.pid.value) && InSight(t[s.pid.value]);
    }
    if !NoServer(t) {
      var p :| Serving(t, p);
      assert InSight(t[p]);
    }
  }

  class MintControl {
    const kernel: Kernel
    var file: State
    var own: Option<Popen>

    constructor (kernel: Kernel, file: State)
      requires kernel.Valid() && forall p :: p in kernel.table ==> !kernel.table[p].ours
      ensures this.kernel == kernel && this.file == file && own == None && Valid()
    {
      this.kernel, this.file, own := kernel, file, None;
    }

    ghost predicate Valid() reads this`own, kernel {
      kernel.Valid() && OwnTaken(kernel.others, kernel.table, kernel.next, own)
    }

    /** Looking changes nothing but what it finds out: the child may have been reaped. */
    twostate predicate Observed() reads this`own, kernel {
      && Valid() && old(kernel.instants) <= kernel.instants && kernel.signals == old(kernel.signals)
      && kernel.overlaps == old(kernel.overlaps) && kernel.tries == old(kernel.tries)
      && Watched(kernel.others, Scene(old(kernel.table), old(kernel.next), old(own)),
                 Scene(kernel.table, kernel.next, own))
    }

    /** _read_state: the file may have been deleted or replaced since it was written. */
    method ReadState() returns (s: State)
      modifies this`file
      ensures s == file && (kernel.others.still ==> file == old(file))
    {
      var tampered: bool := *;
      if tampered && !kernel.others.still { file := *; }
      s := file;
    }

    /** _write_state. */
    method WriteState(s: State) returns (ok: bool)
      modifies this`file
      ensures file == if ok then s else old(file)
      ensures kernel.healthy ==> ok
    {
      ok := *;
      ok := ok || kernel.healthy;
      if ok { file := s; }
    }

    /** _mark_not_running. */
    method MarkNotRunning(s: State) returns (r: State)
      modifies this`file
      ensures r == s.(pid := None, ticks := None)
      ensures file == r || file == old(file)
      ensures kernel.healthy ==> file == r
    {
      r := s.(pid := None, ticks := None);
      var ok := WriteState(r);
    }

    /** _reap. */
    method Reap()
      requires Valid()
      modifies this`own, kernel
      ensures Observed()
      ensures Live(old(own)) ==>
        own.Some? && own.value.pid == old(own).value.pid && own.value.birth == old(own).value.birth
      ensures Live(old(own)) && !Live(own) ==> own.value.pid !in kernel.table
      ensures !Live(old(own)) ==> own == old(own)
      ensures kernel.others.still && Live(old(own)) && Alive(old(kernel.table), old(own).value) ==> Live(own)
      ensures kernel.others.still ==> SameServers(old(kernel.table), kernel.table)
      ensures Live(own) ==> Alive(kernel.table, own.value) && !old(kernel.table[own.value.pid].zombie)
    {
      if own.None? || own.value.code.Some? { return; }
      var exited := kernel.Wait(own.value.pid);
      if exited {
        var code: int := *;
        own := Some(own.value.(code := Some(code)));
      }
    }

    /** _process_matches' three reads of /proc: start time, state, command line. */
    method LooksAlive(pid: int, recorded: Option<nat>) returns (alive: bool)
      requires Valid()
      modifies kernel
      ensures Observed()
      ensures alive ==> Serving(kernel.table, pid) && |kernel.instants| > |old(kernel.instants)|
      ensures Quiet(kernel.others) ==> (alive <==> ServingSince(old(kernel.table), pid, recorded))
    {
      hide Watched, CanBecome, OwnTaken, SameServers;
      var k := kernel;
      ghost var o := k.others;
      ghost var a := Scene(k.table, k.next, own);
      LookingStarts(o, a);
      var ticks := k.StartTicks(pid);
      ghost var b := Scene(k.table, k.next, own);
      WatchedOn(o, k.me, a, a, b);
      if ticks.None? { return false; }
      var z := k.IsZombie(pid);
      ghost var c := Scene(k.table, k.next, own);
      WatchedOn(o, k.me, a, b, c);
      if z { return false; }
      if recorded.Some? && recorded.value != ticks.value { return false; }
      var argv := k.Cmdline(pid);
      WatchedOn(o, k.me, a, c, Scene(k.table, k.next, own));
      return argv.Some? && argv.value.Mint?;
    }

    /** _process_matches. */
    method ProcessMatches(s: State) returns (alive: bool)
      requires Valid()
      modifies this`own, kernel
      ensures Observed()
      ensures alive ==> s.pid.Some? && Serving(kernel.table, s.pid.value)
      ensures alive ==> |kernel.instants| > |old(kernel.instants)|
      ensures Quiet(kernel.others) ==> (alive <==> RecordMatches(s, old(own), old(kernel.table)))
    {
      hide Watched, OwnTaken, SameServers;
      ghost var o := kernel.others;
      ghost var a := Scene(kernel.table, kernel.next, own);
      Reap();
      ghost var b := Scene(kernel.table, kernel.next, own);
      if s.pid.None? || s.pid.value <= 0 { return false; }
      var pid := s.pid.value;
      if o.still { SameAt(a.table, b.table, pid); }
      if own.Some? && own.value.pid == pid && own.value.code.Some? { return false; }
      alive := LooksAlive(pid, s.ticks);
      WatchedTwice(o, a, b, Scene(kernel.table, kernel.next, own));
    }

    /** One look of the scan: a process's command line and then its state. */
    method LookAt(pid: int) returns (port: Option<Option<int>>, ghost at: nat)
      requires Valid()
      modifies kernel
      ensures Observed()
      ensures port.Some? ==>
        && |old(kernel.instants)| <= at < |kernel.instants|
        && Serving(kernel.instants[at], pid) && kernel.instants[at][pid].argv == Mint(port.value)
      ensures port.Some? && StayInSight(kernel.others, old(kernel.table)) ==> ValidPort(port.value)
      ensures port.Some? && (!kernel.others.startServers || kernel.others.still) ==>
        Shown(old(kernel.table), pid) && old(kernel.table)[pid].argv == Mint(port.value)
      ensures port.None? && !kernel.others.failReads ==> !ShownBefore(kernel.table, old(kernel.next), pid)
    {
      hide Watched, CanBecome, OwnTaken, StayInSight;
      var k := kernel;
      ghost var o := k.others;
      ghost var a := Scene(k.table, k.next, own);
      LookingStarts(o, a);
      var argv := k.Cmdline(pid);
      ghost var b := Scene(k.table, k.next, own);
      WatchedOn(o, k.me, a, a, b);
      at := |k.instants| - 1;
      if argv.None? || !argv.value.Mint? { return None, at; }
      SeenServer(o, a, b, pid);
      var z := k.IsZombie(pid);
      WatchedOn(o, k.me, a, b, Scene(k.table, k.next, own));
      return if z then None else Some(argv.value.port), at;
    }

    /** _find_ledger_server: the processes in whatever order they are listed, each one's
        command line and then its state; the first server found, usable port or not. */
    method FindLedgerServer() returns (found: Option<(int, Option<int>)>, ghost at: nat)
      requires Valid()
      modifies kernel
      ensures Observed()
      ensures found.Some? ==>
        && |old(kernel.instants)| <= at < |kernel.instants|
        && Serving(kernel.instants[at], found.value.0)
        && kernel.instants[at][found.value.0].argv == Mint(found.value.1)
      ensures found.Some? ==> found.value.0 != kernel.me
      ensures found.Some? && StayInSight(kernel.others, old(kernel.table)) ==> ValidPort(found.value.1)
      ensures found.Some? && (!kernel.others.startServers || kernel.others.still) ==>
        Shown(old(kernel.table), found.value.0) && old(kernel.table)[found.value.0].argv == Mint(found.value.1)
      ensures found.None? && !kernel.others.failReads ==> forall p :: !ShownBefore(kernel.table, old(kernel.next), p)
    {
      hide Watched, CanBecome, OwnTaken, StayInSight, ShownBefore, ValidPort;
      var k := kernel;
      ghost var o := k.others;
      ghost var a := Scene(k.table, k.next, own);
      LookingStarts(o, a);
      at := 0;
      k.Churn();
      ghost var now := Scene(k.table, k.next, own);
      WatchedOn(o, k.me, a, a, now);
      WatchedTaken(o, a, now);
      ShownListed(k.table, a.next);
      var left := k.table.Keys;
      while left != {}
        invariant Observed() && now == Scene(k.table, k.next, own)
        invariant !o.failReads ==> forall p :: ShownBefore(k.table, a.next, p) ==> p in left
        decreases |left|
      {
        assert (forall p :: p !in left) ==> left == {};
        var pid: int :| pid in left;
        left := left - {pid};
        if pid != k.me {
          ghost var was := now;
          PortsWatched(o, a, was);
          StillShown(o, a, was);
          var port;
          port, at := LookAt(pid);
          now := Scene(k.table, k.next, own);
          WatchedTwice(o, a, was, now);
          StillShown(o, was, now);
          if port.Some? {
            if !o.startServers || o.still { SeenServer(o, a, was, pid); }
            found := Some((pid, port.value));
            return;
          }
          assert ShownBefore(k.table, a.next, pid) ==> ShownBefore(k.table, was.next, pid);
        } else {
          NotShown(k.table, a.next, pid);
        }
      }
      found := None;
    }

    /** _adopt_orphan. */
    method Adopt(s: State) returns (adopted: Option<State>, ghost at: nat)
      requires Valid()
      modifies this`file, kernel
      ensures Observed()
      ensures if adopted.None? then file == old(file) else kernel.healthy ==> file == adopted.value
      ensures adopted.Some? ==>
        && adopted.value.pid.Some? && adopted.value.pid.value != kernel.me && ValidPort(adopted.value.port)
        && |old(kernel.instants)| <= at < |kernel.instants|
        && Serving(kernel.instants[at], adopted.value.pid.value)
        && kernel.instants[at][adopted.value.pid.value].argv == Mint(adopted.value.port)
      ensures adopted.Some? && !kernel.others.startServers ==> Serving(old(kernel.table), adopted.value.pid.value)
      ensures adopted.None? && StayInSight(kernel.others, old(kernel.table)) ==>
        forall p :: Serving(kernel.table, p) ==> kernel.table[p].birth >= old(kernel.next)
      ensures Quiet(kernel.others) && AtMostOne(old(kernel.table)) ==> (adopted.Some? <==> Findable(old(kernel.table)))
    {
      hide Watched, CanBecome, OwnTaken;
      var k := kernel;
      ghost var o := k.others;
      ghost var a := Scene(k.table, k.next, own);
      var found;
      found, at := FindLedgerServer();
      ghost var b := Scene(k.table, k.next, own);
      if found.None? {
        StillWatched(o, a, b);
        PortsWatched(o, a, b);
        if !o.failReads {
          forall p | Serving(b.table, p) && InSight(b.table[p]) ensures b.table[p].birth >= a.next {
            assert !ShownBefore(b.table, a.next, p);
          }
        }
        return None, at;
      }
      if !ValidPort(found.value.1) { return None, at; }
      var ticks := k.StartTicks(found.value.0);
      WatchedOn(o, k.me, a, b, Scene(k.table, k.next, own));
      WatchedTaken(o, a, Scene(k.table, k.next, own));
      var new_ := State(Some(found.value.0), ticks, found.value.1);
      var ok := WriteState(new_);
      return Some(new_), at;
    }

    /** status(): what it reports, and what that proves.

        A mint reported as running was seen alive, not a zombie, serving this ledger, at
        an instant within the call, whatever happened between its reads.  A server that
        lives through the call is reported, if every server can be read and has a usable
        port and no read fails.  And where nothing moves or fails, with at most one
        server, the report is exactly this: its command line can be read, and the record
        names it or its --port is usable. */
    method Status() returns (r: Report, ghost record: State, ghost at: nat)
      requires Valid()
      modifies this`file, this`own, kernel
      ensures Observed()
      ensures r.running <==> r.pid.Some?
      ensures r.running <==> r.responding.Some?
      ensures kernel.healthy ==> file.pid == r.pid && (r.port.None? || file.port == r.port)
      ensures Quiet(kernel.others) && RecordMatches(old(file), old(own), old(kernel.table)) ==>
        file == old(file) && r.pid == file.pid && r.port == CleanPort(file.port)
      ensures r.port.Some? ==> 1 <= r.port.value <= 65535
      ensures kernel.others.still ==> record == old(file)
      ensures r.running && r.port.None? ==> r.responding == Some(false)
      ensures r.running && r.port.Some? && kernel.others.still ==> r.responding == Some(r.port.value in kernel.listening)
      ensures !r.running && record.port.Some? && 1 <= record.port.value <= 65535 ==> r.port == record.port
      ensures !r.running ==> r.port == record.port || r.port.None?
      ensures r.running ==>
        && |old(kernel.instants)| <= at < |kernel.instants| && Serving(kernel.instants[at], r.pid.value)
        && (|| (r.pid == record.pid && (r.port == record.port || r.port.None?)
                && (record.port.Some? && 1 <= record.port.value <= 65535 ==> r.port == record.port))
            || (r.port.Some? && kernel.instants[at][r.pid.value].argv == Mint(r.port)))
      ensures r.running && !kernel.others.startServers ==> Serving(old(kernel.table), r.pid.value)
      ensures !r.running && StayInSight(kernel.others, old(kernel.table)) ==>
        forall p :: Serving(kernel.table, p) ==> kernel.table[p].birth >= old(kernel.next)
      ensures Quiet(kernel.others) && AtMostOne(old(kernel.table)) ==>
        (r.running <==> RecordMatches(record, old(own), old(kernel.table)) || Findable(old(kernel.table)))
    {
      hide Watched, CanBecome, OwnTaken, Findable, RecordMatches, StayInSight;
      var alive, s;
      alive, s, record, at := Locate();
      var port := CleanPort(s.port);
      var responding := None;
      if alive && port.Some? {
        var answered := kernel.Probe(port.value);
        responding := Some(answered);
      } else if alive {
        responding := Some(false);
      }
      r := Report(alive, if alive then s.pid else None, port, responding);
    }

    /** The first half of status(): the record, or failing that the scan. */
    method Locate() returns (alive: bool, s: State, ghost record: State, ghost at: nat)
      requires Valid()
      modifies this`file, this`own, kernel
      ensures Observed()
      ensures kernel.others.still ==> record == old(file)
      ensures !alive ==> s.port == record.port && s.pid.None?
      ensures kernel.healthy ==> file == s
      ensures Quiet(kernel.others) && RecordMatches(old(file), old(own), old(kernel.table)) ==>
        alive && file == s == old(file)
      ensures alive ==>
        && s.pid.Some? && |old(kernel.instants)| <= at < |kernel.instants| && Serving(kernel.instants[at], s.pid.value)
        && (s == record || (ValidPort(s.port) && kernel.instants[at][s.pid.value].argv == Mint(s.port)))
      ensures alive && !kernel.others.startServers ==> Serving(old(kernel.table), s.pid.value)
      ensures !alive && StayInSight(kernel.others, old(kernel.table)) ==>
        forall p :: Serving(kernel.table, p) ==> kernel.table[p].birth >= old(kernel.next)
      ensures Quiet(kernel.others) && AtMostOne(old(kernel.table)) ==>
        (alive <==> RecordMatches(record, old(own), old(kernel.table)) || Findable(old(kernel.table)))
    {
      hide Watched, CanBecome, OwnTaken;
      var k := kernel;
      ghost var o := k.others;
      ghost var a := Scene(k.table, k.next, own);
      s := ReadState();
      record := s;
      alive := ProcessMatches(s);
      ghost var b := Scene(k.table, k.next, own);
      at := |k.instants| - 1;
      if alive { SeenServer(o, a, b, s.pid.value); }
      if !alive && s.pid.Some? { s := MarkNotRunning(s); }
      if !alive {
        StillWatched(o, a, b);
        PortsWatched(o, a, b);
        var adopted;
        adopted, at := Adopt(s);
        WatchedTwice(o, a, b, Scene(k.table, k.next, own));
        if adopted.Some? {
          if !o.startServers { SeenServer(o, a, b, adopted.value.pid.value); }
          s := adopted.value;
          alive := true;
        }
      }
    }

    /** Time passes and signals may go out, to child `c` alone; no server is started. */
    twostate predicate Handled(c: Popen) reads this`own, kernel {
      && Valid() && old(kernel.instants) <= kernel.instants && kernel.overlaps == old(kernel.overlaps)
      && SameChild(own, c) && (!Live(own) ==> !Alive(kernel.table, c))
      && OnlyTo(old(kernel.signals), kernel.signals, c)
      && Follows(kernel.others, old(kernel.table), old(kernel.next), kernel.table, kernel.next)
    }

    /** Popen.send_signal, which polls first. */
    method SendSignal(kill: bool)
      requires Valid() && Live(own)
      modifies this`own, kernel
      ensures Handled(old(own).value)
      ensures kernel.signals == old(kernel.signals)
        + if Live(own) then [Signal(old(own).value.pid, old(own).value.birth, kill)] else []
      ensures kernel.others.still && Alive(old(kernel.table), old(own).value) ==> Live(own)
      ensures Live(own) && kill && kernel.killWorks ==> kernel.table[own.value.pid].zombie
    {
      Reap();
      ghost var t, n := kernel.table, kernel.next;
      if Live(own) {
        var sent := kernel.Kill(own.value.pid, kill);
        FollowsOn(kernel.others, old(kernel.table), old(kernel.next), t, n, kernel.table, kernel.next);
      }
    }

    /** _terminate: a wait is any number of polls, and when it times out the child has
        not been reaped. */
    method Terminate()
      requires Valid() && Live(own)
      modifies this`own, kernel
      ensures Handled(old(own).value)
      ensures kernel.killWorks ==> !Live(own)
      ensures
        var n := |old(kernel.signals)|;
        && n <= |kernel.signals| <= n + 2
        && forall i :: n <= i < |kernel.signals| ==> kernel.signals[i].kill == (i > n)
      ensures Live(own) ==> |kernel.signals| == |old(kernel.signals)| + 2
      ensures kernel.others.still && Alive(old(kernel.table), old(own).value) ==> kernel.signals != old(kernel.signals)
    {
      var k := kernel;
      SendSignal(false);
      ghost var t, n := k.table, k.next;
      Reap();
      FollowsOn(k.others, old(k.table), old(k.next), t, n, k.table, k.next);
      if Live(own) {
        t, n := k.table, k.next;
        SendSignal(true);
        FollowsOn(k.others, old(k.table), old(k.next), t, n, k.table, k.next);
        t, n := k.table, k.next;
        Reap();
        FollowsOn(k.others, old(k.table), old(k.next), t, n, k.table, k.next);
      }
    }

    /** The Popen object is dropped; somebody else will wait for the child. */
    method Drop()
      requires Valid()
      modifies this`own, kernel
      ensures Valid() && own == None && old(kernel.instants) <= kernel.instants && kernel.signals == old(kernel.signals)
      ensures kernel.overlaps == old(kernel.overlaps) && kernel.tries == old(kernel.tries)
      ensures forall p :: Serving(kernel.table, p) <==> Serving(old(kernel.table), p)
      ensures Follows(kernel.others, old(kernel.table), old(kernel.next), kernel.table, kernel.next)
      ensures forall c: Popen :: Alive(kernel.table, c) ==> Alive(old(kernel.table), c)
    {
      if own.Some? && own.value.code.None? { kernel.Disown(own.value.pid); }
      own := None;
    }

    /** _await_descriptor: until the child answers for itself; in every other case it is
        put down and the failure recorded. */
    method AwaitDescriptor() returns (ok: bool)
      requires Valid() && Live(own)
      modifies this, kernel
      ensures Valid() && old(kernel.instants) <= kernel.instants
      ensures OnlyTo(old(kernel.signals), kernel.signals, old(own).value) && kernel.overlaps == old(kernel.overlaps)
      ensures Follows(kernel.others, old(kernel.table), old(kernel.next), kernel.table, kernel.next)
      ensures ok ==> own == old(own) && Alive(kernel.table, own.value)
      ensures !ok && kernel.killWorks ==> !Alive(kernel.table, old(own).value)
      ensures kernel.healthy && kernel.others.still && Alive(old(kernel.table), old(own).value) ==> ok
      ensures if ok then file == old(file) else kernel.healthy ==> file.pid.None?
    {
      hide Follows, Watched, OwnTaken;
      var k := kernel;
      ghost var c := own.value;
      ghost var t, n := k.table, k.next;
      var rounds: nat := *;
      FollowsSelf(k.others, t, n);
      while true
        invariant Valid() && Live(own) && Handled(c) && own == old(own)
        invariant k.others.still && Alive(old(k.table), c) ==> Alive(k.table, c)
        invariant file == old(file)
        decreases rounds
      {
        ghost var u, m := k.table, k.next;
        Reap();
        WatchedFollows(k.others, Scene(u, m, old(own)), Scene(k.table, k.next, own));
        FollowsOn(k.others, t, n, u, m, k.table, k.next);
        u, m := k.table, k.next;
        if !Live(own) {
          Drop();
          FollowsOn(k.others, t, n, u, m, k.table, k.next);
          Fail();
          return false;
        }
        var answer := k.Ask(own.value.pid, rounds == 0);
        if answer == Some(true) { return true; }
        if answer == Some(false) || rounds == 0 {
          PutDown(answer.None?);
          FollowsOn(k.others, t, n, u, m, k.table, k.next);
          return false;
        }
        rounds := rounds - 1;
      }
    }

    /** What a failed start does about the child: it is dropped as well if it never answered. */
    method PutDown(drop: bool)
      requires Valid() && Live(own)
      modifies this, kernel
      ensures Valid() && old(kernel.instants) <= kernel.instants
      ensures OnlyTo(old(kernel.signals), kernel.signals, old(own).value) && kernel.overlaps == old(kernel.overlaps)
      ensures Follows(kernel.others, old(kernel.table), old(kernel.next), kernel.table, kernel.next)
      ensures kernel.killWorks ==> !Alive(kernel.table, old(own).value)
      ensures kernel.healthy ==> file.pid.None?
    {
      hide Follows, Watched, OwnTaken;
      var k := kernel;
      ghost var t, n := k.table, k.next;
      Terminate();
      if drop {
        ghost var u, m := k.table, k.next;
        Drop();
        FollowsOn(k.others, t, n, u, m, k.table, k.next);
      }
      Fail();
    }

    /** _fail, up to the exception. */
    method Fail()
      modifies this`file
      ensures kernel.healthy ==> file.pid.None?
    {
      var s := ReadState();
      var r := MarkNotRunning(s);
    }

    /** Popen, and self._proc: the old one is dropped when the new one is there. */
    method Launch(port: int) returns (started: bool)
      requires Valid() && ValidPort(Some(port))
      modifies this`own, kernel
      ensures Valid() && old(kernel.instants) <= kernel.instants && kernel.signals == old(kernel.signals)
      ensures !kernel.others.startServers && NoServer(old(kernel.table)) ==> kernel.overlaps == old(kernel.overlaps)
      ensures !started ==> Follows(kernel.others, old(kernel.table), old(kernel.next), kernel.table, kernel.next)
      ensures !started ==> !kernel.healthy && unchanged(this) && unchanged(kernel)
      ensures started ==> Live(own) && old(kernel.next) <= own.value.birth < kernel.next && Alive(kernel.table, own.value)
      ensures started ==> IsChild(kernel.table, own.value, port)
      ensures started ==>
        FollowsBut(kernel.others, old(kernel.table), old(kernel.next), kernel.table, kernel.next, own.value)
    {
      hide Follows, FollowsBut;
      var k := kernel;
      ghost var t, was := k.table, own;
      FollowsSelf(k.others, t, k.next);
      var n := k.next;
      var pid := k.Spawn(port);
      if pid.None? { return false; }
      var c := Popen(pid.value, n, None);
      SpawnFollows(k.others, t, n, c, port);
      TakenBy(k.others, t, n, was, c, port);
      ghost var u, m := k.table, k.next;
      if own.Some? && own.value.code.None? {
        k.Disown(own.value.pid);
        ButFollows(k.others, t, n, u, m, c, k.table, k.next);
      }
      own := Some(c);
      return true;
    }

    /** _start, for settings _validate and the preflights accept or refuse. */
    method Begin(accepted: bool, port: int) returns (o: Outcome, ghost child: Option<Popen>, ghost at: nat)
      requires Valid()
      modifies this, kernel
      ensures Valid() && old(kernel.instants) <= kernel.instants
      ensures child.None? ==> o.Refused? && kernel.signals == old(kernel.signals)
      ensures child.None? ==> Follows(kernel.others, old(kernel.table), old(kernel.next), kernel.table, kernel.next)
      ensures child.Some? ==>
        child.value.birth >= old(kernel.next) && OnlyTo(old(kernel.signals), kernel.signals, child.value)
      ensures child.Some? ==>
        FollowsBut(kernel.others, old(kernel.table), old(kernel.next), kernel.table, kernel.next, child.value)
      ensures o.Refused? && child.Some? && kernel.killWorks ==> !Alive(kernel.table, child.value)
      ensures o.Failed? ==> own == child
      ensures !kernel.others.startServers && NoServer(old(kernel.table)) ==> kernel.overlaps == old(kernel.overlaps)
      ensures o.Done? && o.report.running && !kernel.others.startServers ==>
        o.report.pid == Some(child.value.pid) || (o.report.pid.Some? && Serving(old(kernel.table), o.report.pid.value))
      ensures o.Done? ==>
        child.Some? && |old(kernel.instants)| <= at < |kernel.instants| && Serves(kernel.instants[at], child.value, port)
      ensures o.Done? && !kernel.others.startServers && NoServer(old(kernel.table)) ==>
        forall p :: Serving(kernel.instants[at], p) ==> p == child.value.pid
      ensures o.Done? && Alive(kernel.table, child.value) && StayInSight(kernel.others, old(kernel.table)) ==>
        o.report.running
      ensures o.Done? && kernel.others.still ==> Serves(kernel.table, child.value, port)
      ensures !accepted || port < 1 || port > 65535 ==> child.None? && unchanged(this)
      ensures child.None? ==> unchanged(kernel)
      ensures kernel.healthy && Quiet(kernel.others) && accepted && 1 <= port <= 65535 ==> o.Done?
      ensures o.Done? && Quiet(kernel.others) ==>
        && file == State(Some(child.value.pid), Some(child.value.birth), Some(port))
        && o.report == Report(true, Some(child.value.pid), Some(port), Some(port in kernel.listening))
      ensures kernel.healthy ==> match o { case Done(r) => file.pid == r.pid case _ => child.Some? ==> file.pid.None? }
    {
      hide Watched, OwnTaken, Follows, FollowsBut, StayInSight, Findable, RecordMatches;
      child, at := None, 0;
      var k := kernel;
      FollowsSelf(k.others, k.table, k.next);
      if !accepted || !ValidPort(Some(port)) { return Refused, None, 0; }
      var started := Launch(port);
      if !started { return Refused, None, 0; }
      var c := own.value;
      child := own;
      ghost var u, m := k.table, k.next;
      var ticks := k.StartTicks(c.pid);
      assert Valid() by { TakenOn(k.others, k.me, u, m, own, k.table, k.next); }
      ButFollows(k.others, old(k.table), old(k.next), u, m, c, k.table, k.next);
      ChildStays(k.others, u, m, k.table, k.next, c, port);
      var ok := WriteState(State(Some(c.pid), ticks, Some(port)));
      if !ok { return Failed, child, 0; }
      u, m := k.table, k.next;
      ButInSight(k.others, old(k.table), old(k.next), u, m, c);
      if !k.others.startServers { ButServer(k.others, old(k.table), old(k.next), u, m, c); }
      o, at := SeeItUp(port);
      ButFollows(k.others, old(k.table), old(k.next), u, m, c, k.table, k.next);
    }

    /** The rest of _start, once the child is there: it answers, or it is put down. */
    method SeeItUp(port: int) returns (o: Outcome, ghost at: nat)
      requires Valid() && Live(own) && own.value.birth < kernel.next && IsChild(kernel.table, own.value, port)
      modifies this, kernel
      ensures Valid() && old(kernel.instants) <= kernel.instants && kernel.overlaps == old(kernel.overlaps)
      ensures OnlyTo(old(kernel.signals), kernel.signals, old(own).value)
      ensures Follows(kernel.others, old(kernel.table), old(kernel.next), kernel.table, kernel.next)
      ensures !o.Failed? && (o.Refused? && kernel.killWorks ==> !Alive(kernel.table, old(own).value))
      ensures o.Done? && o.report.running && !kernel.others.startServers ==>
        o.report.pid.Some? && Serving(old(kernel.table), o.report.pid.value)
      ensures o.Done? ==>
        && |old(kernel.instants)| <= at + 1 <= |kernel.instants|
        && Serves(kernel.instants[at], old(own).value, port)
        && (!kernel.others.startServers ==>
              forall p :: Serving(kernel.instants[at], p) ==> Serving(old(kernel.table), p))
      ensures o.Done? && Alive(kernel.table, old(own).value) && StayInSight(kernel.others, old(kernel.table)) ==>
        o.report.running
      ensures o.Done? && kernel.others.still ==> Serves(kernel.table, old(own).value, port)
      ensures kernel.healthy && kernel.others.still && Alive(old(kernel.table), old(own).value) ==> o.Done?
      ensures kernel.healthy ==> file.pid == if o.Done? then o.report.pid else None
      ensures
        var c := old(own).value;
        o.Done? && Quiet(kernel.others) && old(file) == State(Some(c.pid), Some(c.birth), Some(port)) && 1 <= port <= 65535
        ==> file == old(file) && o.report == Report(true, Some(c.pid), Some(port), Some(port in kernel.listening))
    {
      hide Watched, OwnTaken, Follows, FollowsBut, StayInSight, Findable, RecordMatches;
      var k := kernel;
      ghost var c, t, n := own.value, k.table, k.next;
      var ok := AwaitDescriptor();
      ghost var u, m := k.table, k.next;
      at := |k.instants| - 1;
      ChildStays(k.others, t, n, u, m, c, port);
      if !ok { return Refused, 0; }
      SightStays(k.others, t, n, u, m);
      if !k.others.startServers { ServersWereThere(k.others, t, n, u, m); }
      ghost var was := own;
      assert k.others.still && old(file) == State(Some(c.pid), Some(c.birth), Some(port)) ==> RecordMatches(file, own, u)
        by { ChildMatches(u, c, port); }
      var r, _, _ := Status();
      ghost var b := Scene(k.table, k.next, own);
      WatchedFollows(k.others, Scene(u, m, was), b);
      FollowsOn(k.others, t, n, u, m, k.table, k.next);
      ChildStays(k.others, u, m, k.table, k.next, c, port);
      if k.others.still { SameChildAt(k.others, Scene(u, m, was), b, c); }
      o := Done(r);
    }

    /** start(): never beside a server that lives through the call, whoever else is at
        work; and on its own, at most one.  A normal return means that the child served
        at an instant within the call; that it is reported running if it still does; and,
        where nothing else moves, that it does and is the only one. */
    method Start(accepted: bool, port: int) returns (o: Outcome, ghost child: Option<Popen>, ghost at: nat)
      requires Valid()
      modifies this, kernel
      ensures Valid() && old(kernel.instants) <= kernel.instants
      ensures kernel.healthy && Quiet(kernel.others) && AtMostOne(old(kernel.table)) ==>
        (o.Done? <==> accepted && 1 <= port <= 65535 && !Findable(old(kernel.table))
                      && !RecordMatches(old(file), old(own), old(kernel.table)))
      ensures !accepted || port < 1 || port > 65535 ==> child.None?
      ensures Quiet(kernel.others) && AtMostOne(old(kernel.table)) && Findable(old(kernel.table)) ==> child.None?
      ensures kernel.others.still && child.None? ==> SameServers(old(kernel.table), kernel.table)
      ensures kernel.healthy && child.Some? ==> file.pid == if o.Done? then o.report.pid else None
      ensures child.None? ==> o.Refused? && kernel.signals == old(kernel.signals)
      ensures child.Some? ==>
        child.value.birth >= old(kernel.next) && OnlyTo(old(kernel.signals), kernel.signals, child.value)
      ensures child.Some? && StayInSight(kernel.others, old(kernel.table)) ==>
        forall p :: Serving(kernel.table, p) ==> kernel.table[p].birth >= old(kernel.next)
      ensures Alone(kernel.others, old(kernel.table)) ==>
        Alone(kernel.others, kernel.table) && kernel.overlaps == old(kernel.overlaps)
      ensures Alone(kernel.others, old(kernel.table)) && child.Some? ==>
        forall p :: Serving(kernel.table, p) ==> Alive(kernel.table, child.value) && p == child.value.pid
      ensures o.Refused? && child.Some? && kernel.killWorks ==> !Alive(kernel.table, child.value)
      ensures o.Failed? ==> own == child
      ensures o.Done? && o.report.running && Alone(kernel.others, old(kernel.table)) ==>
        o.report.pid == Some(child.value.pid)
      ensures o.Done? ==>
        child.Some? && |old(kernel.instants)| <= at < |kernel.instants| && Serves(kernel.instants[at], child.value, port)
      ensures o.Done? && Alive(kernel.table, child.value) && StayInSight(kernel.others, old(kernel.table)) ==>
        o.report.running
      ensures o.Done? && Alone(kernel.others, old(kernel.table)) ==>
        forall p :: Serving(kernel.instants[at], p) ==> p == child.value.pid
      ensures o.Done? && Quiet(kernel.others) ==>
        && file == State(Some(child.value.pid), Some(child.value.birth), Some(port))
        && o.report == Report(true, Some(child.value.pid), Some(port), Some(port in kernel.listening))
        && Serves(kernel.table, child.value, port)
      ensures o.Done? && Quiet(kernel.others) && !kernel.others.startServers && NoServer(old(kernel.table)) ==>
        (forall p :: Serving(kernel.table, p) ==> p == child.value.pid)
    {
      hide Watched, OwnTaken, Follows, FollowsBut;
      child, at := None, 0;
      var k := kernel;
      ghost var a := Scene(k.table, k.next, own);
      var r, _, _ := Status();
      ghost var b := Scene(k.table, k.next, own);
      WatchedFollows(k.others, a, b);
      StillWatched(k.others, a, b);
      if r.running {
        AloneStays(k.others, a.table, a.next, b.table, b.next);
        return Refused, None, 0;
      }
      NoneFound(k.others, a.table, a.next, b.table, b.next);
      PortsWatched(k.others, a, b);
      o, child, at := Begin(accepted, port);
      if child.None? {
        AloneStays(k.others, a.table, a.next, b.table, b.next);
        AloneStays(k.others, b.table, b.next, k.table, k.next);
      } else {
        StartedAlone(k.others, a, b, child.value, Scene(k.table, k.next, own));
      }
      if o.Refused? { Fail(); }
    }

    /** One look of _wait_gone: what had this pid is gone by now. */
    method GoneNow(pid: int) returns (gone: bool, ghost seen: nat)
      requires Valid()
      modifies this`own, kernel
      ensures Observed()
      ensures !gone ==> |old(kernel.instants)| <= seen < |kernel.instants| && pid in kernel.instants[seen]
      ensures Quiet(kernel.others) && Absent(old(kernel.table), pid) ==> gone
      ensures gone && !Stale(old(own), pid) && !kernel.others.failReads ==>
        !(Serving(kernel.table, pid) && kernel.table[pid].birth < old(kernel.next))
      ensures Stale(own, pid) ==> gone
      ensures ZombieChild(old(own), old(kernel.table), pid) ==> gone
    {
      hide Watched, OwnTaken, CanBecome;
      var k := kernel;
      ghost var a := Scene(k.table, k.next, own);
      Reap();
      ghost var b := Scene(k.table, k.next, own);
      seen := 0;
      if own.Some? && own.value.pid == pid && own.value.code.Some? { return true, seen; }
      var ticks := k.StartTicks(pid);
      seen := |k.instants| - 1;
      ghost var c := Scene(k.table, k.next, own);
      WatchedOn(k.others, k.me, a, b, c);
      if ticks.None? { return true, seen; }
      gone := k.IsZombie(pid);
      WatchedOn(k.others, k.me, a, c, Scene(k.table, k.next, own));
      AbsentStays(k.others, a, Scene(k.table, k.next, own), pid);
    }

    /** _wait_gone. */
    method WaitGone(pid: int) returns (gone: bool, ghost seen: nat)
      requires Valid()
      modifies this`own, kernel
      ensures Observed()
      ensures !gone ==> |old(kernel.instants)| <= seen < |kernel.instants| && pid in kernel.instants[seen]
      ensures Quiet(kernel.others) && Absent(old(kernel.table), pid) ==> gone
      ensures gone && !Stale(old(own), pid) && !kernel.others.failReads ==>
        !(Serving(kernel.table, pid) && kernel.table[pid].birth < old(kernel.next))
      ensures !gone ==> !Stale(own, pid)
      ensures ZombieChild(old(own), old(kernel.table), pid) ==> gone
    {
      hide Watched, OwnTaken;
      ghost var k := kernel;
      ghost var a := Scene(k.table, k.next, own);
      ghost var b := a;
      var rounds: nat := *;
      gone, seen := GoneNow(pid);
      while !gone && rounds > 0
        invariant Observed()
        invariant !gone ==> |old(kernel.instants)| <= seen < |kernel.instants| && pid in kernel.instants[seen]
        invariant Quiet(kernel.others) && Absent(old(kernel.table), pid) ==> gone
        invariant Stale(own, pid) ==> gone
        invariant gone && !Stale(old(own), pid) && !kernel.others.failReads ==>
          !(Serving(kernel.table, pid) && kernel.table[pid].birth < old(kernel.next))
        invariant ZombieChild(old(own), old(kernel.table), pid) ==> gone
      {
        b := Scene(k.table, k.next, own);
        gone, seen := GoneNow(pid);
        WatchedTwice(k.others, a, b, Scene(k.table, k.next, own));
        assert a.next <= b.next by { WatchedFollows(k.others, a, b); }
        rounds := rounds - 1;
      }
    }

    /** stop()'s signals and waits: to that pid alone, whosoever it is by then, and to the
        control's own child if it is that child's.  SIGTERM is always tried, and SIGKILL
        after it only when the process was seen again in between; it gives up only when
        both were tried, and not at all where nothing moves and SIGKILL works. */
    method TakeDown(pid: int) returns (r: Fate, ghost seen: nat)
      requires Valid() && pid != kernel.me
      modifies this`own, kernel
      ensures Valid() && old(kernel.instants) <= kernel.instants && kernel.overlaps == old(kernel.overlaps)
      ensures Follows(kernel.others, old(kernel.table), old(kernel.next), kernel.table, kernel.next)
      ensures r.Gone? && !Stale(old(own), pid) && !kernel.others.failReads ==>
        !(Serving(kernel.table, pid) && kernel.table[pid].birth < old(kernel.next))
      ensures OnlyToPid(old(kernel.signals), kernel.signals, pid)
      ensures Tried(old(kernel.tries), kernel.tries, pid, old(kernel.signals), kernel.signals, kernel.instants)
      ensures |old(kernel.tries)| < |kernel.tries| <= |old(kernel.tries)| + 2
      ensures
        var at := kernel.tries[|old(kernel.tries)|].at;
        at < |kernel.instants| && (kernel.others.permitted && pid in kernel.instants[at] ==>
          |old(kernel.signals)| < |kernel.signals|
          && kernel.signals[|old(kernel.signals)|] == Signal(pid, kernel.instants[at][pid].birth, false))
      ensures r.Denied? <==> kernel.tries[|old(kernel.tries)|].sent.NotPermitted?
      ensures r.Survived? ==> |kernel.tries| == |old(kernel.tries)| + 2
      ensures |kernel.tries| == |old(kernel.tries)| + 2 ==>
        && kernel.tries[|old(kernel.tries)|].at < seen < kernel.tries[|old(kernel.tries)| + 1].at < |kernel.instants|
        && pid in kernel.instants[seen]
      ensures r.Denied? ==> !kernel.others.permitted
      ensures Quiet(kernel.others) && kernel.killWorks && kernel.others.permitted ==> r.Gone?
      ensures Live(old(own)) && old(own).value.pid == pid ==>
        && OnlyTo(old(kernel.signals), kernel.signals, old(own).value)
        && r != Denied && (kernel.killWorks ==> r == Gone)
    {
      hide Watched, Follows, OwnTaken, Tried;
      var k := kernel;
      ghost var t, n := k.table, k.next;
      seen := 0;
      var sent, gone;
      sent, gone, seen := SignalAndWait(pid, false);
      ghost var signalled, first, ts := k.signals, k.tries[|k.tries| - 1], k.instants;
      TriedOnce(old(k.tries), first, old(k.signals), signalled, ts);
      FirstTry(old(k.tries), k.tries, pid, old(k.signals), signalled, ts);
      if sent.NotPermitted? { return Denied, seen; }
      if gone { return Gone, seen; }
      ghost var u, m := k.table, k.next;
      FollowsGrows(k.others, t, n, u, m);
      ghost var last;
      sent, gone, last := SignalAndWait(pid, true);
      FollowsOn(k.others, t, n, u, m, k.table, k.next);
      TriedStays(old(k.tries), old(k.tries) + [first], pid, old(k.signals), signalled, ts, k.instants);
      assert k.tries == old(k.tries) + [first] + [k.tries[|k.tries| - 1]];
      TriedTwice(old(k.tries), first, k.tries[|k.tries| - 1], old(k.signals), signalled, k.signals, k.instants);
      return if gone then Gone else Survived, seen;
    }

    /** One signal and the wait after it; a SIGTERM that is not permitted is the end of it. */
    method SignalAndWait(pid: int, kill: bool) returns (sent: Sent, gone: bool, ghost seen: nat)
      requires Valid() && pid != kernel.me
      modifies this`own, kernel
      ensures Valid() && old(kernel.instants) <= kernel.instants && kernel.overlaps == old(kernel.overlaps)
      ensures Follows(kernel.others, old(kernel.table), old(kernel.next), kernel.table, kernel.next)
      ensures gone && !Stale(old(own), pid) && !kernel.others.failReads ==>
        !(Serving(kernel.table, pid) && kernel.table[pid].birth < old(kernel.next))
      ensures OnlyToPid(old(kernel.signals), kernel.signals, pid)
      ensures kernel.tries == old(kernel.tries) + [Try(pid, kill, sent, |old(kernel.instants)|)]
      ensures |old(kernel.instants)| < |kernel.instants|
      ensures sent.NoSuchProcess? <==> pid !in kernel.instants[|old(kernel.instants)|]
      ensures kernel.signals == old(kernel.signals)
        + if sent.Sent? then [Signal(pid, kernel.instants[|old(kernel.instants)|][pid].birth, kill)] else []
      ensures !gone && !(sent.NotPermitted? && !kill) ==>
        && |old(kernel.instants)| < seen < |kernel.instants| && pid in kernel.instants[seen] && !Stale(own, pid)
        && (Live(old(own)) && old(own).value.pid == pid ==> own == old(own))
      ensures sent.NotPermitted? ==> !kernel.others.permitted
      ensures Quiet(kernel.others) && kernel.others.permitted && kill && kernel.killWorks ==> gone
      ensures Live(old(own)) && old(own).value.pid == pid ==>
        && sent.Sent? && OnlyTo(old(kernel.signals), kernel.signals, old(own).value)
        && (kill && kernel.killWorks ==> gone)
    {
      hide Watched, Follows, OwnTaken;
      var k := kernel;
      ghost var t, n, was := k.table, k.next, own;
      sent := Hit(pid, kill);
      seen := 0;
      if sent.NotPermitted? && !kill { return sent, false, seen; }
      ghost var u, m := k.table, k.next;
      FollowsGrows(k.others, t, n, u, m);
      gone, seen := WaitGone(pid);
      WatchedFollows(k.others, Scene(u, m, was), Scene(k.table, k.next, own));
      FollowsOn(k.others, t, n, u, m, k.table, k.next);
    }

    /** The same, and what stop() does about it: the child is waited for and dropped. */
    method TakeDownAndForget(pid: int) returns (gone: bool)
      requires Valid() && pid != kernel.me
      modifies this, kernel
      ensures Valid() && old(kernel.instants) <= kernel.instants && kernel.overlaps == old(kernel.overlaps)
      ensures Follows(kernel.others, old(kernel.table), old(kernel.next), kernel.table, kernel.next)
      ensures gone && !Stale(old(own), pid) && !kernel.others.failReads ==>
        !(Serving(kernel.table, pid) && kernel.table[pid].birth < old(kernel.next))
      ensures Tried(old(kernel.tries), kernel.tries, pid, old(kernel.signals), kernel.signals, kernel.instants)
      ensures |old(kernel.tries)| < |kernel.tries| <= |old(kernel.tries)| + 2
      ensures Quiet(kernel.others) && kernel.killWorks && kernel.others.permitted ==> gone
      ensures Live(old(own)) && old(own).value.pid == pid ==>
        OnlyTo(old(kernel.signals), kernel.signals, old(own).value) && (kernel.killWorks ==> gone)
    {
      hide Watched, Follows, OwnTaken, Tried;
      var k := kernel;
      ghost var a := Scene(k.table, k.next, own);
      var fate, _ := TakeDown(pid);
      // not allowed to: raised as it is, nothing recorded
      if fate == Denied { return false; }
      ghost var was := k.instants;
      gone := fate == Gone;
      if gone {
        ghost var b := Scene(k.table, k.next, own);
        FollowsGrows(k.others, a.table, a.next, b.table, b.next);
        Reap();
        ghost var c := Scene(k.table, k.next, own);
        WatchedFollows(k.others, b, c);
        FollowsOn(k.others, a.table, a.next, b.table, b.next, c.table, c.next);
        FollowsGrows(k.others, a.table, a.next, c.table, c.next);
        Drop();
        FollowsOn(k.others, a.table, a.next, c.table, c.next, k.table, k.next);
        if !Stale(a.own, pid) && !k.others.failReads {
          GoneStays(k.others, b.table, b.next, c.table, c.next, pid, a.next);
          GoneStays(k.others, c.table, c.next, k.table, k.next, pid, a.next);
        }
      }
      TriedStays(old(k.tries), k.tries, pid, old(k.signals), k.signals, was, k.instants);
      Fail();
    }

    /** os.kill, from this control. */
    method Hit(pid: int, kill: bool) returns (sent: Sent)
      requires Valid() && pid != kernel.me
      modifies kernel
      ensures Valid() && old(kernel.instants) <= kernel.instants && kernel.overlaps == old(kernel.overlaps)
      ensures Follows(kernel.others, old(kernel.table), old(kernel.next), kernel.table, kernel.next)
      ensures OnlyToPid(old(kernel.signals), kernel.signals, pid)
      ensures kernel.tries == old(kernel.tries) + [Try(pid, kill, sent, |old(kernel.instants)|)]
      ensures |old(kernel.instants)| < |kernel.instants|
      ensures sent.NoSuchProcess? <==> pid !in kernel.instants[|old(kernel.instants)|]
      ensures kernel.signals == old(kernel.signals)
        + if sent.Sent? then [Signal(pid, kernel.instants[|old(kernel.instants)|][pid].birth, kill)] else []
      ensures sent.NotPermitted? ==> !kernel.others.permitted
      ensures kernel.others.still && kernel.others.permitted && kill && kernel.killWorks ==> Absent(kernel.table, pid)
      ensures Live(own) && own.value.pid == pid ==>
        && sent.Sent? && OnlyTo(old(kernel.signals), kernel.signals, own.value)
        && (kill && kernel.killWorks ==> ZombieChild(own, kernel.table, pid))
    {
      sent := kernel.Kill(pid, kill);
    }

    /** Which process stop() means. */
    method Target() returns (pid: Option<int>)
      requires Valid()
      modifies this`file, this`own, kernel
      ensures Observed()
      ensures pid.Some? ==> pid.value != kernel.me
      ensures Quiet(kernel.others) && AtMostOne(old(kernel.table)) ==>
        (pid.Some? <==> RecordMatches(old(file), old(own), old(kernel.table)) || Findable(old(kernel.table)))
      ensures pid.Some? && !kernel.others.startServers ==>
        Serving(old(kernel.table), pid.value) && !Stale(own, pid.value)
      ensures pid.None? && StayInSight(kernel.others, old(kernel.table)) ==>
        forall p :: Serving(kernel.table, p) ==> kernel.table[p].birth >= old(kernel.next)
    {
      hide Watched, CanBecome;
      var k := kernel;
      ghost var o := k.others;
      ghost var a := Scene(k.table, k.next, own);
      var s := ReadState();
      var alive := ProcessMatches(s);
      ghost var b := Scene(k.table, k.next, own);
      if alive {
        SeenServer(o, a, b, s.pid.value);
        return s.pid;
      }
      PortsWatched(o, a, b);
      StillWatched(o, a, b);
      var adopted, _ := Adopt(s);
      WatchedTwice(o, a, b, Scene(k.table, k.next, own));
      if adopted.Some? {
        if !o.startServers { SeenServer(o, a, b, adopted.value.pid.value); }
        return adopted.value.pid;
      }
      if s.pid.Some? { s := MarkNotRunning(s); }
      return None;
    }

    /** stop(): with nobody else at work it leaves no server when it returns; and when
        only this control's own child can be serving, every signal reaches that child,
        whatever exits and whatever pids are reused meanwhile, and it does return. */
    method Stop(budgetOk: bool) returns (o: Outcome)
      requires Valid()
      modifies this, kernel
      ensures Valid() && old(kernel.instants) <= kernel.instants && kernel.overlaps == old(kernel.overlaps)
      ensures !budgetOk ==> o.Refused? && unchanged(this) && unchanged(kernel)
      ensures Follows(kernel.others, old(kernel.table), old(kernel.next), kernel.table, kernel.next)
      ensures Alone(kernel.others, old(kernel.table)) && o.Done? ==> NoServer(kernel.table) && !o.report.running
      ensures kernel.healthy && o.Done? ==> file.pid == o.report.pid
      ensures !kernel.others.startServers && OwnOnly(old(kernel.table), old(own)) ==>
        && (if Live(old(own)) then OnlyTo(old(kernel.signals), kernel.signals, old(own).value)
            else kernel.signals == old(kernel.signals))
        && (budgetOk && kernel.killWorks ==> o.Done?)
      ensures kernel.tries != old(kernel.tries) ==>
        (exists p :: Tried(old(kernel.tries), kernel.tries, p, old(kernel.signals), kernel.signals, kernel.instants))
      ensures |kernel.tries| <= |old(kernel.tries)| + 2
      ensures
        var (k, t) := (kernel, old(kernel.table));
        budgetOk && Quiet(k.others) && !k.others.startServers && k.others.permitted && k.killWorks && AtMostOne(t) ==>
          && o.Done?
          && (NoServer(k.table) <==> NoServer(t) || RecordMatches(old(file), old(own), t) || Findable(t))
    {
      hide Watched, Follows, OwnTaken, Tried;
      var k := kernel;
      ghost var a := Scene(k.table, k.next, own);
      FollowsSelf(k.others, k.table, k.next);
      if !budgetOk { return Refused; }
      var pid := Target();
      ghost var b := Scene(k.table, k.next, own);
      WatchedFollows(k.others, a, b);
      if pid.Some? {
        var gone := TakeDownAndForget(pid.value);
        FollowsOn(k.others, a.table, a.next, b.table, b.next, k.table, k.next);
        assert Tried(old(k.tries), k.tries, pid.value, old(k.signals), k.signals, k.instants);
        if !gone { return Refused; }
        TakenDown(k.others, a.table, a.next, b.next, k.table, k.next, pid.value);
      } else {
        NoneFound(k.others, a.table, a.next, b.table, b.next);
        StillWatched(k.others, a, b);
      }
      ghost var d, ts := Scene(k.table, k.next, own), k.instants;
      var r, _, _ := Status();
      if pid.Some? { TriedStays(old(k.tries), k.tries, pid.value, old(k.signals), k.signals, ts, k.instants); }
      StillWatched(k.others, d, Scene(k.table, k.next, own));
      WatchedFollows(k.others, d, Scene(k.table, k.next, own));
      FollowsOn(k.others, a.table, a.next, d.table, d.next, k.table, k.next);
      NoneStays(k.others, d.table, d.next, k.table, k.next);
      o := Done(r);
    }

    /** One call, or a restart of the GUI, which forgets the child. */
    method Perform(op: Op)
      requires Valid() && Alone(kernel.others, kernel.table)
      modifies this, kernel
      ensures Valid() && Alone(kernel.others, kernel.table) && kernel.overlaps == old(kernel.overlaps)
      ensures Quiet(kernel.others) && kernel.healthy && kernel.others.permitted && kernel.killWorks ==>
        (NoServer(kernel.table) <==> !Up(!NoServer(old(kernel.table)), [op]))
    {
      hide Watched, OwnTaken, Follows, RecordMatches;
      ghost var a := Scene(kernel.table, kernel.next, own);
      Sighted(kernel.others, a.table);
      assert Up(!NoServer(a.table), []) == !NoServer(a.table) && [op][..0] == [];
      match op {
        case DoStart(accepted, port) =>
          var o, child, at := Start(accepted, port);
          assert o.Done? && Quiet(kernel.others) ==> Serving(kernel.table, child.value.pid);
          assert kernel.others.still && child.None? ==> (NoServer(kernel.table) <==> NoServer(a.table));
          assert Up(!NoServer(a.table), [op]) == (!NoServer(a.table) || (accepted && 1 <= port <= 65535));
        case DoStop(budgetOk) =>
          var o := Stop(budgetOk);
          AloneStays(kernel.others, a.table, a.next, kernel.table, kernel.next);
        case DoStatus =>
          var r, _, _ := Status();
          WatchedFollows(kernel.others, a, Scene(kernel.table, kernel.next, own));
          StillWatched(kernel.others, a, Scene(kernel.table, kernel.next, own));
          AloneStays(kernel.others, a.table, a.next, kernel.table, kernel.next);
        case Restart =>
          Drop();
          AloneStays(kernel.others, a.table, a.next, kernel.table, kernel.next);
      }
    }

    /** Any sequence of calls, with GUI restarts between them, the state file lost or
        replaced at any read, and the machine moving at every step.  And where nothing
        moves or fails the control does as it is told: at the end a mint serves exactly
        if the calls say so. */
    method History(ops: seq<Op>)
      requires Valid() && Alone(kernel.others, kernel.table)
      modifies this, kernel
      ensures Valid() && Alone(kernel.others, kernel.table) && kernel.overlaps == old(kernel.overlaps)
      ensures Quiet(kernel.others) && kernel.healthy && kernel.others.permitted && kernel.killWorks ==>
        (NoServer(kernel.table) <==> !Up(!NoServer(old(kernel.table)), ops))
    {
      hide Watched, OwnTaken, Follows, Alone;
      for i := 0 to |ops|
        invariant Valid() && Alone(kernel.others, kernel.table) && kernel.overlaps == old(kernel.overlaps)
        invariant Quiet(kernel.others) && kernel.healthy && kernel.others.permitted && kernel.killWorks ==>
          (NoServer(kernel.table) <==> !Up(!NoServer(old(kernel.table)), ops[..i]))
      {
        assert ops[..i + 1][..i] == ops[..i] && [ops[i]][..0] == [];
        Perform(ops[i]);
      }
      assert ops[..|ops|] == ops;
    }
  }
}
