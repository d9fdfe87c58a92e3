/** The locking discipline (services/concurrency.py and its callers): process-local keyed locks and
    PostgreSQL transaction advisory locks, taken by any number of threads in any number of processes. */
module LockOrder {
  datatype ProcessKind = PipelineLock | IapLock | PublishLock | CbsdLock | GrantLock
  datatype AdvisoryKind = IapKey | CpasKey | FadKey | CbsdKey | GrantKey

  /** `key` is the CBSD id or grant id of a keyed lock and blank otherwise. */
  datatype Lock = Process(pid: nat, pkind: ProcessKind, key: string) | Advisory(akind: AdvisoryKind, key: string)

  const TOP_RANK: nat := 10

  function Rank(l: Lock): (r: nat)
    ensures r < TOP_RANK
  {
    match l
    case Process(_, PipelineLock, _) => 0
    case Process(_, IapLock, _) => 1
    case Process(_, PublishLock, _) => 2
    case Process(_, CbsdLock, _) => 3
    case Process(_, GrantLock, _) => 4
    case Advisory(IapKey, _) => 5
    case Advisory(CpasKey, _) => 6
    case Advisory(FadKey, _) => 7
    case Advisory(CbsdKey, _) => 8
    case Advisory(GrantKey, _) => 9
  }

  datatype Dialect = Sqlite | Postgres

  /** What a thread may be asked to do.  `Baseline` stands for peer sync, injection, PAL and PPA writes. */
  datatype Op =
    | GrantRequest(cbsd: string)
    | GrantMutation(cbsd: string, grant: string)
    | CbsdMutation(cbsd: string)
    | Baseline
    | CpasRun(drifted: bool)
    | CreateDump

  /** Work is the operation itself, under its locks. */
  datatype Action = Acquire(lock: Lock) | Release(lock: Lock) | Work(op: Op, dialect: Dialect, pid: nat)

  function Advisories(d: Dialect, keys: seq<Lock>): (r: seq<Lock>) {
    if d == Postgres then keys else []
  }

  /** The locks of one operation, in the order the code takes them. */
  function LocksOf(op: Op, d: Dialect, pid: nat): (r: seq<Lock>) {
    match op
    case GrantRequest(c) =>
      [Process(pid, IapLock, ""), Process(pid, CbsdLock, c)] + Advisories(d, [Advisory(IapKey, ""), Advisory(CbsdKey, c)])
    case GrantMutation(c, g) =>
      [Process(pid, CbsdLock, c), Process(pid, GrantLock, g)] + Advisories(d, [Advisory(CbsdKey, c), Advisory(GrantKey, g)])
    case CbsdMutation(c) =>
      [Process(pid, CbsdLock, c)] + Advisories(d, [Advisory(CbsdKey, c)])
    case Baseline =>
      [Process(pid, IapLock, "")] + Advisories(d, [Advisory(IapKey, "")])
    case CpasRun(drifted) =>
      if d == Postgres then
        [Process(pid, IapLock, ""), Advisory(IapKey, ""), Advisory(CpasKey, "")] + if drifted then [] else [Advisory(FadKey, "")]
      else
        [Process(pid, PipelineLock, ""), Process(pid, IapLock, "")] + if drifted then [] else [Process(pid, PublishLock, "")]
    case CreateDump =>
      if d == Postgres then [Advisory(FadKey, "")] else [Process(pid, PublishLock, "")]
  }

  function Takes(locks: seq<Lock>): (r: seq<Action>) {
    if locks == [] then [] else [Acquire(locks[0])] + Takes(locks[1..])
  }

  function Drops(locks: seq<Lock>): (r: seq<Action>) {
    if locks == [] then [] else Drops(locks[1..]) + [Release(locks[0])]
  }

  /** Take the locks, work, let go in reverse order: advisory locks at the commit, then process locks. */
  function Script(op: Op, d: Dialect, pid: nat): (r: seq<Action>) {
    Takes(LocksOf(op, d, pid)) + [Work(op, d, pid)] + Drops(LocksOf(op, d, pid))
  }

  /** A batch handles its items one after the other. */
  function Batch(ops: seq<Op>, d: Dialect, pid: nat): (r: seq<Action>) {
    if ops == [] then [] else Script(ops[0], d, pid) + Batch(ops[1..], d, pid)
  }

  // -------------------------------------------------------------- the machine

  datatype Thread = Thread(held: seq<Lock>, todo: seq<Action>)

  type State = map<nat, Thread>

  datatype Step = Go(tid: nat) | Fail(tid: nat) | Spawn(tid: nat, pid: nat, dialect: Dialect, ops: seq<Op>)

  function Without(held: seq<Lock>, l: Lock): (r: seq<Lock>) {
    if held == [] then []
    else if held[0] == l then Without(held[1..], l)
    else [held[0]] + Without(held[1..], l)
  }

  ghost predicate HeldByOther(s: State, tid: nat, l: Lock) {
    exists u :: u in s && u != tid && l in s[u].held
  }

  /** Thread `tid` has something to do and is not waiting for a lock. */
  ghost predicate CanStep(s: State, tid: nat) {
    && tid in s && s[tid].todo != []
    && (s[tid].todo[0].Acquire? ==> !HeldByOther(s, tid, s[tid].todo[0].lock))
  }

  function Performed(t: Thread): (r: Thread)
    requires t.todo != []
  {
    match t.todo[0]
    case Acquire(l) => Thread(t.held + [l], t.todo[1..])
    case Release(l) => Thread(Without(t.held, l), t.todo[1..])
    case Work(_, _, _) => Thread(t.held, t.todo[1..])
  }

  ghost predicate Next(s: State, step: Step, s': State) {
    match step
    case Go(tid) => CanStep(s, tid) && s' == s[tid := Performed(s[tid])]
    // An exception unwinds the contexts: everything held is let go, the rest of the batch is lost.
    case Fail(tid) => tid in s && s[tid].todo != [] && s' == s[tid := Thread(s[tid].held, Drops(s[tid].held))]
    case Spawn(tid, pid, d, ops) => tid !in s && s' == s[tid := Thread([], Batch(ops, d, pid))]
  }

  ghost predicate Run(states: seq<State>, steps: seq<Step>) {
    && |states| == |steps| + 1
    && states[0] == map[]
    && forall i :: 0 <= i < |steps| ==> Next(states[i], steps[i], states[i + 1])
  }

  // ---------------------------------------------------------------- discipline

  predicate Below(held: seq<Lock>, l: Lock) {
    forall i :: 0 <= i < |held| ==> Rank(held[i]) < Rank(l)
  }

  /** Every lock taken outranks everything held at that moment, an operation works under just its own
      locks, and at the end nothing is held. */
  predicate Orderly(held: seq<Lock>, todo: seq<Action>)
    decreases |todo|
  {
    if todo == [] then held == []
    else match todo[0]
      case Acquire(l) => Below(held, l) && Orderly(held + [l], todo[1..])
      case Release(l) => Orderly(Without(held, l), todo[1..])
      case Work(op, d, pid) => held == LocksOf(op, d, pid) && Orderly(held, todo[1..])
  }

  predicate Ascending(locks: seq<Lock>) {
    forall i, j :: 0 <= i < j < |locks| ==> Rank(locks[i]) < Rank(locks[j])
  }

  /** Each operation of the code takes its locks in strictly rising rank. */
  lemma OperationsAscend(op: Op, d: Dialect, pid: nat)
    ensures Ascending(LocksOf(op, d, pid))
  {
    match (op, d)
    case (GrantRequest(_), Postgres) =>
    case (GrantRequest(_), Sqlite) =>
    case (GrantMutation(_, _), Postgres) =>
    case (GrantMutation(_, _), Sqlite) =>
    case (CbsdMutation(_), _) =>
    case (Baseline, _) =>
    case (CpasRun(_), Postgres) =>
    case (CpasRun(_), Sqlite) =>
    case (CreateDump, _) =>
  }

  lemma {:induction false} WithoutLast(held: seq<Lock>, l: Lock)
    requires l !in held
    ensures Without(held + [l], l) == held
  {
    if held == [] {
      assert Without([l], l) == Without([l][1..], l) == [];
    } else {
      assert (held + [l])[1..] == held[1..] + [l];
      WithoutLast(held[1..], l);
    }
  }

  lemma DropsLast(locks: seq<Lock>, l: Lock)
    ensures Drops(locks + [l]) == [Release(l)] + Drops(locks)
    decreases |locks|
  {
    if locks == [] {
      assert ([] + [l])[1..] == [];
    } else {
      assert (locks + [l])[1..] == locks[1..] + [l];
      DropsLast(locks[1..], l);
    }
  }

  lemma {:induction false} DropsOrderly(held: seq<Lock>, rest: seq<Action>)
    requires Ascending(held) && Orderly([], rest)
    ensures Orderly(held, Drops(held) + rest)
    decreases |held|
  {
    if held == [] {
      assert Drops(held) + rest == rest;
    } else {
      var n := |held| - 1;
      var l := held[n];
      assert held == held[..n] + [l];
      forall i | 0 <= i < n ensures held[i] != l {
        assert Rank(held[i]) < Rank(held[n]);
      }
      WithoutLast(held[..n], l);
      DropsLast(held[..n], l);
      DropsOrderly(held[..n], rest);
      assert (Drops(held) + rest)[0] == Release(l) && (Drops(held) + rest)[1..] == Drops(held[..n]) + rest;
    }
  }

  lemma NextOutranks(held: seq<Lock>, more: seq<Lock>)
    requires more != [] && Ascending(held + more)
    ensures Below(held, more[0]) && (held + [more[0]]) + more[1..] == held + more
  {
    forall i | 0 <= i < |held| ensures Rank(held[i]) < Rank(more[0]) {
      assert (held + more)[i] == held[i] && (held + more)[|held|] == more[0];
    }
  }

  lemma TakesStep(more: seq<Lock>, tail: seq<Action>)
    requires more != []
    ensures Takes(more) + tail == [Acquire(more[0])] + (Takes(more[1..]) + tail)
  {
  }

  lemma {:induction false} TakesOrderly(held: seq<Lock>, more: seq<Lock>, tail: seq<Action>)
    requires Ascending(held + more) && Orderly(held + more, tail)
    ensures Orderly(held, Takes(more) + tail)
    decreases |more|
  {
    if more == [] {
      assert held + more == held && Takes(more) + tail == tail;
    } else {
      var l, rest := more[0], more[1..];
      NextOutranks(held, more);
      TakesOrderly(held + [l], rest, tail);
      AcquireOrderly(held, l, Takes(rest) + tail);
      TakesStep(more, tail);
    }
  }

  lemma AcquireOrderly(held: seq<Lock>, l: Lock, after: seq<Action>)
    requires Below(held, l) && Orderly(held + [l], after)
    ensures Orderly(held, [Acquire(l)] + after)
  {
    assert ([Acquire(l)] + after)[1..] == after;
  }

  lemma ScriptOrderly(op: Op, d: Dialect, pid: nat, rest: seq<Action>)
    requires Orderly([], rest)
    ensures Orderly([], Script(op, d, pid) + rest)
  {
    var locks := LocksOf(op, d, pid);
    OperationsAscend(op, d, pid);
    WorkThenDrop(op, d, pid, rest);
    assert [] + locks == locks;
    TakesOrderly([], locks, [Work(op, d, pid)] + (Drops(locks) + rest));
    Regroup(Takes(locks), [Work(op, d, pid)], Drops(locks), rest);
  }

  lemma Regroup<T>(a: seq<T>, b: seq<T>, c: seq<T>, d: seq<T>)
    ensures a + (b + (c + d)) == a + b + c + d
  {
  }

  lemma WorkThenDrop(op: Op, d: Dialect, pid: nat, rest: seq<Action>)
    requires Orderly([], rest)
    ensures Orderly(LocksOf(op, d, pid), [Work(op, d, pid)] + (Drops(LocksOf(op, d, pid)) + rest))
  {
    var locks := LocksOf(op, d, pid);
    OperationsAscend(op, d, pid);
    DropsOrderly(locks, rest);
    assert ([Work(op, d, pid)] + (Drops(locks) + rest))[1..] == Drops(locks) + rest;
  }

  lemma {:induction false} BatchOrderly(ops: seq<Op>, d: Dialect, pid: nat)
    ensures Orderly([], Batch(ops, d, pid))
  {
    if ops != [] {
      BatchOrderly(ops[1..], d, pid);
      ScriptOrderly(ops[0], d, pid, Batch(ops[1..], d, pid));
    }
  }

  // ---------------------------------------------------------------- invariant

  ghost predicate Exclusive(s: State) {
    forall t, u, l :: t in s && u in s && t != u && l in s[t].held ==> l !in s[u].held
  }

  ghost predicate Inv(s: State) {
    && Exclusive(s)
    && (forall t :: t in s ==> Ascending(s[t].held) && Orderly(s[t].held, s[t].todo))
  }

  lemma {:induction false} WithoutKeeps(held: seq<Lock>, l: Lock)
    requires Ascending(held)
    ensures Ascending(Without(held, l))
    ensures forall k :: k in Without(held, l) <==> k in held && k != l
  {
    if held != [] {
      WithoutKeeps(held[1..], l);
      assert held == [held[0]] + held[1..];
      var rest := Without(held[1..], l);
      forall i | 0 <= i < |rest| ensures Rank(held[0]) < Rank(rest[i]) {
        assert rest[i] in held[1..];
        var j :| 0 <= j < |held[1..]| && held[1..][j] == rest[i];
        assert held[j + 1] == rest[i];
      }
    }
  }

  lemma StepKeepsInv(s: State, step: Step, s': State)
    requires Inv(s) && Next(s, step, s')
    ensures Inv(s')
  {
    match step
    case Go(tid) =>
      var t := s[tid];
      match t.todo[0] {
        case Acquire(l) =>
        case Release(l) => WithoutKeeps(t.held, l);
        case Work(_, _, _) =>
      }
    case Fail(tid) =>
      DropsOrderly(s[tid].held, []);
      assert Drops(s[tid].held) + [] == Drops(s[tid].held);
    case Spawn(tid, pid, d, ops) =>
      BatchOrderly(ops, d, pid);
  }

  lemma {:induction false} RunKeepsInv(states: seq<State>, steps: seq<Step>)
    requires Run(states, steps)
    ensures Inv(states[|steps|])
    decreases |steps|
  {
    if steps != [] {
      var n := |steps| - 1;
      assert Run(states[..|states| - 1], steps[..n]);
      RunKeepsInv(states[..|states| - 1], steps[..n]);
      StepKeepsInv(states[n], steps[n], states[n + 1]);
    }
  }

  /** Follow the holder of the lock a thread waits for: each hop wants a higher rank, so the walk
      ends at a thread that can step. */
  lemma {:induction false} WalkToRunnable(s: State, tid: nat) returns (runnable: nat)
    requires Inv(s) && tid in s && s[tid].todo != []
    ensures CanStep(s, runnable)
    decreases if s[tid].todo[0].Acquire? then TOP_RANK - Rank(s[tid].todo[0].lock) else 0
  {
    if CanStep(s, tid) {
      runnable := tid;
    } else {
      var l := s[tid].todo[0].lock;
      var u :| u in s && u != tid && l in s[u].held;
      assert s[u].todo != [];
      if CanStep(s, u) {
        runnable := u;
      } else {
        var i :| 0 <= i < |s[u].held| && s[u].held[i] == l;
        assert Below(s[u].held, s[u].todo[0].lock);
        runnable := WalkToRunnable(s, u);
      }
    }
  }

  /** No deadlock: in every reachable state with unfinished work some thread can take its next step. */
  lemma NeverStuck(states: seq<State>, steps: seq<Step>)
    requires Run(states, steps)
    requires exists t :: t in states[|steps|] && states[|steps|][t].todo != []
    ensures exists t :: CanStep(states[|steps|], t)
  {
    RunKeepsInv(states, steps);
    var s := states[|steps|];
    var t :| t in s && s[t].todo != [];
    var r := WalkToRunnable(s, t);
  }

  /** In every reachable state no two threads hold the same lock, and a finished thread holds none. */
  lemma AlwaysExclusive(states: seq<State>, steps: seq<Step>)
    requires Run(states, steps)
    ensures Exclusive(states[|steps|])
    ensures forall t :: t in states[|steps|] && states[|steps|][t].todo == [] ==> states[|steps|][t].held == []
  {
    RunKeepsInv(states, steps);
  }

  // ------------------------------------------------- what the locks are for

  /** The CBSD whose rows the operation checks and changes. */
  function CbsdOf(op: Op): (c: set<string>) {
    match op
    case GrantRequest(c) => {c}
    case GrantMutation(c, _) => {c}
    case CbsdMutation(c) => {c}
    case _ => {}
  }

  /** The two operations must not overlap: they work on the same CBSD or the same grant, on the admission
      baseline, on the pipeline, or on the published dump. */
  predicate Conflicting(a: Op, b: Op) {
    || CbsdOf(a) * CbsdOf(b) != {}
    || (a.GrantMutation? && b.GrantMutation? && a.grant == b.grant)
    || ((a.GrantRequest? || a.Baseline? || a.CpasRun?) && (b.GrantRequest? || b.Baseline? || b.CpasRun?))
    || ((a == CpasRun(false) || a.CreateDump?) && (b == CpasRun(false) || b.CreateDump?))
  }

  /** Both run on the database server, or in the same process. */
  predicate Together(d: Dialect, p: nat, e: Dialect, q: nat) {
    d == e && (d == Postgres || p == q)
  }

  lemma HoldsCbsd(op: Op, d: Dialect, pid: nat, c: string)
    requires c in CbsdOf(op)
    ensures Process(pid, CbsdLock, c) in LocksOf(op, d, pid)
    ensures d == Postgres ==> Advisory(CbsdKey, c) in LocksOf(op, d, pid)
  {
  }

  lemma HoldsBaseline(op: Op, d: Dialect, pid: nat)
    requires op.GrantRequest? || op.Baseline? || op.CpasRun?
    ensures Process(pid, IapLock, "") in LocksOf(op, d, pid)
    ensures d == Postgres ==> Advisory(IapKey, "") in LocksOf(op, d, pid)
  {
  }

  lemma HoldsPublication(op: Op, d: Dialect, pid: nat)
    requires op == CpasRun(false) || op.CreateDump?
    ensures d == Sqlite ==> Process(pid, PublishLock, "") in LocksOf(op, d, pid)
    ensures d == Postgres ==> Advisory(FadKey, "") in LocksOf(op, d, pid)
  {
  }

  lemma HoldsGrant(c: string, g: string, d: Dialect, pid: nat)
    ensures Process(pid, GrantLock, g) in LocksOf(GrantMutation(c, g), d, pid)
    ensures d == Postgres ==> Advisory(GrantKey, g) in LocksOf(GrantMutation(c, g), d, pid)
  {
  }

  /** Conflicting operations share a lock. */
  lemma SharedLock(a: Op, d: Dialect, p: nat, b: Op, q: nat) returns (l: Lock)
    requires Conflicting(a, b) && Together(d, p, d, q)
    ensures l in LocksOf(a, d, p) && l in LocksOf(b, d, q)
  {
    if CbsdOf(a) * CbsdOf(b) != {} {
      var c :| c in CbsdOf(a) * CbsdOf(b);
      HoldsCbsd(a, d, p, c);
      HoldsCbsd(b, d, q, c);
      l := if d == Postgres then Advisory(CbsdKey, c) else Process(p, CbsdLock, c);
    } else if a.GrantMutation? && b.GrantMutation? {
      HoldsGrant(a.cbsd, a.grant, d, p);
      HoldsGrant(b.cbsd, b.grant, d, q);
      l := if d == Postgres then Advisory(GrantKey, a.grant) else Process(p, GrantLock, a.grant);
    } else if (a.GrantRequest? || a.Baseline? || a.CpasRun?) && (b.GrantRequest? || b.Baseline? || b.CpasRun?) {
      HoldsBaseline(a, d, p);
      HoldsBaseline(b, d, q);
      l := if d == Postgres then Advisory(IapKey, "") else Process(p, IapLock, "");
    } else {
      HoldsPublication(a, d, p);
      HoldsPublication(b, d, q);
      l := if d == Postgres then Advisory(FadKey, "") else Process(p, PublishLock, "");
    }
  }

  ghost predicate Working(s: State, t: nat) {
    t in s && s[t].todo != [] && s[t].todo[0].Work?
  }

  /** What the discipline is for: in every reachable state no two threads are at work on conflicting
      operations. */
  lemma ConflictsNeverOverlap(states: seq<State>, steps: seq<Step>, t: nat, u: nat)
    requires Run(states, steps) && t != u && Working(states[|steps|], t) && Working(states[|steps|], u)
    ensures var a, b := states[|steps|][t].todo[0], states[|steps|][u].todo[0];
            !(Conflicting(a.op, b.op) && Together(a.dialect, a.pid, b.dialect, b.pid))
  {
    RunKeepsInv(states, steps);
    var s := states[|steps|];
    var a, b := s[t].todo[0], s[u].todo[0];
    if Conflicting(a.op, b.op) && Together(a.dialect, a.pid, b.dialect, b.pid) {
      var l := SharedLock(a.op, a.dialect, a.pid, b.op, b.pid);
    }
  }
}
