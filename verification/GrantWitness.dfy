/** Two concrete runs of the grant table.  In the first a grant past its committed expiry comes back:
    the heartbeat that renews it has locked the row before the expiry and commits after it.  In the
    second a heartbeat fails between shortening a PAL grant and recomputing its transmit time. */
module GrantWitness {
  import opened Wrappers
  import opened Spectrum
  import opened SpectrumInquiry
  import opened Lifecycle
  import opened Heartbeat
  import opened Decisions
  import opened GrantProtocol
  import opened GrantTheorems

  type Pals = map<string, PalRow>

  const RANGE: Range := Range(CBRS_LOW_HZ, CBRS_LOW_HZ + CHANNEL_HZ)
  const PLAN: Plan := Plan("g", "c", RANGE, GAA, None, None, 20.0, false, [])
  const RENEW: Request := Request(false, true, false, false, 0, false, None, false)

  function Made(plan: Plan): (e: Entry) { NewEntry(plan, GrantExpireTime(0, plan.cap), 0) }

  function Registered(pals: Pals): (s: State) { State(0, {"c"}, map[], 0, pals, map[]) }

  function PlanState(plan: Plan, pals: Pals, iap: bool, keyed: bool, phase: Phase): (s: State) {
    Registered(pals).(threads := map[1 := Thread(GrantOp(plan), iap, keyed, map[], phase)])
  }

  function GrantedState(pals: Pals, now: int, e: Entry): (s: State) { State(now, {"c"}, map[0 := e], 1, pals, map[]) }

  function Beat(keyed: bool, local: Grants, stage: Stage): (t: Thread) {
    Thread(HeartbeatOp("c", 0, RENEW), false, keyed, local, Beating(stage))
  }

  /** `e` is committed, `copy` locked by the heartbeat. */
  function BeatState(pals: Pals, now: int, e: Entry, stage: Stage, copy: Entry): (s: State) {
    GrantedState(pals, now, e).(threads := map[2 := Beat(true, map[0 := copy], stage)])
  }

  function RegisterState(pals: Pals, keyed: bool, phase: Phase): (s: State) {
    Init(0, pals).(threads := map[0 := Thread(RegisterOp("c"), false, keyed, map[], phase)])
  }

  lemma RegisterSteps(pals: Pals)
    ensures Enabled(Init(0, pals), Begin(0, RegisterOp("c")))
    ensures Next(Init(0, pals), Begin(0, RegisterOp("c"))) == RegisterState(pals, false, Started)
    ensures Enabled(RegisterState(pals, false, Started), TakeCbsd(0))
    ensures Next(RegisterState(pals, false, Started), TakeCbsd(0)) == RegisterState(pals, true, Started)
  {
  }

  lemma RegisterEnds(pals: Pals)
    ensures Enabled(RegisterState(pals, true, Started), Finish(0))
    ensures Next(RegisterState(pals, true, Started), Finish(0)) == RegisterState(pals, true, Complete)
    ensures Enabled(RegisterState(pals, true, Complete), Commit(0))
    ensures Next(RegisterState(pals, true, Complete), Commit(0)) == Registered(pals)
  {
  }

  lemma RegisterRun(pals: Pals) returns (run: seq<Label>)
    ensures RunsTo(Init(0, pals), run, Registered(pals))
  {
    var s := Init(0, pals);
    RegisterSteps(pals);
    RegisterEnds(pals);
    run := Then(s, [], s, Begin(0, RegisterOp("c")), RegisterState(pals, false, Started));
    run := Then(s, run, RegisterState(pals, false, Started), TakeCbsd(0), RegisterState(pals, true, Started));
    run := Then(s, run, RegisterState(pals, true, Started), Finish(0), RegisterState(pals, true, Complete));
    run := Then(s, run, RegisterState(pals, true, Complete), Commit(0), Registered(pals));
  }

  predicate First(plan: Plan, pals: Pals) {
    Admissible(plan, pals) && plan.cbsd == "c" && plan.earlier == []
  }

  lemma PlanWork(plan: Plan, pals: Pals, phase: Phase, after: Phase)
    requires First(plan, pals)
    requires (phase == Started && after == Checked) || (phase == Checked && after == Timed(GrantExpireTime(0, plan.cap)))
             || (phase == Timed(GrantExpireTime(0, plan.cap)) && after == Inserting(Made(plan)))
    ensures Enabled(PlanState(plan, pals, true, true, phase), Work(1, 0))
    ensures Next(PlanState(plan, pals, true, true, phase), Work(1, 0)) == PlanState(plan, pals, true, true, after)
  {
    var s := PlanState(plan, pals, true, true, phase);
    assert !Conflicts(s.grants, plan);
    assert Worked(s, 1, 0) == s.threads[1].(phase := after);
  }

  lemma InsertStep(plan: Plan, pals: Pals)
    ensures Enabled(PlanState(plan, pals, true, true, Inserting(Made(plan))), Commit(1))
    ensures Next(PlanState(plan, pals, true, true, Inserting(Made(plan))), Commit(1)) == GrantedState(pals, 0, Made(plan))
  {
    var s := PlanState(plan, pals, true, true, Inserting(Made(plan)));
    assert s.threads[1].local == map[];
    assert (map[] + map[])[0 := Made(plan)] == map[0 := Made(plan)];
    assert s.threads - {1} == map[];
  }

  lemma GrantRun(plan: Plan, pals: Pals) returns (run: seq<Label>)
    requires First(plan, pals)
    ensures RunsTo(Registered(pals), run, GrantedState(pals, 0, Made(plan)))
  {
    var s := Registered(pals);
    var a := PlanState(plan, pals, false, false, Started);
    var b := PlanState(plan, pals, true, false, Started);
    var c := PlanState(plan, pals, true, true, Started);
    var d := PlanState(plan, pals, true, true, Checked);
    var e := PlanState(plan, pals, true, true, Timed(GrantExpireTime(0, plan.cap)));
    var f := PlanState(plan, pals, true, true, Inserting(Made(plan)));
    run := Then(s, [], s, Begin(1, GrantOp(plan)), a);
    run := Then(s, run, a, TakeIap(1), b);
    run := Then(s, run, b, TakeCbsd(1), c);
    PlanWork(plan, pals, Started, Checked);
    run := Then(s, run, c, Work(1, 0), d);
    PlanWork(plan, pals, Checked, Timed(GrantExpireTime(0, plan.cap)));
    run := Then(s, run, d, Work(1, 0), e);
    PlanWork(plan, pals, Timed(GrantExpireTime(0, plan.cap)), Inserting(Made(plan)));
    run := Then(s, run, e, Work(1, 0), f);
    InsertStep(plan, pals);
    run := Then(s, run, f, Commit(1), GrantedState(pals, 0, Made(plan)));
  }

  lemma LockRun(pals: Pals, now: int, e: Entry) returns (run: seq<Label>)
    requires e.row.cbsd == "c"
    ensures RunsTo(GrantedState(pals, now, e), run, BeatState(pals, now, e, Gate, e))
  {
    var a := GrantedState(pals, now, e);
    var b := a.(threads := map[2 := Beat(false, map[], Gate)]);
    var c := a.(threads := map[2 := Beat(true, map[], Gate)]);
    run := Then(a, [], a, Begin(2, HeartbeatOp("c", 0, RENEW)), b);
    run := Then(a, run, b, TakeCbsd(2), c);
    run := Then(a, run, c, LockRow(2, 0), BeatState(pals, now, e, Gate, e));
  }

  /** One stage of the heartbeat at time `now`. */
  lemma StageStep(pals: Pals, now: int, e: Entry, stage: Stage, copy: Entry)
    requires !stage.Finished?
    ensures Enabled(BeatState(pals, now, e, stage, copy), Work(2, 0))
    ensures Next(BeatState(pals, now, e, stage, copy), Work(2, 0)) ==
            BeatState(pals, now, e, Advance(copy.row, stage, RENEW, pals, now).1, StagedEntry(copy, stage, RENEW, pals, now))
  {
    var s := BeatState(pals, now, e, stage, copy);
    var copy' := StagedEntry(copy, stage, RENEW, pals, now);
    assert s.threads[2] == Beat(true, map[0 := copy], stage);
    assert map[0 := copy][0 := copy'] == map[0 := copy'];
    assert Worked(s, 2, 0) == Beat(true, map[0 := copy'], Advance(copy.row, stage, RENEW, pals, now).1);
    assert map[2 := Beat(true, map[0 := copy], stage)][2 := Worked(s, 2, 0)] == map[2 := Worked(s, 2, 0)];
  }

  lemma StageRun(s: State, run: seq<Label>, pals: Pals, now: int, e: Entry, stage: Stage, copy: Entry, next: Stage, after: Entry)
    returns (longer: seq<Label>)
    requires RunsTo(s, run, BeatState(pals, now, e, stage, copy)) && !stage.Finished?
    requires Advance(copy.row, stage, RENEW, pals, now).1 == next && StagedEntry(copy, stage, RENEW, pals, now) == after
    ensures RunsTo(s, longer, BeatState(pals, now, e, next, after)) && longer == run + [Work(2, 0)]
  {
    StageStep(pals, now, e, stage, copy);
    longer := Then(s, run, BeatState(pals, now, e, stage, copy), Work(2, 0), BeatState(pals, now, e, next, after));
  }

  predicate Renews(e: Entry, pals: Pals, now: int) {
    && e.row.raw == Some(GRANTED) && !e.row.terminated && now < e.row.expire && ComputeRenewal(e.row, pals, now).Ok?
  }

  function RenewedEntry(e: Entry, pals: Pals, now: int): (r: Entry)
    requires Renews(e, pals, now)
  {
    e.(row := Renewed(e.row, pals, ComputeRenewal(e.row, pals, now).value))
  }

  /** From the locked row to its renewed copy, whose transmit time is still the old one. */
  lemma RenewRun(pals: Pals, now: int, e: Entry) returns (run: seq<Label>)
    requires e.row.cbsd == "c" && Renews(e, pals, now)
    ensures RunsTo(GrantedState(pals, now, e), run, BeatState(pals, now, e, Transmit, RenewedEntry(e, pals, now)))
  {
    var s := GrantedState(pals, now, e);
    run := LockRun(pals, now, e);
    run := StageRun(s, run, pals, now, e, Gate, e, Federal, e);
    run := StageRun(s, run, pals, now, e, Federal, e, Expiry, e);
    run := StageRun(s, run, pals, now, e, Expiry, e, Incumbent, e);
    run := StageRun(s, run, pals, now, e, Incumbent, e, Renewal, e);
    run := StageRun(s, run, pals, now, e, Renewal, e, Transmit, RenewedEntry(e, pals, now));
  }

  // ----------------------------------------------------------------- revival

  function Granted0(): (e: Entry) { Made(PLAN) }

  /** The renewed copy, before its transmit time is recomputed. */
  function Renewed0(): (e: Entry) { Granted0().(row := Granted0().row.(expire := 1700)) }

  function Beaten(): (e: Entry) {
    Renewed0().(row := Renewed0().row.(tx := 960, raw := Some(AUTHORIZED), authorized := true), beat := 900)
  }

  lemma OvertakenRun() returns (run: seq<Label>)
    ensures RunsTo(Init(0, map[]), run, BeatState(map[], 900, Granted0(), Transmit, Renewed0()))
  {
    var init, e := Init(0, map[]), Granted0();
    run := RegisterRun(map[]);
    var grant := GrantRun(PLAN, map[]);
    run := Join(init, run, Registered(map[]), grant, GrantedState(map[], 0, e));
    run := Then(init, run, GrantedState(map[], 0, e), Tick(800), GrantedState(map[], 800, e));
    var renew := RenewRun(map[], 800, e);
    assert RenewedEntry(e, map[], 800) == Renewed0();
    run := Join(init, run, GrantedState(map[], 800, e), renew, BeatState(map[], 800, e, Transmit, Renewed0()));
    run := Then(init, run, BeatState(map[], 800, e, Transmit, Renewed0()), Tick(100), BeatState(map[], 900, e, Transmit, Renewed0()));
  }

  lemma AnswerRun() returns (run: seq<Label>)
    ensures RunsTo(BeatState(map[], 900, Granted0(), Transmit, Renewed0()), run, GrantedState(map[], 900, Beaten()))
    ensures forall l :: l in run ==> !l.Interrupt?
  {
    var e := Granted0();
    var s := BeatState(map[], 900, e, Transmit, Renewed0());
    var timed := Renewed0().(row := Renewed0().row.(tx := 960), beat := 900);
    run := StageRun(s, [], map[], 900, e, Transmit, Renewed0(), Authorizing, timed);
    run := StageRun(s, run, map[], 900, e, Authorizing, timed, Finished(SUCCESS), Beaten());
    var c := BeatState(map[], 900, e, Finished(SUCCESS), Beaten());
    assert map[0 := e] + map[0 := Beaten()] == map[0 := Beaten()];
    assert c.threads - {2} == map[];
    run := Then(s, run, c, Commit(2), GrantedState(map[], 900, Beaten()));
  }

  /** A reachable state whose committed grant reads EXPIRED and is not yet beyond recall. */
  lemma RevivalHappens() returns (run: seq<Label>, s: State)
    ensures Reached(s, 0, map[], run) && 0 in s.grants
    ensures Resolve(s.grants[0].row, s.now) == EXPIRED && LiveCopy(s, 0)
    ensures exists more: seq<Label> :: AliveAfter(s, more, 0) && forall l :: l in more ==> !l.Interrupt?
  {
    run := OvertakenRun();
    s := BeatState(map[], 900, Granted0(), Transmit, Renewed0());
    assert s.threads[2].local[0] == Renewed0();
    var more := AnswerRun();
    assert AliveAfter(s, more, 0);
  }

  // ------------------------------------------------- a shortened licence, interrupted

  const LONG: PalRow := PalRow(true, Some(10_000), Some(10_000))
  const SHORT: PalRow := PalRow(true, Some(50), Some(50))
  const PAL_PLAN: Plan := Plan("g", "c", RANGE, PAL, Some("p"), Some(10_000), 20.0, false, [])

  /** A PAL grant with 60 s to transmit; after 30 s its licence is cut to 50 s and the heartbeat that
      renews it fails before it has a new transmit time.  The row says 60 s in a grant of 50 s. */
  lemma ShorteningInterrupted() returns (run: seq<Label>, s: State)
    ensures Reached(s, 0, map["p" := LONG], run) && AllWithin(s)
    ensures Enabled(s, Interrupt(2)) && Spoils(s, Interrupt(2)) && !AllWithin(Next(s, Interrupt(2)))
  {
    var long, short := map["p" := LONG], map["p" := SHORT];
    var init, e := Init(0, long), Made(PAL_PLAN);
    run := RegisterRun(long);
    var grant := GrantRun(PAL_PLAN, long);
    run := Join(init, run, Registered(long), grant, GrantedState(long, 0, e));
    run := Then(init, run, GrantedState(long, 0, e), Tick(30), GrantedState(long, 30, e));
    assert long["p" := SHORT] == short;
    run := Then(init, run, GrantedState(long, 30, e), SetPal("p", SHORT), GrantedState(short, 30, e));
    var renew := RenewRun(short, 30, e);
    s := BeatState(short, 30, e, Transmit, RenewedEntry(e, short, 30));
    run := Join(init, run, GrantedState(short, 30, e), renew, s);
    assert s.threads[2].local[0] == RenewedEntry(e, short, 30);
    TransmitWithinExpiryExactly(s, 0, long, run, Interrupt(2));
  }
}
