/** Runs that show what the stop fence and the commit do not cover, and why.
    The requests are the simplest ones: to move the robot or to stop it, decided at time 0. */
module FenceExamples {
  import opened Wrappers
  import opened ContextTree
  import opened Predicates
  import opened Versioning
  import opened Layouts
  import opened Lifecycle
  import opened Runtime
  import opened StopFence
  import opened EndToEnd
  import opened StopRuns
  import W = Window
  import S = Store

  const EXACT := Clock(0.0, 1000.0)

  /** An unconditional request to move the robot. */
  const BODY := Intent("a", "MOVE", "robot", [], [], 0.0, 1000.0, None, false, None, [], [])

  /** The request as it is validated. */
  function Wanted(trusted: bool): Intent { AfterFence(EXACT, Parsed(BODY), trusted).(policyAdded := Some([])) }

  const SUBMIT := Submit(0, BODY, 0.0, 0.0)
  const RAISE := RaiseStop("robot", 1, true, {})
  const INIT := Initialize(0, true, {})
  const READ := Read(0, true, map[])
  const VALIDATE := Validate(0, 0.0, true, 0.0, true)
  const BEGIN := BeginCommit(1, "a", S.ReadSetScope, 0.0, 0.0)
  const STORE := StoreCommit(1, true, 0.0)

  /** A trusted fence read, initialization, registration and validation. */
  const FENCED: seq<Move> := [SUBMIT, Fence(0, true), INIT, READ, VALIDATE]

  /** The store is unreachable when the intent is fenced and back when it is read; a stop is written in
      between. */
  const UNTRUSTED: seq<Move> := [SUBMIT, Fence(0, false), RAISE, READ, VALIDATE, BEGIN, STORE]

  /** Another process writes a stop between this one's fence read and its initialization. */
  const LOST_STOP: seq<Move> := [SUBMIT, Fence(0, true), RAISE, INIT, READ, VALIDATE, BEGIN, STORE]

  /** What matters of the state until the intent is validated. */
  predicate Stage(s: Sys, layout: Layout, handlers: map<nat, Handler>) {
    && s.layout == layout && s.rt.records == map["a" := Fresh(Parsed(BODY))] && s.rt.held == {} && s.rt.installed == 0
    && s.handlers == handlers && s.policies == [NO_POLICY] && s.stopClock <= 1 && StopsOk(s.world.store.ctx, 1)
    && s.world.store.log == [] && s.world.store.committed == {} && s.commits == map[]
  }

  /** The stop epoch on record for the robot. */
  function Epoch(s: Sys): int { EpochOf(s.world.store.ctx, Bucket("robot")) }

  /** The states of a run in which XAIR alone writes the epochs, and, if `locked`, from one process. */
  ghost predicate Trace(cfg: Config, layout: Layout, moves: seq<Move>, states: seq<Sys>, locked: bool) {
    && |states| == |moves| + 1 && states[0] == Initial(layout)
    && forall k {:trigger Enabled(states[k], moves[k])} :: 0 <= k < |moves| ==>
         && Enabled(states[k], moves[k]) && states[k + 1] == Next(cfg, states[k], moves[k])
         && SoleWriter(states[k], moves[k]) && (locked ==> StopLocked(states[k], moves[k]))
  }

  /** Such a run leads to `s`. */
  ghost predicate At(cfg: Config, layout: Layout, moves: seq<Move>, s: Sys, locked: bool) {
    exists states :: Trace(cfg, layout, moves, states, locked) && states[|moves|] == s
  }

  lemma Step(cfg: Config, layout: Layout, moves: seq<Move>, s: Sys, locked: bool, m: Move, t: Sys)
    requires At(cfg, layout, moves, s, locked) && Enabled(s, m) && t == Next(cfg, s, m)
    requires SoleWriter(s, m) && (locked ==> StopLocked(s, m))
    ensures At(cfg, layout, moves + [m], t, locked)
  {
    var states :| Trace(cfg, layout, moves, states, locked) && states[|moves|] == s;
    var ms, ss := moves + [m], states + [t];
    forall k | 0 <= k < |ms|
      ensures Enabled(ss[k], ms[k]) && ss[k + 1] == Next(cfg, ss[k], ms[k])
      ensures SoleWriter(ss[k], ms[k]) && (locked ==> StopLocked(ss[k], ms[k]))
    {
      if k < |moves| {
        assert Enabled(states[k], moves[k]);
      }
    }
    assert Trace(cfg, layout, ms, ss, locked);
  }

  lemma {:induction false} IsRun(cfg: Config, layout: Layout, moves: seq<Move>, s: Sys, locked: bool)
    requires At(cfg, layout, moves, s, locked)
    ensures Possible(cfg, layout, moves) && Reached(cfg, layout, moves) == s && SoleWriterRun(cfg, layout, moves)
    ensures locked ==> DisciplinedRun(cfg, layout, moves)
    decreases |moves|
  {
    var states :| Trace(cfg, layout, moves, states, locked) && states[|moves|] == s;
    if moves != [] {
      var n := |moves| - 1;
      assert Enabled(states[n], moves[n]);
      assert Trace(cfg, layout, moves[..n], states[..n + 1], locked) by {
        forall k | 0 <= k < n ensures Enabled(states[..n + 1][k], moves[..n][k]) {
          assert Enabled(states[k], moves[k]);
        }
      }
      IsRun(cfg, layout, moves[..n], states[n], locked);
    }
  }

  // ---------------------------------------------------------------- up to the snapshot

  lemma Submits(cfg: Config, layout: Layout, locked: bool) returns (t: Sys)
    ensures At(cfg, layout, [SUBMIT], t, locked) && Stage(t, layout, map[0 := Fencing(Parsed(BODY))]) && t.world == S.INITIAL
  {
    assert Trace(cfg, layout, [], [Initial(layout)], locked);
    t := Next(cfg, Initial(layout), SUBMIT);
    Step(cfg, layout, [], Initial(layout), locked, SUBMIT, t);
    assert [] + [SUBMIT] == [SUBMIT];
  }

  /** Where a fence read leaves the handler. */
  function AfterRead(trusted: bool): Handler {
    if trusted then Initializing(Parsed(BODY)) else Reading(AfterFence(EXACT, Parsed(BODY), false))
  }

  lemma Fences1(cfg: Config, layout: Layout, trusted: bool) returns (t: Sys)
    requires cfg.clock == EXACT
    ensures At(cfg, layout, [SUBMIT, Fence(0, trusted)], t, !trusted)
    ensures Stage(t, layout, map[0 := AfterRead(trusted)])
  {
    var s := Submits(cfg, layout, !trusted);
    assert LookForEpoch(S.INITIAL.store.ctx, Bucket("robot")) == NoEpoch;
    t := Next(cfg, s, Fence(0, trusted));
    Step(cfg, layout, [SUBMIT], s, !trusted, Fence(0, trusted), t);
    assert [SUBMIT] + [Fence(0, trusted)] == [SUBMIT, Fence(0, trusted)];
  }

  /** A stop at 1 microsecond; by the same process only while no initialization is due. */
  lemma Raises(cfg: Config, layout: Layout, moves: seq<Move>, s: Sys, trusted: bool) returns (t: Sys)
    requires At(cfg, layout, moves, s, !trusted) && Stage(s, layout, map[0 := AfterRead(trusted)])
    ensures At(cfg, layout, moves + [RAISE], t, !trusted) && Stage(t, layout, s.handlers) && Epoch(t) == 1
  {
    StopSets(s.world.store.ctx, Bucket("robot"), 1, 1, 1);
    t := Next(cfg, s, RAISE);
    Step(cfg, layout, moves, s, !trusted, RAISE, t);
  }

  lemma Initializes1(cfg: Config, layout: Layout, moves: seq<Move>, s: Sys) returns (t: Sys)
    requires cfg.clock == EXACT && At(cfg, layout, moves, s, false) && Stage(s, layout, map[0 := AfterRead(true)])
    ensures At(cfg, layout, moves + [INIT], t, false)
    ensures Stage(t, layout, map[0 := Reading(AfterFence(EXACT, Parsed(BODY), true))]) && Epoch(t) == 0
  {
    StopSets(s.world.store.ctx, Bucket("robot"), 0, 1, 1);
    t := Next(cfg, s, INIT);
    Step(cfg, layout, moves, s, false, INIT, t);
  }

  lemma Registers(cfg: Config, layout: Layout, moves: seq<Move>, s: Sys, trusted: bool) returns (t: Sys)
    requires At(cfg, layout, moves, s, !trusted) && Stage(s, layout, map[0 := Reading(AfterFence(EXACT, Parsed(BODY), trusted))])
    ensures At(cfg, layout, moves + [READ], t, !trusted) && Stage(t, layout, map[0 := Checking(Wanted(trusted), t.world)])
    ensures Epoch(t) == Epoch(s)
  {
    var it := AfterFence(EXACT, Parsed(BODY), trusted);
    assert Mandated(NO_POLICY, it.action) == [] && Omitted([], it.preconditions + it.safety) == [];
    assert it.preconditions + [] == it.preconditions;
    t := Next(cfg, s, READ);
    Step(cfg, layout, moves, s, !trusted, READ, t);
  }

  // ---------------------------------------------------------------- validation and commit

  /** The record after validation on the store `at`. */
  ghost predicate OutcomeOn(rec: Rec, layout: Layout, trusted: bool, at: S.World) {
    && rec.cls == Other && rec.state == (if trusted && layout.Shard? then Revoked else Authorized)
    && (rec.state == Authorized ==> rec.intent == Wanted(trusted) && ValidatedOn(at, rec))
  }

  /** Whether the request passes: unfenced always; fenced if its bucket has epoch 0 and the snapshot is whole. */
  lemma Passes(layout: Layout, st: S.Store, trusted: bool)
    requires trusted ==> StopsOk(st.ctx, 1) && EpochOf(st.ctx, Bucket("robot")) == 0
    ensures AllTrue(Wanted(trusted).All(), DocOf(layout, st, ToRegister(Wanted(trusted))).ctx) <==> !(trusted && layout.Shard?)
  {
    DocPassesIff(layout, st, Wanted(trusted).All());
    if trusted {
      var fence := FenceExpr(Bucket("robot"), 0);
      assert DecisionMicros(EXACT, Parsed(BODY)) == 0;
      assert Wanted(true).All() == [fence];
      FenceMeans(st.ctx, 1, Bucket("robot"), 0);
      assert IsFence(fence);
    } else {
      assert Wanted(false).All() == [];
    }
  }

  lemma RequestOutcome(cfg: Config, layout: Layout, rt: Tables, trusted: bool, at: S.World)
    requires cfg.clock == EXACT && rt.held == {} && rt.installed <= at.store.version
    requires trusted ==> StopsOk(at.store.ctx, 1) && EpochOf(at.store.ctx, Bucket("robot")) == 0
    ensures var v := Validation(NO_POLICY, Some(DocOf(layout, at.store, ToRegister(Wanted(trusted)))), 0.0, true);
            OutcomeOn(Validated(cfg, rt, Fresh(Parsed(BODY)), Wanted(trusted), v), layout, trusted, at)
  {
    var v := Validation(NO_POLICY, Some(DocOf(layout, at.store, ToRegister(Wanted(trusted)))), 0.0, true);
    Passes(layout, at.store, trusted);
    assert ApplyPolicy(NO_POLICY, Wanted(trusted)) == Wanted(trusted);
    assert VerdictOn(cfg, rt, Wanted(trusted), v) == if trusted && layout.Shard? then Revoke(false) else Execute;
    AuthorizedIsValidated(cfg, layout, rt, Fresh(Parsed(BODY)), Wanted(trusted), v, at);
  }

  lemma ValidateIs(cfg: Config, layout: Layout, s: Sys, trusted: bool) returns (t: Sys)
    requires cfg.clock == EXACT && Stage(s, layout, map[0 := Checking(Wanted(trusted), s.world)]) && (trusted ==> Epoch(s) == 0)
    ensures Enabled(s, VALIDATE) && t == Next(cfg, s, VALIDATE)
    ensures t == s.(rt := t.rt, handlers := map[])
    ensures t.rt.records.Keys == {"a"} && OutcomeOn(t.rt.records["a"], layout, trusted, s.world)
  {
    t := Next(cfg, s, VALIDATE);
    assert t.rt == Judged(cfg, layout, s.rt, Wanted(trusted), s.world, NO_POLICY, 0.0, true, 0.0, true);
    assert Without(s.handlers, 0) == map[];
    JudgedIs(cfg, layout, s.rt, trusted, s.world, t.rt);
  }

  lemma OneRecord(cfg: Config, rt: Tables, it: Intent, v: Validation, rec: Rec)
    requires rt.records == map[it.id := rec] && Validatable(rec.state)
    ensures Process(cfg, rt, it, v).records == map[it.id := Validated(cfg, rt, rec, it, v)]
  {
    ProcessRecords(cfg, rt, it, v);
  }

  lemma PassStage(cfg: Config, layout: Layout, rt: Tables, trusted: bool, at: S.World, v: Validation)
    requires cfg.clock == EXACT && rt.records == map["a" := Fresh(Parsed(BODY))] && rt.held == {} && rt.installed <= at.store.version
    requires trusted ==> StopsOk(at.store.ctx, 1) && EpochOf(at.store.ctx, Bucket("robot")) == 0
    requires v == Validation(NO_POLICY, Some(DocOf(layout, at.store, ToRegister(Wanted(trusted)))), 0.0, true)
    ensures var out := Process(cfg, rt, Wanted(trusted), v).records;
            out.Keys == {"a"} && OutcomeOn(out["a"], layout, trusted, at)
  {
    OneRecord(cfg, rt, Wanted(trusted), v, Fresh(Parsed(BODY)));
    RequestOutcome(cfg, layout, rt, trusted, at);
  }

  lemma JudgedIs(cfg: Config, layout: Layout, rt: Tables, trusted: bool, at: S.World, out: Tables)
    requires cfg.clock == EXACT && rt.records == map["a" := Fresh(Parsed(BODY))] && rt.held == {} && rt.installed == 0
    requires trusted ==> StopsOk(at.store.ctx, 1) && EpochOf(at.store.ctx, Bucket("robot")) == 0
    requires out == Judged(cfg, layout, rt, Wanted(trusted), at, NO_POLICY, 0.0, true, 0.0, true)
    ensures out.records.Keys == {"a"} && OutcomeOn(out.records["a"], layout, trusted, at)
  {
    var doc := DocOf(layout, at.store, ToRegister(Wanted(trusted)));
    PassStage(cfg, layout, if layout.Shard? then rt else Install(rt, doc.ctx, doc.version, true), trusted, at,
              Validation(NO_POLICY, Some(doc), 0.0, true));
  }

  lemma Validates(cfg: Config, layout: Layout, moves: seq<Move>, s: Sys, trusted: bool) returns (t: Sys)
    requires cfg.clock == EXACT && At(cfg, layout, moves, s, !trusted)
    requires Stage(s, layout, map[0 := Checking(Wanted(trusted), s.world)]) && (trusted ==> Epoch(s) == 0)
    ensures At(cfg, layout, moves + [VALIDATE], t, !trusted)
    ensures t == s.(rt := t.rt, handlers := map[])
    ensures t.rt.records.Keys == {"a"} && OutcomeOn(t.rt.records["a"], layout, trusted, s.world)
  {
    t := ValidateIs(cfg, layout, s, trusted);
    Step(cfg, layout, moves, s, !trusted, VALIDATE, t);
  }

  /** Registration and validation. */
  lemma Judges(cfg: Config, layout: Layout, moves: seq<Move>, s: Sys, trusted: bool) returns (t: Sys)
    requires cfg.clock == EXACT && At(cfg, layout, moves, s, !trusted) && (trusted ==> Epoch(s) == 0)
    requires Stage(s, layout, map[0 := Reading(AfterFence(EXACT, Parsed(BODY), trusted))])
    ensures At(cfg, layout, moves + [READ, VALIDATE], t, !trusted)
    ensures t.rt.records.Keys == {"a"} && OutcomeOn(t.rt.records["a"], layout, trusted, t.world)
    ensures t.handlers == map[] && Epoch(t) == Epoch(s) && t.world.store.log == [] && t.world.store.committed == {}
  {
    var m := Registers(cfg, layout, moves, s, trusted);
    t := Validates(cfg, layout, moves + [READ], m, trusted);
    assert moves + [READ] + [VALIDATE] == moves + [READ, VALIDATE];
  }

  /** The same moves authorize the request in the document and hash layouts and revoke it in the shard layout. */
  lemma FencedPassesUnlessSharded(cfg: Config, layout: Layout)
    requires cfg.clock == EXACT
    ensures Possible(cfg, layout, FENCED)
    ensures var records := Reached(cfg, layout, FENCED).rt.records;
            "a" in records && records["a"].state == if layout.Shard? then Revoked else Authorized
  {
    var s := Fences1(cfg, layout, true);
    s := Initializes1(cfg, layout, [SUBMIT, Fence(0, true)], s);
    s := Judges(cfg, layout, [SUBMIT, Fence(0, true)] + [INIT], s, true);
    assert [SUBMIT, Fence(0, true)] + [INIT] + [READ, VALIDATE] == FENCED;
    IsRun(cfg, layout, FENCED, s, false);
  }

  // ---------------------------------------------------------------- commits

  /** An authorized record that asks for nothing that changed, at an empty log. */
  predicate Committable(s: Sys, rec: Rec) {
    && s.handlers == map[] && "a" in s.rt.records && s.rt.records["a"] == rec && rec.state == Authorized && rec.intent.id == "a"
    && rec.intent.decision == 0.0 && rec.intent.window == 1000.0 && rec.intent.deadline.None?
    && s.world.store.log == [] && s.world.store.committed == {}
  }

  /** From an authorization to its commit in read-set scope: nothing happens in between. */
  lemma Commits1(cfg: Config, layout: Layout, moves: seq<Move>, s: Sys, locked: bool, rec: Rec) returns (t: Sys)
    requires cfg.clock == EXACT && At(cfg, layout, moves, s, locked) && Committable(s, rec)
    requires rec.readVersion >= 0 && ReadSetVersion(s.world.store.pv, rec.readSet) == rec.readVersion
    ensures At(cfg, layout, moves + [BEGIN, STORE], t, locked) && t.world.hist == s.world.hist
    ensures 0 in t.commits && t.commits[0].rec == rec && t.commits[0].scope == S.ReadSetScope
    ensures t.commits[0].version == t.world.store.version && Epoch(t) == Epoch(s)
    ensures |t.world.store.log| == 1 && t.world.store.log[0].Authorization?
  {
    var m := Next(cfg, s, BEGIN);
    Step(cfg, layout, moves, s, locked, BEGIN, m);
    S.CommitIff(s.world, Request(cfg, rec, S.ReadSetScope, 0.0, 0.0));
    t := Next(cfg, m, STORE);
    Step(cfg, layout, moves + [BEGIN], m, locked, STORE, t);
    assert moves + [BEGIN] + [STORE] == moves + [BEGIN, STORE];
  }

  /** A disciplined run in which an intent decided at time 0, whose fence read was not trusted, is validated
      and committed in read-set scope while a stop of its target at 1 microsecond is on record. */
  lemma UnfencedCommitsAfterStop(cfg: Config)
    requires cfg.clock == EXACT
    ensures Possible(cfg, Document, UNTRUSTED) && DisciplinedRun(cfg, Document, UNTRUSTED) && UNTRUSTED[2] == RAISE
    ensures var s := Reached(cfg, Document, UNTRUSTED);
            && 0 in s.commits && s.commits[0].rec.cls == Other && s.commits[0].scope == S.ReadSetScope
            && s.commits[0].version == s.world.store.version && Epoch(s) == RAISE.at
            && s.commits[0].rec.intent.target == "robot" && s.commits[0].rec.intent.fenceReads == [false]
            && RAISE.at as real > (s.commits[0].rec.intent.decision - cfg.clock.epsilon) * 1000.0
  {
    var s := Fences1(cfg, Document, false);
    assert UNTRUSTED[..2] == [SUBMIT, Fence(0, false)];
    s := Raises(cfg, Document, UNTRUSTED[..2], s, false);
    s := Judges(cfg, Document, UNTRUSTED[..2] + [RAISE], s, false);
    s := Commits1(cfg, Document, UNTRUSTED[..2] + [RAISE] + [READ, VALIDATE], s, true, s.rt.records["a"]);
    assert UNTRUSTED[..2] + [RAISE] + [READ, VALIDATE] + [BEGIN, STORE] == UNTRUSTED;
    IsRun(cfg, Document, UNTRUSTED, s, true);
  }

  /** A stop written between a fence read and its initialization is wiped out by the latter. */
  lemma Wipes(cfg: Config) returns (t: Sys)
    requires cfg.clock == EXACT
    ensures At(cfg, Document, LOST_STOP[..6], t, false) && Epoch(t) == 0
    ensures t.rt.records.Keys == {"a"} && OutcomeOn(t.rt.records["a"], Document, true, t.world)
    ensures t.handlers == map[] && t.world.store.log == [] && t.world.store.committed == {}
  {
    var s := Fences1(cfg, Document, true);
    assert LOST_STOP[..2] == [SUBMIT, Fence(0, true)];
    var m := Raises(cfg, Document, LOST_STOP[..2], s, true);
    m := Initializes1(cfg, Document, LOST_STOP[..2] + [RAISE], m);
    t := Judges(cfg, Document, LOST_STOP[..2] + [RAISE] + [INIT], m, true);
    assert LOST_STOP[..2] + [RAISE] + [INIT] + [READ, VALIDATE] == LOST_STOP[..6];
  }

  /** A run in which XAIR alone writes the epochs, yet from two processes, so that no lock orders them: the
      initialization wipes out the stop, and an intent with a trusted fence read, decided before the stop,
      commits after it. */
  lemma LostStopCommits(cfg: Config)
    requires cfg.clock == EXACT
    ensures Possible(cfg, Document, LOST_STOP) && SoleWriterRun(cfg, Document, LOST_STOP) && LOST_STOP[2] == RAISE
    ensures var s := Reached(cfg, Document, LOST_STOP);
            && 0 in s.commits && s.commits[0].rec.cls == Other && s.commits[0].scope == S.ReadSetScope
            && s.commits[0].version == s.world.store.version && Epoch(s) == 0
            && s.commits[0].rec.intent.target == "robot" && s.commits[0].rec.intent.fenceReads == [true]
            && RAISE.at as real > (s.commits[0].rec.intent.decision - cfg.clock.epsilon) * 1000.0
  {
    var s := Wipes(cfg);
    s := Commits1(cfg, Document, LOST_STOP[..6], s, false, s.rt.records["a"]);
    assert LOST_STOP[..6] + [BEGIN, STORE] == LOST_STOP;
    IsRun(cfg, Document, LOST_STOP, s, false);
  }

  // ---------------------------------------------------------------- why stops are excepted

  /** A predicate on a value that does not exist. */
  const NEVER := Expr("x == 1", ["x"], Some(Condition(Eq, LNumber(1.0))))

  /** A request to stop the robot, on a condition that does not hold. */
  const HALT := Intent("a", "STOP", "robot", [], [NEVER], 0.0, 1000.0, None, false, None, [NEVER], [])

  const STOP_POLICY := Policy(map[], map["STOP" := Stop], map[])

  const STOP_RUN: seq<Move> := [SetPolicy(STOP_POLICY), Submit(0, HALT, 0.0, 0.0), BEGIN, STORE]

  const HALTED := Fresh(Parsed(HALT)).(intent := Parsed(HALT).(policyAdded := Some([])), state := Authorized, cls := Stop)

  lemma PolicySet(cfg: Config) returns (s: Sys)
    ensures At(cfg, Document, STOP_RUN[..1], s, true) && s == Initial(Document).(policies := [NO_POLICY, STOP_POLICY])
  {
    assert Trace(cfg, Document, [], [Initial(Document)], true);
    s := Next(cfg, Initial(Document), STOP_RUN[0]);
    Step(cfg, Document, [], Initial(Document), true, STOP_RUN[0], s);
    assert STOP_RUN[..1] == [] + [STOP_RUN[0]];
  }

  lemma HaltIs(cfg: Config, s: Sys) returns (t: Sys)
    requires s == Initial(Document).(policies := [NO_POLICY, STOP_POLICY])
    ensures t == Submitted(cfg, s, 0, Parsed(HALT), 0.0, 0.0)
    ensures t.rt.records == map["a" := HALTED] && t.handlers == map[] && t.world == S.INITIAL
  {
    var rt := Admit(cfg, NO_TABLES, Parsed(HALT), 0.0, 0.0);
    assert rt.records == map["a" := Fresh(Parsed(HALT))] && rt.installed == 0;
    t := Submitted(cfg, s, 0, Parsed(HALT), 0.0, 0.0);
  }

  lemma HaltSubmitted(cfg: Config) returns (t: Sys)
    ensures At(cfg, Document, STOP_RUN[..2], t, true)
    ensures t.rt.records == map["a" := HALTED] && t.handlers == map[] && t.world == S.INITIAL
  {
    var s := PolicySet(cfg);
    t := HaltIs(cfg, s);
    Step(cfg, Document, STOP_RUN[..1], s, true, STOP_RUN[1], t);
    assert STOP_RUN[..2] == STOP_RUN[..1] + [STOP_RUN[1]];
  }

  /** A run that logs the authorization of a stop although its own precondition held on no version. */
  lemma StopCommitsOnFalse(cfg: Config)
    requires cfg.clock == EXACT
    ensures Possible(cfg, Document, STOP_RUN)
    ensures var s := Reached(cfg, Document, STOP_RUN);
            && |s.world.store.log| == 1 && s.world.store.log[0].Authorization? && 0 in s.commits
            && s.commits[0].rec.cls == Stop && NEVER in s.commits[0].rec.intent.All()
            && forall v :: 0 <= v < |s.world.hist| ==> !Truth(NEVER, s.world.hist[v])
  {
    var s := HaltSubmitted(cfg);
    s := Commits1(cfg, Document, STOP_RUN[..2], s, true, HALTED);
    assert STOP_RUN[..2] + [BEGIN, STORE] == STOP_RUN;
    IsRun(cfg, Document, STOP_RUN, s, true);
    assert NEVER in HALTED.intent.All();
    assert !Truth(NEVER, EMPTY);
  }
}
