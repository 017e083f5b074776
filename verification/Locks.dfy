/** Target locks: what every step keeps, and exactly when a step breaks it.
    Models the use xair/core/runtime.py makes of xair/core/coordinator.py. */
module Locks {
  import opened Wrappers
  import opened ContextTree
  import opened Predicates
  import opened Lifecycle
  import opened Audit
  import opened Runtime
  import opened Window

  type Records = map<Id, Rec>

  /** The intent is authorized and should hold the lock on `t`; stops take no lock. */
  predicate Holder(records: Records, id: Id, t: Target) {
    id in records && records[id].state == Authorized && records[id].cls != Stop && records[id].intent.target == t
  }

  predicate IsHolder(records: Records, id: Id) {
    id in records && Holder(records, id, records[id].intent.target)
  }

  /** Every held target has an authorized intent. */
  ghost predicate NoLeak(records: Records, held: set<Target>) {
    forall t :: t in held ==> exists id :: Holder(records, id, t)
  }

  /** Every authorized intent holds its target. */
  ghost predicate Covered(records: Records, held: set<Target>) {
    forall id, t :: Holder(records, id, t) ==> t in held
  }

  /** No two authorized intents share a target. */
  ghost predicate Exclusive(records: Records) {
    forall i, j, t :: Holder(records, i, t) && Holder(records, j, t) ==> i == j
  }

  ghost predicate Locked(rt: Tables) {
    NoLeak(rt.records, rt.held) && Covered(rt.records, rt.held) && Exclusive(rt.records)
  }

  // ---------------------------------------------------------------- one record changes

  /** One record is replaced, by a record that does not hold a lock. */
  predicate Replaced(records: Records, after: Records, id: Id) {
    && id in after && (after[id].state != Authorized || after[id].cls == Stop)
    && after == records[id := after[id]]
  }

  lemma HolderElsewhere(records: Records, after: Records, id: Id)
    requires id in after && after == records[id := after[id]]
    ensures forall j, t :: j != id ==> (Holder(after, j, t) <==> Holder(records, j, t))
  {
  }

  /** Replacing a record that does not hold a lock by another one that does not changes nothing. */
  lemma Bystander(records: Records, after: Records, held: set<Target>, id: Id)
    requires !IsHolder(records, id) && Replaced(records, after, id)
    ensures NoLeak(records, held) ==> NoLeak(after, held)
    ensures Covered(records, held) ==> Covered(after, held)
    ensures Exclusive(records) ==> Exclusive(after)
  {
    HolderElsewhere(records, after, id);
    assert forall j, t :: Holder(after, j, t) <==> Holder(records, j, t);
    if NoLeak(records, held) {
      forall t | t in held ensures exists j :: Holder(after, j, t) {
        var j :| Holder(records, j, t);
        assert Holder(after, j, t);
      }
    }
  }

  /** An authorization on a free target takes its lock. */
  lemma Acquire(records: Records, after: Records, held: set<Target>, id: Id)
    requires !IsHolder(records, id) && id in after && after == records[id := after[id]]
    requires IsHolder(after, id) && after[id].intent.target !in held
    ensures NoLeak(records, held) ==> NoLeak(after, held + {after[id].intent.target})
    ensures Covered(records, held) ==> Covered(after, held + {after[id].intent.target})
    ensures Exclusive(records) && Covered(records, held) ==> Exclusive(after)
  {
    HolderElsewhere(records, after, id);
    if NoLeak(records, held) {
      forall t | t in held ensures exists j :: Holder(after, j, t) {
        var j :| Holder(records, j, t);
        assert j != id && Holder(after, j, t);
      }
    }
  }

  /** A record leaves its place and drops the lock of its target: nothing leaks. */
  lemma DropNeverLeaks(records: Records, after: Records, held: set<Target>, id: Id)
    requires NoLeak(records, held) && id in records && Replaced(records, after, id)
    ensures NoLeak(after, held - {records[id].intent.target})
  {
    HolderElsewhere(records, after, id);
    forall t | t in held - {records[id].intent.target} ensures exists j :: Holder(after, j, t) {
      var j :| Holder(records, j, t);
      assert j != id && Holder(after, j, t);
    }
  }

  /** The unconditional release keeps mutual exclusion if and only if the record held the lock itself, or
      nobody did. */
  lemma DropIff(records: Records, after: Records, held: set<Target>, id: Id)
    requires NoLeak(records, held) && Covered(records, held) && Exclusive(records)
    requires id in records && Replaced(records, after, id)
    ensures Exclusive(after)
    ensures var t := records[id].intent.target;
            Covered(after, held - {t}) <==> IsHolder(records, id) || t !in held
  {
    var t := records[id].intent.target;
    HolderElsewhere(records, after, id);
    assert forall j, u :: Holder(after, j, u) ==> j != id && Holder(records, j, u);
    if !IsHolder(records, id) && t in held {
      var j :| Holder(records, j, t);
      assert Holder(after, j, t);
    }
  }

  /** Overwriting a record without dropping its lock leaks the lock if and only if the record was the only
      holder of a held target. */
  lemma OverwriteIff(records: Records, after: Records, held: set<Target>, id: Id)
    requires NoLeak(records, held) && Replaced(records, after, id)
    ensures NoLeak(after, held)
            <==> !(IsHolder(records, id) && records[id].intent.target in held
                   && forall j :: Holder(records, j, records[id].intent.target) ==> j == id)
  {
    HolderElsewhere(records, after, id);
    assert forall j, u :: Holder(after, j, u) ==> j != id && Holder(records, j, u);
    forall u | u in held && exists j :: j != id && Holder(records, j, u) ensures exists j :: Holder(after, j, u) {
      var j :| j != id && Holder(records, j, u);
      assert Holder(after, j, u);
    }
  }

  lemma {:induction false} ExpireKeeps(rt: Tables, horizon: real)
    ensures var out := ExpireSeen(rt, horizon);
            && out.held == rt.held
            && (NoLeak(rt.records, rt.held) ==> NoLeak(out.records, out.held))
            && (Covered(rt.records, rt.held) ==> Covered(out.records, out.held))
            && (Exclusive(rt.records) ==> Exclusive(out.records))
            && forall j :: IsHolder(out.records, j) <==> IsHolder(rt.records, j)
    decreases |rt.seen|
  {
    if rt.seen != [] && rt.seen[0].at < horizon {
      assert forall j, t :: Holder(Forget(rt.records, (rt.seen[0].id)), j, t) <==> Holder(rt.records, j, t);
      if NoLeak(rt.records, rt.held) {
        forall t | t in rt.held ensures exists j :: Holder(Forget(rt.records, (rt.seen[0].id)), j, t) {
          var j :| Holder(rt.records, j, t);
          assert Holder(Forget(rt.records, (rt.seen[0].id)), j, t);
        }
      }
      ExpireKeeps(PopOldest(rt), horizon);
    }
  }

  // ---------------------------------------------------------------- every step

  lemma ProcessKeeps(cfg: Config, rt: Tables, intent: Intent, v: Validation)
    ensures NoLeak(rt.records, rt.held) ==>
              var out := Process(cfg, rt, intent, v); NoLeak(out.records, out.held)
    ensures Locked(rt) ==> Locked(Process(cfg, rt, intent, v))
  {
    var out := Process(cfg, rt, intent, v);
    var rec := Begin(rt, intent).records[intent.id];
    ProcessRecords(cfg, rt, intent, v);
    if Validatable(rec.state) {
      ValidatedCases(cfg, rt, rec, intent, v);
    }
    if intent.id in out.records {
      var last := out.records[intent.id];
      if !IsHolder(rt.records, intent.id) {
        if last.state == Authorized && last.cls != Stop {
          if last.intent.target !in rt.held && out.held != rt.held {
            Acquire(rt.records, out.records, rt.held, intent.id);
          }
        } else {
          Bystander(rt.records, out.records, rt.held, intent.id);
        }
      }
    }
  }

  /** The step takes its record out of an open state and drops the lock on its target. */
  predicate Drops(rt: Tables, step: Step) {
    match step
    case CommitStep(id, _, _) => id in rt.records && rt.records[id].state == Authorized
    case ReleaseStep(id, _, _, _) => id in rt.records && rt.records[id].state in OPEN
    case RevokeStep(id) => id in rt.records && Revoked in Allowed(rt.records[id].state)
    case _ => false
  }

  /** One record left the authorized state and the lock on its target was dropped, or nothing happened. */
  predicate Dropped(rt: Tables, out: Tables, id: Id, drops: bool) {
    if drops then
      && id in rt.records && id in out.records && out.records[id].state != Authorized
      && out.records == rt.records[id := out.records[id]]
      && out.held == rt.held - {rt.records[id].intent.target}
    else out.records == rt.records && out.held == rt.held
  }

  lemma ReleaseDrops(rt: Tables, id: Id, released: bool, cv: Option<int>, rv: Option<int>)
    requires Recorded(rt.records)
    ensures Dropped(rt, ReportRelease(rt, id, released, cv, rv).0, id, id in rt.records && rt.records[id].state in OPEN)
  {
    if id in rt.records && rt.records[id].state in OPEN {
      OpenIsUndecided(id, rt.records[id]);
    }
  }

  lemma DropChanges(cfg: Config, rt: Tables, step: Step)
    requires Recorded(rt.records) && (step.CommitStep? || step.ReleaseStep? || step.RevokeStep?)
    ensures Dropped(rt, Do(cfg, rt, step), step.id, Drops(rt, step))
  {
    match step
    case CommitStep(id, committed, seqNo) =>
    case ReleaseStep(id, released, cv, rv) => ReleaseDrops(rt, id, released, cv, rv);
    case RevokeStep(id) =>
  }

  /** The step registers an id anew over a record that holds a lock, or discards such a record. */
  predicate Strands(cfg: Config, rt: Tables, step: Step) {
    match step
    case AdmitStep(intent, now, _) => IsHolder(rt.records, intent.id) && !IsDuplicate(cfg, rt, intent.id, now)
    case DiscardStep(id) => IsHolder(rt.records, id)
    case _ => false
  }

  /** Exactly the steps that break mutual exclusion are excluded: stranding a lock, or dropping a lock
      that someone else holds. */
  predicate Careful(cfg: Config, rt: Tables, step: Step) {
    && !Strands(cfg, rt, step)
    && (Drops(rt, step) ==> IsHolder(rt.records, step.id) || rt.records[step.id].intent.target !in rt.held)
  }

  /** Replacing the unique holder of a held target always leaks its lock. */
  lemma StrandLeaks(records: Records, after: Records, held: set<Target>, id: Id)
    requires NoLeak(records, held) && Covered(records, held) && Exclusive(records) && Replaced(records, after, id)
    ensures NoLeak(after, held) <==> !IsHolder(records, id)
  {
    OverwriteIff(records, after, held, id);
  }

  lemma AdmitKeepsIff(cfg: Config, rt: Tables, intent: Intent, now: real, stamp: real)
    requires Locked(rt)
    ensures Locked(Admit(cfg, rt, intent, now, stamp)) <==> Careful(cfg, rt, AdmitStep(intent, now, stamp))
  {
    var e, out := ExpireSeen(rt, now - cfg.retention), Admit(cfg, rt, intent, now, stamp);
    ExpireKeeps(rt, now - cfg.retention);
    assert (var e, out := ExpireSeen(rt, now - cfg.retention), Admit(cfg, rt, intent, now, stamp);
            && out.held == e.held
            && out.records == if IsDuplicate(cfg, rt, intent.id, now) then e.records else e.records[intent.id := Fresh(intent)]);
    if !IsDuplicate(cfg, rt, intent.id, now) {
      StrandLeaks(e.records, out.records, e.held, intent.id);
      if !IsHolder(e.records, intent.id) {
        Bystander(e.records, out.records, e.held, intent.id);
      }
    }
  }

  lemma EffectKeeps(rt: Tables, id: Id, effect: Effect)
    ensures NoLeak(rt.records, rt.held) ==>
              var out := ReportEffect(rt, id, effect).0; NoLeak(out.records, out.held)
    ensures Locked(rt) ==> Locked(ReportEffect(rt, id, effect).0)
  {
    if id in rt.records && rt.records[id].state != EffectState(effect) && EffectState(effect) in Allowed(rt.records[id].state) {
      Bystander(rt.records, ReportEffect(rt, id, effect).0.records, rt.held, id);
    }
  }

  /** Mutual exclusion, exactly: a step taken with the locks in order leaves them in order if and only if
      it neither strands a lock nor drops one that another intent holds. */
  lemma StepKeepsLocksIff(cfg: Config, rt: Tables, step: Step)
    requires Locked(rt) && Recorded(rt.records)
    ensures Locked(Do(cfg, rt, step)) <==> Careful(cfg, rt, step)
  {
    match step
    case AdmitStep(intent, now, stamp) => AdmitKeepsIff(cfg, rt, intent, now, stamp);
    case ExpireStep(now) => ExpireKeeps(rt, now - cfg.retention);
    case InstallStep(_, _, _) =>
    case ProcessStep(intent, v) => ProcessKeeps(cfg, rt, intent, v);
    case EffectStep(id, effect) => EffectKeeps(rt, id, effect);
    case DiscardStep(id) =>
      if id in rt.records && Revoked in Allowed(rt.records[id].state) {
        var after := Discard(rt, id).0.records;
        StrandLeaks(rt.records, after, rt.held, id);
        if !IsHolder(rt.records, id) {
          Bystander(rt.records, after, rt.held, id);
        }
      }
    case _ =>
      DropChanges(cfg, rt, step);
      if Drops(rt, step) {
        var out := Do(cfg, rt, step);
        DropIff(rt.records, out.records, rt.held, step.id);
        DropNeverLeaks(rt.records, out.records, rt.held, step.id);
      }
  }

  /** No lock leaks, in any mode: only stranding a lock can leave it without an owner. */
  lemma StepNeverLeaks(cfg: Config, rt: Tables, step: Step)
    requires NoLeak(rt.records, rt.held) && Recorded(rt.records) && !Strands(cfg, rt, step)
    ensures var out := Do(cfg, rt, step); NoLeak(out.records, out.held)
  {
    match step
    case AdmitStep(intent, now, stamp) =>
      ExpireKeeps(rt, now - cfg.retention);
      assert (var e, out := ExpireSeen(rt, now - cfg.retention), Admit(cfg, rt, intent, now, stamp);
              && out.held == e.held
              && out.records == if IsDuplicate(cfg, rt, intent.id, now) then e.records else e.records[intent.id := Fresh(intent)]);
      var e := ExpireSeen(rt, now - cfg.retention);
      if !IsDuplicate(cfg, rt, intent.id, now) {
        Bystander(e.records, Admit(cfg, rt, intent, now, stamp).records, e.held, intent.id);
      }
    case ExpireStep(now) => ExpireKeeps(rt, now - cfg.retention);
    case InstallStep(_, _, _) =>
    case ProcessStep(intent, v) => ProcessKeeps(cfg, rt, intent, v);
    case EffectStep(id, effect) => EffectKeeps(rt, id, effect);
    case DiscardStep(id) =>
      if id in rt.records && Revoked in Allowed(rt.records[id].state) {
        Bystander(rt.records, Discard(rt, id).0.records, rt.held, id);
      }
    case _ =>
      DropChanges(cfg, rt, step);
      if Drops(rt, step) {
        DropNeverLeaks(rt.records, Do(cfg, rt, step).records, rt.held, step.id);
      }
  }

  // ---------------------------------------------------------------- runs

  /** The ingress discards only intents it has not authorized. */
  ghost predicate Orderly(cfg: Config, start: real, steps: seq<Step>)
    decreases |steps|
  {
    steps == [] ||
    (var before := Run(cfg, steps[..|steps| - 1]);
     var step := steps[|steps| - 1];
     && Orderly(cfg, start, steps[..|steps| - 1])
     && InWindow(cfg, before, start, step)
     && (step.DiscardStep? ==> !IsHolder(before.records, step.id)))
  }

  /** Within a retention window every held target has an authorized intent, in all modes. */
  lemma {:induction false} LocksNeverLeak(cfg: Config, start: real, steps: seq<Step>)
    requires Orderly(cfg, start, steps)
    ensures RunInWindow(cfg, start, steps)
    ensures var rt := Run(cfg, steps); NoLeak(rt.records, rt.held)
    decreases |steps|
  {
    if steps != [] {
      var before, step := steps[..|steps| - 1], steps[|steps| - 1];
      LocksNeverLeak(cfg, start, before);
      RunComplete(cfg, start, before);
      RunSound(cfg, before);
      assert !Strands(cfg, Run(cfg, before), step);
      StepNeverLeaks(cfg, Run(cfg, before), step);
    }
  }

  /** No stop class, no atomic commits, revokes of authorized intents only. */
  predicate Optimistic(rt: Tables, step: Step) {
    match step
    case ProcessStep(intent, v) => ClassOf(v.policy, intent.action) != Stop
    case CommitStep(_, _, _) => false
    case RevokeStep(id) => id in rt.records ==> rt.records[id].state == Authorized
    case _ => true
  }

  /** What such steps leave behind: authorized intents that hold locks, and no committed ones. */
  predicate Plain(records: Records) {
    forall id :: id in records ==> PlainRec(records[id])
  }

  predicate PlainRec(rec: Rec) { rec.state != Committed && (rec.state == Authorized ==> rec.cls != Stop) }

  lemma PlainValidated(cfg: Config, rt: Tables, rec: Rec, intent: Intent, v: Validation)
    requires ClassOf(v.policy, intent.action) != Stop
    ensures PlainRec(Validated(cfg, rt, rec, intent, v))
  {
    ValidatedCases(cfg, rt, rec, intent, v);
  }

  lemma PlainAdmit(cfg: Config, rt: Tables, intent: Intent, now: real, stamp: real)
    requires Plain(rt.records)
    ensures Plain(Admit(cfg, rt, intent, now, stamp).records)
  {
    ExpireIs(rt, now - cfg.retention);
    assert (var e, out := ExpireSeen(rt, now - cfg.retention), Admit(cfg, rt, intent, now, stamp);
            && out.held == e.held
            && out.records == if IsDuplicate(cfg, rt, intent.id, now) then e.records else e.records[intent.id := Fresh(intent)]);
  }

  lemma PlainRelease(rt: Tables, id: Id, released: bool, cv: Option<int>, rv: Option<int>)
    requires Plain(rt.records)
    ensures Plain(ReportRelease(rt, id, released, cv, rv).0.records)
  {
  }

  lemma OptimisticIsPlain(cfg: Config, rt: Tables, step: Step)
    requires Plain(rt.records) && Optimistic(rt, step)
    ensures Plain(Do(cfg, rt, step).records)
  {
    match step
    case AdmitStep(intent, now, stamp) => PlainAdmit(cfg, rt, intent, now, stamp);
    case ExpireStep(now) => ExpireIs(rt, now - cfg.retention);
    case InstallStep(_, _, _) =>
    case ProcessStep(intent, v) =>
      var rec := Begin(rt, intent).records[intent.id];
      ProcessRecords(cfg, rt, intent, v);
      if Validatable(rec.state) {
        PlainValidated(cfg, rt, rec, intent, v);
      }
    case ReleaseStep(id, released, cv, rv) => PlainRelease(rt, id, released, cv, rv);
    case EffectStep(id, effect) =>
      if id in rt.records { }
    case RevokeStep(id) =>
      if id in rt.records { }
    case DiscardStep(id) =>
      if id in rt.records { }
  }

  ghost predicate OptimisticRun(cfg: Config, steps: seq<Step>)
    decreases |steps|
  {
    steps == []
    || (OptimisticRun(cfg, steps[..|steps| - 1])
        && Optimistic(Run(cfg, steps[..|steps| - 1]), steps[|steps| - 1]))
  }

  /** In such runs the held targets are exactly the targets of the authorized intents, and no two authorized
      intents share one. */
  lemma {:induction false} OptimisticRunsExclude(cfg: Config, start: real, steps: seq<Step>)
    requires Orderly(cfg, start, steps) && OptimisticRun(cfg, steps)
    ensures Locked(Run(cfg, steps)) && Plain(Run(cfg, steps).records)
    decreases |steps|
  {
    if steps != [] {
      var before, step := steps[..|steps| - 1], steps[|steps| - 1];
      var rt := Run(cfg, before);
      OptimisticRunsExclude(cfg, start, before);
      LocksNeverLeak(cfg, start, before);
      RunComplete(cfg, start, before);
      RunSound(cfg, before);
      assert !Strands(cfg, rt, step);
      assert Drops(rt, step) ==> IsHolder(rt.records, step.id);
      StepKeepsLocksIff(cfg, rt, step);
      OptimisticIsPlain(cfg, rt, step);
    }
  }

  // ---------------------------------------------------------------- why the conditions are needed

  /** An unconditional request to move the robot. */
  function Move(id: Id): Intent { Intent(id, "MOVE", "robot", [], [], 0.0, 1000.0, None, false, None, [], []) }

  const NOW := Validation(Policy(map[], map[], map[]), None, 0.0, true)

  lemma MoveVerdict(cfg: Config, rt: Tables, id: Id)
    requires cfg.clock == Clock(0.0, 1000.0) && (id in rt.records ==> rt.records[id] == Fresh(Move(id)))
    ensures var out := Process(cfg, rt, Move(id), NOW);
            && out.seen == rt.seen
            && id in out.records && out.records == rt.records[id := out.records[id]]
            && out.records[id].intent.target == "robot" && out.records[id].cls == Other
            && out.records[id].state == (if "robot" in rt.held then Delayed else Authorized)
            && out.held == rt.held + {"robot"}
  {
    ProcessRecords(cfg, rt, Move(id), NOW);
  }

  lemma RunOfTwo(cfg: Config, s1: Step, s2: Step)
    ensures Run(cfg, [s1, s2]) == Do(cfg, Do(cfg, NO_TABLES, s1), s2)
  {
    RunSnoc(cfg, [], s1);
    RunSnoc(cfg, [s1], s2);
    assert [] + [s1] == [s1] && [s1] + [s2] == [s1, s2];
  }

  lemma RunOfThree(cfg: Config, s1: Step, s2: Step, s3: Step)
    ensures Run(cfg, [s1, s2, s3]) == Do(cfg, Do(cfg, Do(cfg, NO_TABLES, s1), s2), s3)
  {
    RunOfTwo(cfg, s1, s2);
    RunSnoc(cfg, [s1, s2], s3);
    assert [s1, s2] + [s3] == [s1, s2, s3];
  }

  /** The state after two moves, the second of which is delayed, */
  predicate Waiting(rt: Tables) {
    && Holder(rt.records, "a", "robot") && rt.records.Keys == {"a", "b"} && rt.held == {"robot"}
    && rt.records["b"].state == Delayed && rt.records["b"].intent.target == "robot"
  }

  lemma SecondMove(cfg: Config, rt: Tables)
    requires cfg.clock == Clock(0.0, 1000.0)
    requires Holder(rt.records, "a", "robot") && rt.records.Keys == {"a"} && rt.held == {"robot"}
    ensures Waiting(Process(cfg, rt, Move("b"), NOW))
  {
    MoveVerdict(cfg, rt, "b");
  }

  /** ... and after the second one is revoked: its target is free although the first one still holds it. */
  lemma RevokedWhileWaiting(rt: Tables)
    requires Waiting(rt)
    ensures var out := SupervisoryRevoke(rt, "b").0; Holder(out.records, "a", "robot") && "c" !in out.records && out.held == {}
  {
  }

  lemma FreedTarget(cfg: Config)
    requires cfg.clock == Clock(0.0, 1000.0)
    ensures var rt := Run(cfg, [ProcessStep(Move("a"), NOW), ProcessStep(Move("b"), NOW), RevokeStep("b")]);
            Holder(rt.records, "a", "robot") && "c" !in rt.records && rt.held == {}
  {
    var r1 := Process(cfg, NO_TABLES, Move("a"), NOW);
    var r2 := Process(cfg, r1, Move("b"), NOW);
    SecondMove(cfg, r1);
    RevokedWhileWaiting(r2);
    RunOfThree(cfg, ProcessStep(Move("a"), NOW), ProcessStep(Move("b"), NOW), RevokeStep("b"));
  }

  /** The next intent on that target is authorized: two authorized intents share it. */
  lemma SharedTarget(cfg: Config)
    requires cfg.clock == Clock(0.0, 1000.0)
    ensures var run := [ProcessStep(Move("a"), NOW), ProcessStep(Move("b"), NOW), RevokeStep("b"), ProcessStep(Move("c"), NOW)];
            var rt := Run(cfg, run);
            Holder(rt.records, "a", "robot") && Holder(rt.records, "c", "robot") && !Exclusive(rt.records)
  {
    var three := [ProcessStep(Move("a"), NOW), ProcessStep(Move("b"), NOW), RevokeStep("b")];
    var four := three + [ProcessStep(Move("c"), NOW)];
    FreedTarget(cfg);
    RunSnoc(cfg, three, ProcessStep(Move("c"), NOW));
    MoveVerdict(cfg, Run(cfg, three), "c");
    assert four == [ProcessStep(Move("a"), NOW), ProcessStep(Move("b"), NOW), RevokeStep("b"), ProcessStep(Move("c"), NOW)];
    assert Holder(Run(cfg, four).records, "a", "robot") && Holder(Run(cfg, four).records, "c", "robot");
  }

  /** Registering "a" anew while it holds the robot leaves nobody to release it. */
  lemma Stranded(rt: Tables, out: Tables)
    requires "robot" in rt.held && rt.records.Keys == {"a"}
    requires out.held == rt.held && out.records == rt.records["a" := Fresh(Move("a"))]
    ensures "robot" in out.held && !NoLeak(out.records, out.held)
  {
    assert forall id :: !Holder(out.records, id, "robot");
  }

  lemma AdmittedMove(cfg: Config)
    requires cfg.clock == Clock(0.0, 1000.0)
    ensures var rt := Process(cfg, Admit(cfg, NO_TABLES, Move("a"), 0.0, 0.0), Move("a"), NOW);
            && "robot" in rt.held && rt.records.Keys == {"a"} && rt.records["a"].state == Authorized
            && rt.seen == [Admission("a", 0.0)]
  {
    assert (var out := Admit(cfg, NO_TABLES, Move("a"), 0.0, 0.0);
            && out.seen == [Admission("a", 0.0)] && out.held == {}
            && out.records == map["a" := Fresh(Move("a"))]);
    MoveVerdict(cfg, Admit(cfg, NO_TABLES, Move("a"), 0.0, 0.0), "a");
  }

  lemma StrandedAgain(cfg: Config, rt: Tables, late: real)
    requires "robot" in rt.held && rt.records.Keys == {"a"} && rt.records["a"].state == Authorized
    requires rt.seen == [Admission("a", 0.0)] && late > cfg.retention
    ensures var out := Admit(cfg, rt, Move("a"), late, late); "robot" in out.held && !NoLeak(out.records, out.held)
  {
    var e := PopOldest(rt);
    assert ExpireSeen(rt, late - cfg.retention) == ExpireSeen(e, late - cfg.retention) == e;
    Stranded(rt, Admit(cfg, rt, Move("a"), late, late));
  }

  /** An id submitted again after the retention window replaces its authorized record: the lock is held
      and no authorized intent is left to release it. */
  lemma LeakedLock(cfg: Config)
    requires cfg.clock == Clock(0.0, 1000.0)
    ensures var run := [AdmitStep(Move("a"), 0.0, 0.0), ProcessStep(Move("a"), NOW),
                        AdmitStep(Move("a"), cfg.retention + 1.0, cfg.retention + 1.0)];
            var rt := Run(cfg, run);
            "robot" in rt.held && !NoLeak(rt.records, rt.held)
  {
    var late := cfg.retention + 1.0;
    AdmittedMove(cfg);
    StrandedAgain(cfg, Process(cfg, Admit(cfg, NO_TABLES, Move("a"), 0.0, 0.0), Move("a"), NOW), late);
    RunOfThree(cfg, AdmitStep(Move("a"), 0.0, 0.0), ProcessStep(Move("a"), NOW), AdmitStep(Move("a"), late, late));
  }

  /** The same happens within a window to an id that was validated before it was admitted. */
  lemma LeakedByAdmission(cfg: Config, now: real)
    requires cfg.clock == Clock(0.0, 1000.0)
    ensures var rt := Run(cfg, [ProcessStep(Move("a"), NOW), AdmitStep(Move("a"), now, now)]);
            "robot" in rt.held && !NoLeak(rt.records, rt.held)
  {
    var rt := Process(cfg, NO_TABLES, Move("a"), NOW);
    MoveVerdict(cfg, NO_TABLES, "a");
    assert (var out := Admit(cfg, rt, Move("a"), now, now);
            out.held == rt.held && out.records == rt.records["a" := Fresh(Move("a"))]);
    Stranded(rt, Admit(cfg, rt, Move("a"), now, now));
    RunOfTwo(cfg, ProcessStep(Move("a"), NOW), AdmitStep(Move("a"), now, now));
  }
}
