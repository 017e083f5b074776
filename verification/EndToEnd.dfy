/** The whole system: the store, the runtime, and any number of request handlers between them.
    Models `submit_intent` and `commit_authorization` of xair/adapters/http_server.py over the machines of
    modules Store and Runtime. A handler fences, reads, validates and commits in separate steps, so
    updates, stops, reports and other handlers may come between any two of them, and the store may be
    reachable in one step and not in the next. */
module EndToEnd {
  import opened Wrappers
  import opened ContextTree
  import opened Predicates
  import opened Versioning
  import opened Layouts
  import opened Lifecycle
  import opened Runtime
  import opened Audit
  import opened StopFence
  import W = Window
  import S = Store

  /** Where a handler is. `at` is the store at the instant its snapshot was read. */
  datatype Handler =
    | Fencing(intent: Intent)
    | Initializing(intent: Intent)
    | Reading(intent: Intent)
    | Checking(intent: Intent, at: S.World)
    | Committing(rec: Rec, scope: S.Scope, margin: real)
    | Concluding(id: Id, committed: bool, seqNo: Option<nat>)

  /** A successful commit: the record as the handler read it, and the version and clock of the store. */
  datatype Commit = Commit(rec: Rec, scope: S.Scope, margin: real, version: nat, now: real)

  /** The policies in force so far (the last one is current), the time of the last stop that was written
      and, by log position, every commit. */
  datatype Sys = Sys(
    layout: Layout,
    world: S.World,
    rt: Tables,
    handlers: map<nat, Handler>,
    policies: seq<Policy>,
    stopClock: int,
    commits: map<nat, Commit>)

  const NO_POLICY := Policy(map[], map[], map[])

  function Initial(layout: Layout): Sys { Sys(layout, S.INITIAL, NO_TABLES, map[], [NO_POLICY], 0, map[]) }

  /** One step. `trusted`, `stored` and `available` say whether the store was reachable. */
  datatype Move =
    | Environment(step: S.Step)
    | Report(report: Step)
    | SetPolicy(policy: Policy)
    | Submit(h: nat, body: Intent, now: real, stamp: real)
    | Fence(h: nat, trusted: bool)
    | Initialize(h: nat, stored: bool, kept: set<Expr>)
    | Read(h: nat, trusted: bool, stamps: map<Expr, real>)
    | Validate(h: nat, now: real, timely: bool, again: real, timelyAgain: bool)
    | BeginCommit(h: nat, id: Id, scope: S.Scope, margin: real, now: real)
    | StoreCommit(h: nat, available: bool, now: real)
    | Conclude(h: nat)
    | RaiseStop(target: Target, at: int, stored: bool, kept: set<Expr>)
    | Abandon(h: nat)

  predicate Fences(s: Sys, h: nat) { h in s.handlers && s.handlers[h].Fencing? }
  predicate Initializes(s: Sys, h: nat) { h in s.handlers && s.handlers[h].Initializing? }
  predicate Reads(s: Sys, h: nat) { h in s.handlers && s.handlers[h].Reading? }
  predicate Checks(s: Sys, h: nat) { h in s.handlers && s.handlers[h].Checking? }
  predicate Commits(s: Sys, h: nat) { h in s.handlers && s.handlers[h].Committing? }
  predicate Concludes(s: Sys, h: nat) { h in s.handlers && s.handlers[h].Concluding? }

  /** Only handlers admit, validate and commit; the environment may write anything to the context. */
  predicate Enabled(s: Sys, m: Move) {
    match m
    case Environment(step) => !step.Commit?
    case Report(report) => !report.ProcessStep? && !report.AdmitStep?
    case SetPolicy(_) => true
    case Submit(h, _, _, _) => h !in s.handlers
    case Fence(h, _) => Fences(s, h)
    case Initialize(h, _, _) => Initializes(s, h)
    case Read(h, _, _) => Reads(s, h)
    case Validate(h, _, _, _, _) => Checks(s, h)
    case BeginCommit(h, id, _, _, _) => h !in s.handlers && id in s.rt.records && s.rt.records[id].state == Authorized
    case StoreCommit(h, _, _) => Commits(s, h)
    case Conclude(h) => Concludes(s, h)
    case RaiseStop(_, _, _, _) => true
    case Abandon(h) => h in s.handlers
  }

  function Current(s: Sys): Policy {
    if s.policies == [] then NO_POLICY else s.policies[|s.policies| - 1]
  }

  function Without(handlers: map<nat, Handler>, h: nat): map<nat, Handler> { handlers - {h} }

  /** The intent a request body declares. */
  function Parsed(body: Intent): Intent { body.(policyAdded := None, declared := body.preconditions, fenceReads := []) }

  /** Admission; a stop is authorized at once, a duplicate is answered unless it is a delayed record. */
  ghost function Submitted(cfg: Config, s: Sys, h: nat, intent: Intent, now: real, stamp: real): Sys {
    var rt := Admit(cfg, s.rt, intent, now, stamp);
    var duplicate := W.IsDuplicate(cfg, s.rt, intent.id, now);
    if duplicate && (intent.id !in rt.records || rt.records[intent.id].state != Delayed) then s.(rt := rt)
    else
      var it := if duplicate then rt.records[intent.id].intent else intent;
      if ClassOf(Current(s), it.action) == Stop
      then s.(rt := Process(cfg, rt, it, Validation(Current(s), None, now, true)))
      else s.(rt := rt, handlers := s.handlers[h := Fencing(it)])
  }

  /** The predicates a handler registers and whose roots it reads. */
  function ToRegister(it: Intent): set<Expr> { set e | e in Registered(it.All()) }

  /** Validation on the snapshot that was read; a degraded intent is validated again at once. */
  ghost function Revalidated(cfg: Config, rt: Tables, intent: Intent, first: Validation, second: Validation): Tables {
    var once := Process(cfg, rt, intent, first);
    if intent.id in once.records && once.records[intent.id].state == Degraded
    then Process(cfg, once, once.records[intent.id].intent, second)
    else once
  }

  /** A whole snapshot is installed unless a newer one was, a partial one is not; then the intent is
      validated on it. */
  ghost function Judged(cfg: Config, layout: Layout, rt: Tables, it: Intent, at: S.World, policy: Policy,
                        now: real, timely: bool, again: real, timelyAgain: bool): Tables
  {
    var doc := DocOf(layout, at.store, ToRegister(it));
    Revalidated(cfg, if layout.Shard? then rt else Install(rt, doc.ctx, doc.version, true), it,
                Validation(policy, Some(doc), now, timely), Validation(policy, Some(doc), again, timelyAgain))
  }

  function Request(cfg: Config, rec: Rec, scope: S.Scope, margin: real, now: real): S.CommitRequest {
    S.CommitRequest(
      rec.intent.id, scope, rec.readSet, rec.predicates,
      if scope.TruthScope? then rec.predicateVersion else rec.readVersion,
      now, rec.intent.decision, Some(CommitBound(cfg.clock, rec.intent, margin)), Some(cfg.clock.epsilon))
  }

  ghost function StatusOf(st: S.Store, req: S.CommitRequest, available: bool): S.Status {
    if available then S.CommitStatus(st, req) else S.Unavailable
  }

  /** The commit in the store; while the store is unreachable nothing is written. */
  ghost function Stored(cfg: Config, s: Sys, h: nat, c: Handler, available: bool, now: real): Sys
    requires c.Committing?
  {
    var req := Request(cfg, c.rec, c.scope, c.margin, now);
    var status, position := StatusOf(s.world.store, req, available), |s.world.store.log|;
    s.(world := if available then S.Do(s.world, S.Commit(req)) else s.world,
       handlers := s.handlers[h := Concluding(c.rec.intent.id, status == S.Committed || status == S.Duplicate,
                                              if status == S.Committed then Some(position + 1) else None)],
       commits := if status == S.Committed
                  then s.commits[position := Commit(c.rec, c.scope, c.margin, s.world.store.version, now)]
                  else s.commits)
  }

  /** The fence read. An untrusted one leaves the intent as it is, and the handler goes on; one that finds no
      epoch yet is followed by the first-sight initialization. */
  function AfterFencing(cfg: Config, s: Sys, h: nat, it: Intent, trusted: bool): Sys {
    if !trusted then s.(handlers := s.handlers[h := Reading(AfterFence(cfg.clock, it, false))])
    else
      match LookForEpoch(s.world.store.ctx, Bucket(it.target))
      case Broken => s.(handlers := Without(s.handlers, h))
      case Epoch => s.(handlers := s.handlers[h := Reading(AfterFence(cfg.clock, it, true))])
      case NoEpoch => s.(handlers := s.handlers[h := Initializing(it)])
  }

  /** The first-sight initialization writes epoch 0, if the write goes through. */
  ghost function AfterInitializing(cfg: Config, s: Sys, h: nat, it: Intent, stored: bool, kept: set<Expr>): Sys {
    s.(world := if stored then S.Do(s.world, S.Update(StopPatch(Bucket(it.target), 0), kept)) else s.world,
       handlers := s.handlers[h := Reading(AfterFence(cfg.clock, it, true))])
  }

  ghost function Next(cfg: Config, s: Sys, m: Move): Sys
    requires Enabled(s, m)
  {
    match m
    case Environment(step) => s.(world := S.Do(s.world, step))
    case Report(report) => s.(rt := Do(cfg, s.rt, report))
    case SetPolicy(policy) => s.(policies := s.policies + [policy])
    case Submit(h, body, now, stamp) => Submitted(cfg, s, h, Parsed(body), now, stamp)
    case Fence(h, trusted) => AfterFencing(cfg, s, h, s.handlers[h].intent, trusted)
    case Initialize(h, stored, kept) => AfterInitializing(cfg, s, h, s.handlers[h].intent, stored, kept)
    case Read(h, trusted, stamps) =>
      if !trusted then s.(rt := Discard(s.rt, s.handlers[h].intent.id).0, handlers := Without(s.handlers, h))
      else
        var w := S.Do(s.world, S.Register(stamps));
        s.(world := w, handlers := s.handlers[h := Checking(ApplyPolicy(Current(s), s.handlers[h].intent), w)])
    case Validate(h, now, timely, again, timelyAgain) =>
      s.(rt := Judged(cfg, s.layout, s.rt, s.handlers[h].intent, s.handlers[h].at, Current(s), now, timely, again, timelyAgain),
         handlers := Without(s.handlers, h))
    case BeginCommit(h, id, scope, margin, now) =>
      if ValidateRelease(cfg.clock, s.rt.records[id].intent, now) == FutureSkew
      then s.(rt := RecordCommit(s.rt, id, false, None).0)
      else s.(handlers := s.handlers[h := Committing(s.rt.records[id], scope, margin)])
    case StoreCommit(h, available, now) => Stored(cfg, s, h, s.handlers[h], available, now)
    case Conclude(h) =>
      var c := s.handlers[h];
      s.(rt := RecordCommit(s.rt, c.id, c.committed, c.seqNo).0, handlers := Without(s.handlers, h))
    case RaiseStop(target, at, stored, kept) =>
      if stored then s.(world := S.Do(s.world, S.Update(StopPatch(Bucket(target), at), kept)), stopClock := at) else s
    case Abandon(h) => s.(handlers := Without(s.handlers, h))
  }

  ghost predicate Possible(cfg: Config, layout: Layout, moves: seq<Move>)
    decreases |moves|, 0
  {
    moves == []
    || (Possible(cfg, layout, moves[..|moves| - 1])
        && Enabled(Reached(cfg, layout, moves[..|moves| - 1]), moves[|moves| - 1]))
  }

  ghost function Reached(cfg: Config, layout: Layout, moves: seq<Move>): Sys
    requires Possible(cfg, layout, moves)
    decreases |moves|, 1
  {
    if moves == [] then Initial(layout) else Next(cfg, Reached(cfg, layout, moves[..|moves| - 1]), moves[|moves| - 1])
  }

  // ---------------------------------------------------------------- what is kept

  /** `at` is an earlier state of the store than `w`. */
  ghost predicate Later(at: S.World, w: S.World) {
    S.Inv(at) && at.hist <= w.hist && at.deltas <= w.deltas
  }

  /** The policy was applied: all it mandates is among the intent's predicates, and it added nothing else. */
  ghost predicate GovernedBy(policy: Policy, it: Intent) {
    && (forall e :: Asks(policy, it.action, e) ==> e in it.All())
    && (it.policyAdded.Some? ==> forall e :: e in it.policyAdded.value ==> Asks(policy, it.action, e))
  }

  /** Some policy in force during the run was applied. */
  ghost predicate Governed(policies: seq<Policy>, it: Intent) {
    exists k :: 0 <= k < |policies| && GovernedBy(policies[k], it)
  }

  /** Some read made to fence the intent was trusted. */
  predicate TrustedFence(it: Intent) { true in it.fenceReads }

  /** What an intent's preconditions are, exactly: those its producer declared, the fence if a read made to
      fence it was trusted, and what the policy added. */
  predicate Composed(clock: Clock, it: Intent) {
    && (forall e :: e in it.preconditions ==>
          || e in it.declared
          || (TrustedFence(it) && e == FenceOf(clock, it))
          || (it.policyAdded.Some? && e in it.policyAdded.value))
    && (forall e :: e in it.declared ==> e in it.preconditions)
    && (TrustedFence(it) ==> FenceOf(clock, it) in it.preconditions)
    && (it.policyAdded.Some? ==> forall e :: e in it.policyAdded.value ==> e in it.preconditions)
  }

  ghost predicate WellMade(clock: Clock, policies: seq<Policy>, it: Intent) {
    Composed(clock, it) && (it.policyAdded.Some? ==> Governed(policies, it))
  }

  /** The intent went through the policy and through at least one fence read. */
  ghost predicate Ready(clock: Clock, policies: seq<Policy>, it: Intent) {
    Composed(clock, it) && it.policyAdded.Some? && Governed(policies, it) && it.fenceReads != []
  }

  /** The record was validated on the store `at`. */
  ghost predicate ValidatedOn(at: S.World, rec: Rec) {
    && rec.contextVersion == at.store.version
    && AllTrue(rec.intent.All(), at.store.ctx)
    && rec.readSet == ReadSetOf(rec.intent.All())
    && rec.readVersion == ReadSetVersion(at.store.pv, rec.readSet)
    && rec.predicates == Registered(rec.intent.All())
    && rec.predicateVersion == PredicateVersion(at.store.preds, rec.predicates)
  }

  /** The record's predicates are true on the document its validation reads. */
  ghost predicate Accepted(layout: Layout, at: S.World, rec: Rec) {
    AllTrue(rec.intent.All(), DocOf(layout, at.store, ToRegister(rec.intent)).ctx)
  }

  ghost predicate Grounded(layout: Layout, w: S.World, rec: Rec) {
    exists at :: Later(at, w) && ValidatedOn(at, rec) && Accepted(layout, at, rec)
  }

  ghost predicate AuthorizedOk(layout: Layout, clock: Clock, w: S.World, policies: seq<Policy>, rec: Rec) {
    rec.cls != Stop ==> Grounded(layout, w, rec) && Ready(clock, policies, rec.intent)
  }

  ghost predicate RecOk(layout: Layout, clock: Clock, w: S.World, policies: seq<Policy>, rec: Rec) {
    && (rec.state == Authorized ==> AuthorizedOk(layout, clock, w, policies, rec))
    && (Validatable(rec.state) ==> WellMade(clock, policies, rec.intent))
  }

  ghost predicate HandlerOk(layout: Layout, clock: Clock, w: S.World, policies: seq<Policy>, handler: Handler) {
    match handler
    case Fencing(it) => WellMade(clock, policies, it)
    case Initializing(it) => WellMade(clock, policies, it)
    case Reading(it) => WellMade(clock, policies, it) && it.fenceReads != []
    case Checking(it, at) => Ready(clock, policies, it) && Later(at, w)
    case Committing(rec, _, _) => rec.state == Authorized && AuthorizedOk(layout, clock, w, policies, rec)
    case Concluding(_, _, _) => true
  }

  /** The predicates the scope of a commit vouches for. */
  function Covered(c: Commit): seq<Expr> {
    if c.scope.ReadSetScope? then c.rec.intent.All() else Registered(c.rec.intent.All())
  }

  /** Every covered predicate held on every version from the validation snapshot to the commit. */
  ghost predicate HeldThroughout(hist: seq<Tree>, c: Commit) {
    && 0 <= c.rec.contextVersion <= c.version < |hist|
    && forall e :: e in Covered(c) ==> S.Constant(hist, e, true, c.rec.contextVersion, c.version)
  }

  ghost predicate CommitOk(layout: Layout, clock: Clock, w: S.World, policies: seq<Policy>, c: Commit) {
    && (c.rec.cls != Stop ==> HeldThroughout(w.hist, c) && Grounded(layout, w, c.rec) && Ready(clock, policies, c.rec.intent))
    && (c.scope.TruthScope? ==> c.rec.predicateVersion >= 0)
    && -clock.epsilon <= c.now - c.rec.intent.decision <= CommitBound(clock, c.rec.intent, c.margin)
  }

  /** Every authorization in the log is a recorded commit. */
  predicate Accounted(log: seq<S.Record>, commits: map<nat, Commit>) {
    && (forall i :: i in commits ==> i < |log|)
    && forall i :: 0 <= i < |log| && log[i].Authorization? ==>
         i in commits && log[i] == S.Authorization(commits[i].rec.intent.id, commits[i].version, commits[i].now,
                                                   commits[i].now - commits[i].rec.intent.decision)
  }

  ghost predicate RecordsOk(layout: Layout, clock: Clock, w: S.World, policies: seq<Policy>, records: map<Id, Rec>) {
    forall id :: id in records ==> RecOk(layout, clock, w, policies, records[id])
  }

  ghost predicate HandlersOk(layout: Layout, clock: Clock, w: S.World, policies: seq<Policy>, handlers: map<nat, Handler>) {
    forall h :: h in handlers ==> HandlerOk(layout, clock, w, policies, handlers[h])
  }

  ghost predicate CommitsOk(layout: Layout, clock: Clock, w: S.World, policies: seq<Policy>, commits: map<nat, Commit>) {
    forall i :: i in commits ==> CommitOk(layout, clock, w, policies, commits[i])
  }

  ghost predicate Inv(clock: Clock, s: Sys) {
    && S.Inv(s.world) && s.policies != []
    && RecordsOk(s.layout, clock, s.world, s.policies, s.rt.records)
    && HandlersOk(s.layout, clock, s.world, s.policies, s.handlers)
    && CommitsOk(s.layout, clock, s.world, s.policies, s.commits)
    && Accounted(s.world.store.log, s.commits)
  }

  // ---------------------------------------------------------------- growing

  lemma AuthorizedGrows(layout: Layout, clock: Clock, w: S.World, w': S.World, policies: seq<Policy>, more: seq<Policy>, rec: Rec)
    requires AuthorizedOk(layout, clock, w, policies, rec)
    requires w.hist <= w'.hist && w.deltas <= w'.deltas && policies <= more
    ensures AuthorizedOk(layout, clock, w', more, rec)
  {
    if rec.cls != Stop {
      var at :| Later(at, w) && ValidatedOn(at, rec) && Accepted(layout, at, rec);
      assert Later(at, w');
    }
  }

  lemma CommitGrows(layout: Layout, clock: Clock, w: S.World, w': S.World, policies: seq<Policy>, more: seq<Policy>, c: Commit)
    requires CommitOk(layout, clock, w, policies, c) && w.hist <= w'.hist && w.deltas <= w'.deltas && policies <= more
    ensures CommitOk(layout, clock, w', more, c)
  {
    if c.rec.cls != Stop {
      forall e | e in Covered(c) ensures S.Constant(w'.hist, e, true, c.rec.contextVersion, c.version) {
        assert S.Constant(w.hist, e, true, c.rec.contextVersion, c.version);
      }
      AuthorizedGrows(layout, clock, w, w', policies, more, c.rec);
    }
  }

  /** Growth of the store and of the policies keeps everything but the log. */
  lemma Grow(clock: Clock, s: Sys, w': S.World, more: seq<Policy>)
    requires Inv(clock, s) && s.world.hist <= w'.hist && s.world.deltas <= w'.deltas && s.policies <= more
    ensures RecordsOk(s.layout, clock, w', more, s.rt.records)
    ensures HandlersOk(s.layout, clock, w', more, s.handlers)
    ensures CommitsOk(s.layout, clock, w', more, s.commits)
  {
    forall id | id in s.rt.records ensures RecOk(s.layout, clock, w', more, s.rt.records[id]) {
      var rec := s.rt.records[id];
      if rec.state == Authorized {
        AuthorizedGrows(s.layout, clock, s.world, w', s.policies, more, rec);
      }
    }
    forall h | h in s.handlers ensures HandlerOk(s.layout, clock, w', more, s.handlers[h]) {
      match s.handlers[h]
      case Committing(rec, _, _) => AuthorizedGrows(s.layout, clock, s.world, w', s.policies, more, rec);
      case Concluding(_, _, _) =>
      case Checking(it, _) =>
      case _ =>
    }
    forall i | i in s.commits ensures CommitOk(s.layout, clock, w', more, s.commits[i]) {
      CommitGrows(s.layout, clock, s.world, w', s.policies, more, s.commits[i]);
    }
  }

  // ---------------------------------------------------------------- store steps

  /** Any store step that is not a commit keeps the invariant. */
  lemma WorldMove(clock: Clock, s: Sys, step: S.Step)
    requires Inv(clock, s) && !step.Commit?
    ensures Inv(clock, s.(world := S.Do(s.world, step)))
  {
    var w' := S.Do(s.world, step);
    S.StepKeepsInv(s.world, step);
    assert s.world.hist <= S.Do(s.world, step).hist && s.world.deltas <= S.Do(s.world, step).deltas;
    Grow(clock, s, w', s.policies);
  }

  // ---------------------------------------------------------------- runtime steps

  /** Reports never create an authorization, and never reopen one. */
  predicate Subdued(was: map<Id, Rec>, now: map<Id, Rec>) {
    forall id :: id in now ==>
      || (id in was && now[id] == was[id])
      || (now[id].state != Authorized && !Validatable(now[id].state))
      || now[id] == Fresh(Parsed(now[id].intent))
  }

  lemma SubduedOk(layout: Layout, clock: Clock, w: S.World, policies: seq<Policy>, was: map<Id, Rec>, now: map<Id, Rec>)
    requires RecordsOk(layout, clock, w, policies, was) && Subdued(was, now)
    ensures RecordsOk(layout, clock, w, policies, now)
  {
    forall id | id in now ensures RecOk(layout, clock, w, policies, now[id]) {
    }
  }

  lemma AdmitSubdued(cfg: Config, rt: Tables, e: Tables, body: Intent, now: real, stamp: real)
    requires e == ExpireSeen(rt, now - cfg.retention) && Subdued(rt.records, e.records)
    ensures Subdued(rt.records, Admit(cfg, rt, Parsed(body), now, stamp).records)
  {
  }

  lemma ExpireSubdued(rt: Tables, horizon: real)
    ensures Subdued(rt.records, ExpireSeen(rt, horizon).records)
  {
    W.ExpireIs(rt, horizon);
  }

  lemma OneSubdued(was: map<Id, Rec>, id: Id, rec: Rec)
    requires rec.state != Authorized && !Validatable(rec.state)
    ensures Subdued(was, was[id := rec])
  {
  }

  lemma CommitSubdued(rt: Tables, id: Id, committed: bool, seqNo: Option<nat>)
    ensures Subdued(rt.records, RecordCommit(rt, id, committed, seqNo).0.records)
  {
    CommitIs(rt, id, committed, seqNo);
    if id in rt.records && rt.records[id].state == Authorized {
      OneSubdued(rt.records, id, if committed then rt.records[id].(state := Committed, commitSeq := seqNo)
                                 else rt.records[id].(state := Withheld, release := Some(Withhold)));
    }
  }

  lemma ReleaseSubdued(rt: Tables, id: Id, released: bool, cv: Option<int>, rv: Option<int>)
    ensures Subdued(rt.records, ReportRelease(rt, id, released, cv, rv).0.records)
  {
    ReleaseIs(rt, id, released, cv, rv);
    if id in rt.records && rt.records[id].state in OPEN && rt.records[id].release.None? {
      OneSubdued(rt.records, id, if released && !GateMoved(rt.records[id], cv, rv)
                                 then rt.records[id].(state := Released, release := Some(Release))
                                 else rt.records[id].(state := Withheld, release := Some(Withhold)));
    }
  }

  lemma EffectSubdued(rt: Tables, id: Id, effect: Effect)
    ensures Subdued(rt.records, ReportEffect(rt, id, effect).0.records)
  {
    if id in rt.records {
      OneSubdued(rt.records, id, rt.records[id].(state := EffectState(effect)));
    }
  }

  lemma RevokeSubdued(rt: Tables, id: Id)
    ensures Subdued(rt.records, SupervisoryRevoke(rt, id).0.records)
    ensures Subdued(rt.records, Discard(rt, id).0.records)
  {
    if id in rt.records {
      OneSubdued(rt.records, id, rt.records[id].(state := Revoked));
    }
  }

  lemma ReportOk(cfg: Config, s: Sys, step: Step)
    requires Inv(cfg.clock, s) && !step.ProcessStep? && !step.AdmitStep?
    ensures Inv(cfg.clock, s.(rt := Do(cfg, s.rt, step)))
  {
    assert Subdued(s.rt.records, Do(cfg, s.rt, step).records) by {
      match step
      case ExpireStep(now) => ExpireSubdued(s.rt, now - cfg.retention);
      case InstallStep(_, _, _) =>
      case CommitStep(id, committed, seqNo) => CommitSubdued(s.rt, id, committed, seqNo);
      case ReleaseStep(id, released, cv, rv) => ReleaseSubdued(s.rt, id, released, cv, rv);
      case EffectStep(id, effect) => EffectSubdued(s.rt, id, effect);
      case RevokeStep(id) => RevokeSubdued(s.rt, id);
      case DiscardStep(id) => RevokeSubdued(s.rt, id);
    }
    SubduedOk(s.layout, cfg.clock, s.world, s.policies, s.rt.records, Do(cfg, s.rt, step).records);
    assert Inv(cfg.clock, s.(rt := Do(cfg, s.rt, step)));
  }

  // ---------------------------------------------------------------- validation

  /** An authorization that is not a stop is grounded in the store its snapshot was read from. */
  lemma AuthorizedIsValidated(cfg: Config, layout: Layout, rt: Tables, rec: Rec, it: Intent, v: Validation, at: S.World)
    requires v.doc == Some(DocOf(layout, at.store, ToRegister(it))) && it.policyAdded.Some?
    ensures var out := Validated(cfg, rt, rec, it, v);
            && (out.state == Authorized && out.cls != Stop ==> out.intent == it && ValidatedOn(at, out) && Accepted(layout, at, out))
            && (out.state == Delayed ==> out.intent == it)
            && (out.state == Degraded ==> out.intent == it.(degradable := false))
            && out.state in Allowed(Validating)
  {
    ValidatedCases(cfg, rt, rec, it, v);
    var verdict := VerdictOn(cfg, rt, it, v);
    var cls := ClassOf(v.policy, it.action);
    assert ApplyPolicy(v.policy, it) == it;
    ConcludedCases(Checked(rec, it, cls, rt.installed, v.doc), verdict);
    if verdict.Execute? {
      var doc := DocOf(layout, at.store, ToRegister(it));
      assert AllTrue(it.All(), doc.ctx);
      DocIsFaithful(layout, at.store, it.All(), ToRegister(it), Registered(it.All()));
    }
  }

  lemma DegradedReady(clock: Clock, policies: seq<Policy>, it: Intent)
    requires Ready(clock, policies, it)
    ensures Ready(clock, policies, it.(degradable := false))
  {
    var k :| 0 <= k < |policies| && GovernedBy(policies[k], it);
    assert GovernedBy(policies[k], it.(degradable := false));
    assert FenceOf(clock, it.(degradable := false)) == FenceOf(clock, it);
  }

  lemma ValidatedOk(cfg: Config, layout: Layout, rt: Tables, rec: Rec, it: Intent, v: Validation, at: S.World, w: S.World,
                    policies: seq<Policy>)
    requires v.doc == Some(DocOf(layout, at.store, ToRegister(it))) && Later(at, w) && Ready(cfg.clock, policies, it)
    ensures var out := Validated(cfg, rt, rec, it, v);
            RecOk(layout, cfg.clock, w, policies, out)
            && (out.state == Degraded ==> out.intent == it.(degradable := false) && Ready(cfg.clock, policies, out.intent))
  {
    AuthorizedIsValidated(cfg, layout, rt, rec, it, v, at);
    DegradedReady(cfg.clock, policies, it);
  }

  lemma ProcessOk(cfg: Config, layout: Layout, rt: Tables, it: Intent, v: Validation, at: S.World, w: S.World, policies: seq<Policy>)
    requires v.doc == Some(DocOf(layout, at.store, ToRegister(it))) && Later(at, w) && Ready(cfg.clock, policies, it)
    requires RecordsOk(layout, cfg.clock, w, policies, rt.records)
    ensures var out := Process(cfg, rt, it, v);
            && RecordsOk(layout, cfg.clock, w, policies, out.records)
            && (it.id in out.records && out.records[it.id].state == Degraded ==>
                  out.records[it.id].intent == it.(degradable := false) && Ready(cfg.clock, policies, out.records[it.id].intent))
  {
    ProcessRecords(cfg, rt, it, v);
    var rec := Begin(rt, it).records[it.id];
    if Validatable(rec.state) {
      ValidatedOk(cfg, layout, rt, rec, it, v, at, w, policies);
    }
  }

  lemma StopOk(cfg: Config, layout: Layout, rt: Tables, it: Intent, v: Validation, w: S.World, policies: seq<Policy>)
    requires ClassOf(v.policy, it.action) == Stop && RecordsOk(layout, cfg.clock, w, policies, rt.records)
    ensures RecordsOk(layout, cfg.clock, w, policies, Process(cfg, rt, it, v).records)
  {
    ProcessRecords(cfg, rt, it, v);
    var rec := Begin(rt, it).records[it.id];
  }

  lemma RevalidatedOk(cfg: Config, layout: Layout, rt: Tables, it: Intent, first: Validation, second: Validation, at: S.World,
                      w: S.World, policies: seq<Policy>)
    requires first.doc == Some(DocOf(layout, at.store, ToRegister(it))) && second.doc == first.doc
    requires Later(at, w) && Ready(cfg.clock, policies, it) && RecordsOk(layout, cfg.clock, w, policies, rt.records)
    ensures RecordsOk(layout, cfg.clock, w, policies, Revalidated(cfg, rt, it, first, second).records)
  {
    ProcessOk(cfg, layout, rt, it, first, at, w, policies);
    var once := Process(cfg, rt, it, first);
    if it.id in once.records && once.records[it.id].state == Degraded {
      assert ToRegister(it.(degradable := false)) == ToRegister(it);
      ProcessOk(cfg, layout, once, it.(degradable := false), second, at, w, policies);
    }
  }

  // ---------------------------------------------------------------- handlers

  lemma HandlerMove(clock: Clock, s: Sys, h: nat, handler: Handler)
    requires Inv(clock, s) && HandlerOk(s.layout, clock, s.world, s.policies, handler)
    ensures Inv(clock, s.(handlers := s.handlers[h := handler]))
  {
  }

  lemma AbandonOk(clock: Clock, s: Sys, h: nat)
    requires Inv(clock, s)
    ensures Inv(clock, s.(handlers := Without(s.handlers, h)))
  {
  }

  lemma SubmitOk(cfg: Config, s: Sys, h: nat, body: Intent, now: real, stamp: real)
    requires Inv(cfg.clock, s)
    ensures Inv(cfg.clock, Submitted(cfg, s, h, Parsed(body), now, stamp))
  {
    var intent := Parsed(body);
    var rt := Admit(cfg, s.rt, intent, now, stamp);
    assert Inv(cfg.clock, s.(rt := Admit(cfg, s.rt, Parsed(body), now, stamp))) by {
      var rt := Admit(cfg, s.rt, Parsed(body), now, stamp);
      ExpireSubdued(s.rt, now - cfg.retention);
      AdmitSubdued(cfg, s.rt, ExpireSeen(s.rt, now - cfg.retention), body, now, stamp);
      SubduedOk(s.layout, cfg.clock, s.world, s.policies, s.rt.records, rt.records);
      assert Inv(cfg.clock, s.(rt := rt));
    }
    var duplicate := W.IsDuplicate(cfg, s.rt, intent.id, now);
    if !(duplicate && (intent.id !in rt.records || rt.records[intent.id].state != Delayed)) {
      var it := if duplicate then rt.records[intent.id].intent else intent;
      if ClassOf(Current(s), it.action) == Stop {
        var v := Validation(Current(s), None, now, true);
        StopOk(cfg, s.layout, rt, it, v, s.world, s.policies);
        assert Inv(cfg.clock, s.(rt := Process(cfg, rt, it, v)));
      } else {
        assert duplicate ==> RecOk(s.layout, cfg.clock, s.world, s.policies, rt.records[intent.id]);
        HandlerMove(cfg.clock, s.(rt := rt), h, Fencing(it));
      }
    }
  }

  lemma AfterFenceOk(clock: Clock, policies: seq<Policy>, it: Intent, trusted: bool)
    requires WellMade(clock, policies, it)
    ensures WellMade(clock, policies, AfterFence(clock, it, trusted)) && AfterFence(clock, it, trusted).fenceReads != []
  {
    var out := AfterFence(clock, it, trusted);
    assert FenceOf(clock, out) == FenceOf(clock, it);
    assert TrustedFence(out) <==> trusted || TrustedFence(it);
    if it.policyAdded.Some? {
      var k :| 0 <= k < |policies| && GovernedBy(policies[k], it);
      assert GovernedBy(policies[k], out);
    }
  }

  lemma FenceOk(cfg: Config, s: Sys, h: nat, trusted: bool)
    requires Inv(cfg.clock, s) && Fences(s, h)
    ensures Inv(cfg.clock, AfterFencing(cfg, s, h, s.handlers[h].intent, trusted))
  {
    var it := s.handlers[h].intent;
    assert HandlerOk(s.layout, cfg.clock, s.world, s.policies, s.handlers[h]);
    AfterFenceOk(cfg.clock, s.policies, it, trusted);
    HandlerMove(cfg.clock, s, h, Reading(AfterFence(cfg.clock, it, trusted)));
    HandlerMove(cfg.clock, s, h, Initializing(it));
    AbandonOk(cfg.clock, s, h);
  }

  lemma ReadOk(cfg: Config, s: Sys, h: nat, stamps: map<Expr, real>)
    requires Inv(cfg.clock, s) && Reads(s, h)
    ensures var w := S.Do(s.world, S.Register(stamps));
            Inv(cfg.clock, s.(world := w, handlers := s.handlers[h := Checking(ApplyPolicy(Current(s), s.handlers[h].intent), w)]))
  {
    var it, w := s.handlers[h].intent, S.Do(s.world, S.Register(stamps));
    assert WellMade(cfg.clock, s.policies, it) && it.fenceReads != [] by {
      assert HandlerOk(s.layout, cfg.clock, s.world, s.policies, s.handlers[h]);
    }
    WorldMove(cfg.clock, s, S.Register(stamps));
    assert Ready(cfg.clock, s.policies, ApplyPolicy(Current(s), it)) by {
      if it.policyAdded.None? {
        var out := ApplyPolicy(Current(s), it);
        PolicyIsMandatory(Current(s), it);
        assert GovernedBy(s.policies[|s.policies| - 1], out);
        assert FenceOf(cfg.clock, out) == FenceOf(cfg.clock, it);
      }
    }
    HandlerMove(cfg.clock, s.(world := w), h, Checking(ApplyPolicy(Current(s), it), w));
  }

  lemma UntrustedReadOk(cfg: Config, s: Sys, h: nat)
    requires Inv(cfg.clock, s) && Reads(s, h)
    ensures Inv(cfg.clock, s.(rt := Discard(s.rt, s.handlers[h].intent.id).0, handlers := Without(s.handlers, h)))
  {
    var id := s.handlers[h].intent.id;
    ReportOk(cfg, s, DiscardStep(id));
    AbandonOk(cfg.clock, s.(rt := Discard(s.rt, id).0), h);
  }

  lemma ValidateOk(cfg: Config, s: Sys, h: nat, now: real, timely: bool, again: real, timelyAgain: bool)
    requires Inv(cfg.clock, s) && Checks(s, h)
    ensures Inv(cfg.clock, s.(rt := Judged(cfg, s.layout, s.rt, s.handlers[h].intent, s.handlers[h].at, Current(s),
                                           now, timely, again, timelyAgain),
                              handlers := Without(s.handlers, h)))
  {
    var it, at := s.handlers[h].intent, s.handlers[h].at;
    assert Ready(cfg.clock, s.policies, it) && Later(at, s.world) by {
      assert HandlerOk(s.layout, cfg.clock, s.world, s.policies, s.handlers[h]);
    }
    var rt := Judged(cfg, s.layout, s.rt, it, at, Current(s), now, timely, again, timelyAgain);
    var doc := DocOf(s.layout, at.store, ToRegister(it));
    var installed := if s.layout.Shard? then s.rt else Install(s.rt, doc.ctx, doc.version, true);
    assert installed.records == s.rt.records;
    RevalidatedOk(cfg, s.layout, installed, it, Validation(Current(s), Some(doc), now, timely),
                  Validation(Current(s), Some(doc), again, timelyAgain), at, s.world, s.policies);
    assert Inv(cfg.clock, s.(rt := rt));
    AbandonOk(cfg.clock, s.(rt := rt), h);
  }

  // ---------------------------------------------------------------- the commit

  /** If nothing related to the read-set changed since the snapshot, or no registered predicate flipped,
      every predicate that was true at validation has been true on every version since. */
  lemma HeldSince(at: S.World, w: S.World, rec: Rec, scope: S.Scope, e: Expr)
    requires S.Inv(w) && Later(at, w) && ValidatedOn(at, rec)
    requires scope.ReadSetScope? ==> ReadSetVersion(w.store.pv, rec.readSet) == rec.readVersion && e in rec.intent.All()
    requires scope.TruthScope? ==>
               0 <= PredicateVersion(w.store.preds, rec.predicates) == rec.predicateVersion && e in rec.predicates
    ensures at.store.version <= w.store.version
    ensures S.Constant(w.hist, e, true, at.store.version, w.store.version)
  {
    var v := at.store.version;
    assert w.hist[v] == at.hist[v] == at.store.ctx;
    assert e in rec.intent.All();
    assert Truth(e, w.hist[v]);
    if scope.ReadSetScope? {
      S.ReadSetVersionIsLastTouch(at, rec.readSet);
      S.ReadSetVersionIsLastTouch(w, rec.readSet);
      S.UntouchedIsConstant(w, e, rec.readSet, v, w.store.version);
    } else {
      S.PredicateVersionBounded(at, rec.predicates);
      S.OldVersionMeansConstant(w, rec.predicates, v);
    }
  }

  lemma CommittedOk(cfg: Config, layout: Layout, w: S.World, policies: seq<Policy>, rec: Rec, scope: S.Scope, margin: real, now: real)
    requires S.Inv(w) && AuthorizedOk(layout, cfg.clock, w, policies, rec)
    requires S.CommitStatus(w.store, Request(cfg, rec, scope, margin, now)) == S.Committed
    ensures CommitOk(layout, cfg.clock, w, policies, Commit(rec, scope, margin, w.store.version, now))
  {
    if rec.cls != Stop {
      var at :| Later(at, w) && ValidatedOn(at, rec) && Accepted(layout, at, rec);
      var c := Commit(rec, scope, margin, w.store.version, now);
      assert at.store.version <= w.store.version < |w.hist|;
      forall e | e in Covered(c) ensures S.Constant(w.hist, e, true, rec.contextVersion, w.store.version) {
        HeldSince(at, w, rec, scope, e);
      }
    }
  }

  lemma CommitAccounted(cfg: Config, w: S.World, commits: map<nat, Commit>, c: Commit, req: S.CommitRequest)
    requires Accounted(w.store.log, commits)
    requires req == Request(cfg, c.rec, c.scope, c.margin, c.now) && c.version == w.store.version
    ensures S.CommitStatus(w.store, req) == S.Committed ==>
              Accounted(S.Do(w, S.Commit(req)).store.log, commits[|w.store.log| := c])
    ensures S.CommitStatus(w.store, req) != S.Committed ==> S.Do(w, S.Commit(req)) == w
  {
  }

  lemma CommitsSet(layout: Layout, clock: Clock, w: S.World, policies: seq<Policy>, commits: map<nat, Commit>, i: nat, c: Commit)
    requires CommitsOk(layout, clock, w, policies, commits) && CommitOk(layout, clock, w, policies, c)
    ensures CommitsOk(layout, clock, w, policies, commits[i := c])
  {
  }

  /** The store after a successful commit, with the commit on record. */
  lemma LoggedOk(cfg: Config, s: Sys, rec: Rec, scope: S.Scope, margin: real, now: real)
    requires Inv(cfg.clock, s) && AuthorizedOk(s.layout, cfg.clock, s.world, s.policies, rec)
    requires S.CommitStatus(s.world.store, Request(cfg, rec, scope, margin, now)) == S.Committed
    ensures var c := Commit(rec, scope, margin, s.world.store.version, now);
            Inv(cfg.clock, s.(world := S.Do(s.world, S.Commit(Request(cfg, rec, scope, margin, now))),
                              commits := s.commits[|s.world.store.log| := c]))
  {
    var req := Request(cfg, rec, scope, margin, now);
    var c := Commit(rec, scope, margin, s.world.store.version, now);
    var w' := S.Do(s.world, S.Commit(req));
    S.StepKeepsInv(s.world, S.Commit(req));
    assert w'.hist == s.world.hist && w'.deltas == s.world.deltas;
    Grow(cfg.clock, s, w', s.policies);
    CommitAccounted(cfg, s.world, s.commits, c, req);
    CommittedOk(cfg, s.layout, s.world, s.policies, rec, scope, margin, now);
    CommitGrows(s.layout, cfg.clock, s.world, w', s.policies, s.policies, c);
    CommitsSet(s.layout, cfg.clock, w', s.policies, s.commits, |s.world.store.log|, c);
  }

  lemma StoreCommitOk(cfg: Config, s: Sys, h: nat, available: bool, now: real)
    requires Inv(cfg.clock, s) && Commits(s, h)
    ensures Inv(cfg.clock, Stored(cfg, s, h, s.handlers[h], available, now))
  {
    var c := s.handlers[h];
    assert HandlerOk(s.layout, cfg.clock, s.world, s.policies, c);
    var req := Request(cfg, c.rec, c.scope, c.margin, now);
    var out := Stored(cfg, s, h, c, available, now);
    var commit := Commit(c.rec, c.scope, c.margin, s.world.store.version, now);
    var logged := s.(world := out.world, commits := out.commits);
    if available && S.CommitStatus(s.world.store, req) == S.Committed {
      LoggedOk(cfg, s, c.rec, c.scope, c.margin, now);
    } else {
      assert logged == s;
    }
    HandlerMove(cfg.clock, logged, h, out.handlers[h]);
    assert out == logged.(handlers := logged.handlers[h := out.handlers[h]]);
  }

  lemma BeginCommitOk(cfg: Config, s: Sys, h: nat, id: Id, scope: S.Scope, margin: real, now: real)
    requires Inv(cfg.clock, s) && id in s.rt.records && s.rt.records[id].state == Authorized
    ensures Inv(cfg.clock, s.(rt := RecordCommit(s.rt, id, false, None).0))
    ensures Inv(cfg.clock, s.(handlers := s.handlers[h := Committing(s.rt.records[id], scope, margin)]))
  {
    ReportOk(cfg, s, CommitStep(id, false, None));
    assert RecOk(s.layout, cfg.clock, s.world, s.policies, s.rt.records[id]);
    HandlerMove(cfg.clock, s, h, Committing(s.rt.records[id], scope, margin));
  }

  lemma ConcludeOk(cfg: Config, s: Sys, h: nat, id: Id, committed: bool, seqNo: Option<nat>)
    requires Inv(cfg.clock, s)
    ensures Inv(cfg.clock, s.(rt := RecordCommit(s.rt, id, committed, seqNo).0, handlers := Without(s.handlers, h)))
  {
    ReportOk(cfg, s, CommitStep(id, committed, seqNo));
    AbandonOk(cfg.clock, s.(rt := RecordCommit(s.rt, id, committed, seqNo).0), h);
  }

  // ---------------------------------------------------------------- every run

  /** Moves that leave the store alone. */
  predicate OffStore(m: Move) {
    m.Report? || m.SetPolicy? || m.Submit? || m.Fence? || m.Validate? || m.BeginCommit? || m.Conclude? || m.Abandon?
  }

  lemma OffStoreInv(cfg: Config, s: Sys, m: Move)
    requires Inv(cfg.clock, s) && Enabled(s, m) && OffStore(m)
    ensures Inv(cfg.clock, Next(cfg, s, m))
  {
    match m
    case Report(report) => ReportOk(cfg, s, report);
    case SetPolicy(policy) => Grow(cfg.clock, s, s.world, s.policies + [policy]);
    case Submit(h, body, now, stamp) => SubmitOk(cfg, s, h, body, now, stamp);
    case Fence(h, trusted) => FenceOk(cfg, s, h, trusted);
    case Validate(h, now, timely, again, timelyAgain) => ValidateOk(cfg, s, h, now, timely, again, timelyAgain);
    case BeginCommit(h, id, scope, margin, now) => BeginCommitOk(cfg, s, h, id, scope, margin, now);
    case Conclude(h) => ConcludeOk(cfg, s, h, s.handlers[h].id, s.handlers[h].committed, s.handlers[h].seqNo);
    case Abandon(h) => AbandonOk(cfg.clock, s, h);
  }

  lemma MoveKeepsInv(cfg: Config, s: Sys, m: Move)
    requires Inv(cfg.clock, s) && Enabled(s, m)
    ensures Inv(cfg.clock, Next(cfg, s, m))
  {
    if OffStore(m) {
      OffStoreInv(cfg, s, m);
    } else {
      match m
      case Environment(step) => WorldMove(cfg.clock, s, step);
      case Initialize(h, stored, kept) =>
        var it, step := s.handlers[h].intent, S.Update(StopPatch(Bucket(s.handlers[h].intent.target), 0), kept);
        assert HandlerOk(s.layout, cfg.clock, s.world, s.policies, s.handlers[h]);
        AfterFenceOk(cfg.clock, s.policies, it, true);
        WorldMove(cfg.clock, s, step);
        HandlerMove(cfg.clock, if stored then s.(world := S.Do(s.world, step)) else s, h, Reading(AfterFence(cfg.clock, it, true)));
      case Read(h, trusted, stamps) =>
        if trusted {
          ReadOk(cfg, s, h, stamps);
        } else {
          UntrustedReadOk(cfg, s, h);
        }
      case StoreCommit(h, available, now) => StoreCommitOk(cfg, s, h, available, now);
      case RaiseStop(target, at, stored, kept) =>
        if stored {
          WorldMove(cfg.clock, s, S.Update(StopPatch(Bucket(target), at), kept));
        }
    }
  }

  lemma {:induction false} ReachedInv(cfg: Config, layout: Layout, moves: seq<Move>)
    requires Possible(cfg, layout, moves)
    ensures Inv(cfg.clock, Reached(cfg, layout, moves))
    decreases |moves|
  {
    if moves != [] {
      var before, m := moves[..|moves| - 1], moves[|moves| - 1];
      ReachedInv(cfg, layout, before);
      MoveKeepsInv(cfg, Reached(cfg, layout, before), m);
    } else {
      S.ReachableInv([]);
    }
  }

  /** End-to-end commit safety. In every interleaving, on every layout, whatever is written to the context and
      however the store comes and goes, each authorization in the log stems from a record such that, unless
      it is of the stop class, every predicate its scope covers was true on every context version from its
      validation snapshot to its commit, including versions whose changes were undone in between. In
      read-set scope these are all the predicates of the intent: the producer's, the policy's and, if a read
      made to fence it was trusted, the fence. */
  lemma CommittedMeansHeld(cfg: Config, layout: Layout, moves: seq<Move>, i: nat)
    requires Possible(cfg, layout, moves)
    requires var log := Reached(cfg, layout, moves).world.store.log; i < |log| && log[i].Authorization?
    ensures var s := Reached(cfg, layout, moves);
            && i in s.commits
            && var c := s.commits[i];
            && s.world.store.log[i].id == c.rec.intent.id && s.world.store.log[i].commitVersion == c.version
            && (c.rec.cls != Stop ==>
                  && 0 <= c.rec.contextVersion <= c.version < |s.world.hist|
                  && (forall e :: e in (if c.scope.ReadSetScope? then c.rec.intent.All() else Registered(c.rec.intent.All())) ==>
                        S.Constant(s.world.hist, e, true, c.rec.contextVersion, c.version))
                  && Governed(s.policies, c.rec.intent) && Composed(cfg.clock, c.rec.intent))
  {
    ReachedInv(cfg, layout, moves);
  }

  /** What the policy asks for held: every predicate that some policy in force during the run asks for the action
      of a committed intent, by its own list or by that of its class, was true on every version from validation
      to commit (in truth scope, unless it is a stop fence, which is not registered). */
  lemma MandatesHeld(cfg: Config, layout: Layout, moves: seq<Move>, i: nat)
    requires Possible(cfg, layout, moves) && i in Reached(cfg, layout, moves).commits
    requires Reached(cfg, layout, moves).commits[i].rec.cls != Stop
    ensures var s := Reached(cfg, layout, moves);
            var c := s.commits[i];
            0 <= c.rec.contextVersion &&
            exists k :: 0 <= k < |s.policies| &&
              forall e :: Asks(s.policies[k], c.rec.intent.action, e) && (c.scope.TruthScope? ==> !IsFence(e)) ==>
                S.Constant(s.world.hist, e, true, c.rec.contextVersion, c.version)
  {
    ReachedInv(cfg, layout, moves);
    var s := Reached(cfg, layout, moves);
    var c := s.commits[i];
    assert CommitOk(s.layout, cfg.clock, s.world, s.policies, c);
    var k :| 0 <= k < |s.policies| && GovernedBy(s.policies[k], c.rec.intent);
    forall e | Asks(s.policies[k], c.rec.intent.action, e) && (c.scope.TruthScope? ==> !IsFence(e))
      ensures S.Constant(s.world.hist, e, true, c.rec.contextVersion, c.version)
    {
      assert e in Covered(c);
    }
  }

  /** Whenever the producer's clock and the store's are within epsilon, a committed record's true age at
      its store time is at most its declared deadline, or without one its window, minus the margin. */
  lemma CommittedAge(cfg: Config, layout: Layout, moves: seq<Move>, i: nat, decided: real, checked: real)
    requires Possible(cfg, layout, moves) && i in Reached(cfg, layout, moves).commits
    requires var c := Reached(cfg, layout, moves).commits[i];
             WithinEpsilon(cfg.clock, c.rec.intent.decision, decided, c.now, checked)
    ensures var c := Reached(cfg, layout, moves).commits[i];
            InTime(c.rec.intent, checked - decided + c.margin)
  {
    ReachedInv(cfg, layout, moves);
    var s := Reached(cfg, layout, moves);
    assert CommitOk(s.layout, cfg.clock, s.world, s.policies, s.commits[i]);
    TrueAgeBound(cfg.clock, s.commits[i].rec.intent, s.commits[i].margin, s.commits[i].now, decided, checked);
  }

  /** An authorization other than a stop is within its freshness window and deadline on its true age. */
  lemma AuthorizedAge(cfg: Config, rt: Tables, rec: Rec, intent: Intent, v: Validation, decided: real, checked: real)
    requires WithinEpsilon(cfg.clock, intent.decision, decided, v.now, checked)
    requires var out := Validated(cfg, rt, rec, intent, v); out.state == Authorized && out.cls != Stop
    ensures checked - decided <= intent.window
    ensures intent.deadline.Some? ==> checked - decided <= intent.deadline.value
  {
    var it := ApplyPolicy(v.policy, intent);
    assert ValidateTime(cfg.clock, it, v.now) == TemporalOk;
    TrueAgeBound(cfg.clock, it, 0.0, v.now, decided, checked);
  }

  // ---------------------------------------------------------------- prefixes of a run

  /** A step only adds to the history; what it commits is committed at the current version. */
  predicate Extends(s: Sys, t: Sys) {
    && s.layout == t.layout && s.world.hist <= t.world.hist && s.world.deltas <= t.world.deltas && s.policies <= t.policies
    && s.world.store.version <= t.world.store.version
    && forall i :: i in t.commits ==>
         (i in s.commits && t.commits[i] == s.commits[i]) || t.commits[i].version >= s.world.store.version
  }

  lemma WorldExtends(s: Sys, step: S.Step, t: Sys)
    requires t.world == S.Do(s.world, step) && t.policies == s.policies && t.commits == s.commits && t.layout == s.layout
    ensures Extends(s, t)
  {
  }

  lemma OffStoreKeeps(cfg: Config, s: Sys, m: Move)
    requires Enabled(s, m) && OffStore(m)
    ensures var t := Next(cfg, s, m);
            && t.world == s.world && t.commits == s.commits && s.policies <= t.policies && t.stopClock == s.stopClock
            && t.layout == s.layout
  {
    match m
    case Submit(h, body, now, stamp) =>
      var t := Submitted(cfg, s, h, Parsed(body), now, stamp);
      assert t == s.(rt := t.rt, handlers := t.handlers);
    case Fence(h, trusted) =>
    case Report(report) =>
    case SetPolicy(policy) =>
    case Validate(h, now, timely, again, timelyAgain) =>
    case BeginCommit(h, id, scope, margin, now) =>
    case Conclude(h) =>
    case Abandon(h) =>
  }

  lemma MoveExtends(cfg: Config, s: Sys, m: Move)
    requires Enabled(s, m)
    ensures Extends(s, Next(cfg, s, m))
  {
    if OffStore(m) {
      OffStoreKeeps(cfg, s, m);
    } else {
      match m
      case Environment(step) => WorldExtends(s, step, Next(cfg, s, m));
      case Initialize(h, stored, kept) =>
        if stored {
          WorldExtends(s, S.Update(StopPatch(Bucket(s.handlers[h].intent.target), 0), kept), Next(cfg, s, m));
        }
      case Read(h, trusted, stamps) =>
        if trusted {
          WorldExtends(s, S.Register(stamps), Next(cfg, s, m));
        }
      case StoreCommit(h, available, now) => assert Extends(s, Stored(cfg, s, h, s.handlers[h], available, now));
      case RaiseStop(target, at, stored, kept) =>
        if stored {
          WorldExtends(s, S.Update(StopPatch(Bucket(target), at), kept), Next(cfg, s, m));
        }
    }
  }

  /** A run extends each of its prefixes. */
  lemma {:induction false} PrefixExtends(cfg: Config, layout: Layout, moves: seq<Move>, n: nat)
    requires Possible(cfg, layout, moves) && n <= |moves|
    ensures Possible(cfg, layout, moves[..n])
    ensures Extends(Reached(cfg, layout, moves[..n]), Reached(cfg, layout, moves))
    decreases |moves|
  {
    if n == |moves| {
      assert moves[..n] == moves;
    } else {
      var before := moves[..|moves| - 1];
      assert before[..n] == moves[..n];
      PrefixExtends(cfg, layout, before, n);
      MoveExtends(cfg, Reached(cfg, layout, before), moves[|moves| - 1]);
    }
  }

  lemma LayoutStays(cfg: Config, layout: Layout, moves: seq<Move>)
    requires Possible(cfg, layout, moves)
    ensures Reached(cfg, layout, moves).layout == layout
  {
    assert moves[..0] == [];
    PrefixExtends(cfg, layout, moves, 0);
  }

  // ---------------------------------------------------------------- why stops are excepted

  /** A stop is authorized with an empty read-set at version 0, so its commit in read-set scope depends on
      its id and its age alone: no predicate it carries is ever checked. */
  lemma StopsCommitUnchecked(cfg: Config, rt: Tables, rec: Rec, intent: Intent, v: Validation, st: S.Store, margin: real, now: real)
    requires ClassOf(v.policy, intent.action) == Stop
    ensures var out := Validated(cfg, rt, rec, intent, v);
            && out.state == Authorized
            && (S.CommitStatus(st, Request(cfg, out, S.ReadSetScope, margin, now)) == S.Committed
                <==> intent.id !in st.committed
                     && -cfg.clock.epsilon <= now - intent.decision <= CommitBound(cfg.clock, intent, margin))
  {
  }
}
