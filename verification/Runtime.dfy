/** Admission, validation and reports on intents, as one state machine.
    Models `XAIRRuntime` (xair/core/runtime.py) with the tables it owns: the records of
    xair/core/lifecycle.py and the target locks of xair/core/coordinator.py. All of it changes under one
    lock, so every call is one step. */
module Runtime {
  import opened Wrappers
  import opened ContextTree
  import opened Predicates
  import opened Versioning
  import opened Lifecycle
  import opened Audit
  import S = Store

  datatype ReleaseDecision = Release | Withhold

  datatype Rec = Rec(
    intent: Intent,
    state: State,
    cls: ActionClass,
    contextVersion: int,
    readSet: set<Path>,
    readVersion: int,
    predicates: seq<Expr>,
    predicateVersion: int,
    release: Option<ReleaseDecision>,
    commitSeq: Option<nat>)

  function Fresh(intent: Intent): Rec { Rec(intent, Created, Other, 0, {}, 0, [], -1, None, None) }

  datatype Metrics = Metrics(
    received: nat, authorized: nat, committed: nat, released: nat, withheld: nat,
    confirmed: nat, failed: nat, unknown: nat, revoked: nat, delayed: nat, degraded: nat)

  datatype Admission = Admission(id: Id, at: real)

  /** The tables: records, idempotency window (oldest first), held targets, installed context, counters,
      audit trail, and the intents handed to the actuation callback. */
  datatype Tables = Tables(
    records: map<Id, Rec>,
    seen: seq<Admission>,
    held: set<Target>,
    context: Tree,
    installed: nat,
    metrics: Metrics,
    audit: Trail,
    actuated: seq<Id>)

  const NO_TABLES := Tables(map[], [], {}, EMPTY, 0, Metrics(0, 0, 0, 0, 0, 0, 0, 0, 0, 0, 0), [], [])

  datatype Config = Config(retention: real, clock: Clock)

  // ---------------------------------------------------------------- operations

  /** Register or move a record; the trail says so. */
  function Enter(rt: Tables, id: Id, rec: Rec): Tables {
    rt.(records := rt.records[id := rec], audit := rt.audit + [Entered(id, rec.state)])
  }

  predicate IsSeen(seen: seq<Admission>, id: Id) { exists i :: 0 <= i < |seen| && seen[i].id == id }

  /** Assignment to an ordered dictionary: a key keeps its place, a new one goes last. */
  function Put(seen: seq<Admission>, id: Id, at: real): seq<Admission> {
    if seen == [] then [Admission(id, at)]
    else if seen[0].id == id then [Admission(id, at)] + seen[1..]
    else [seen[0]] + Put(seen[1..], id, at)
  }

  function Forget(records: map<Id, Rec>, id: Id): map<Id, Rec> {
    if id in records && Settled(records[id].state) then records - {id} else records
  }

  function PopOldest(rt: Tables): Tables
    requires rt.seen != []
  {
    rt.(seen := rt.seen[1..], records := Forget(rt.records, rt.seen[0].id))
  }

  /** Evict from the front while the oldest admission is older than the horizon. */
  function ExpireSeen(rt: Tables, horizon: real): Tables
    decreases |rt.seen|
  {
    if rt.seen == [] || rt.seen[0].at >= horizon then rt else ExpireSeen(PopOldest(rt), horizon)
  }

  /** What an admission does after its eviction. */
  function Admitted(e: Tables, intent: Intent, stamp: real): Tables {
    if IsSeen(e.seen, intent.id) && intent.id in e.records then e
    else
      Enter(e.(seen := Put(e.seen, intent.id, stamp), metrics := e.metrics.(received := e.metrics.received + 1)),
            intent.id, Fresh(intent))
  }

  /** Admission at `now`, stamped at `stamp`: once per retention window. */
  function Admit(cfg: Config, rt: Tables, intent: Intent, now: real, stamp: real): Tables {
    Admitted(ExpireSeen(rt, now - cfg.retention), intent, stamp)
  }

  function Install(rt: Tables, ctx: Tree, version: nat, replace: bool): Tables {
    if version < rt.installed then rt
    else rt.(installed := version, context := if replace then ctx else Merge(rt.context, ctx))
  }

  /** What a validation is given: the policy in force, the snapshot read from the store (none: the
      installed context), a clock reading, and whether evaluation stayed within its time budget. */
  datatype Validation = Validation(policy: Policy, doc: Option<S.Snapshot>, now: real, timely: bool)

  ghost function Checked(rec: Rec, it: Intent, cls: ActionClass, installed: nat, doc: Option<S.Snapshot>): Rec {
    rec.(intent := it, cls := cls,
         contextVersion := if doc.Some? then doc.value.version else installed,
         readSet := ReadSetOf(it.All()),
         readVersion := if doc.Some? then ReadSetVersion(doc.value.pv, ReadSetOf(it.All())) else installed,
         predicates := Registered(it.All()),
         predicateVersion := if doc.Some? then PredicateVersion(doc.value.preds, Registered(it.All())) else -1)
  }

  function Bumped(m: Metrics, s: State): Metrics {
    Metrics(m.received, m.authorized + One(s == Authorized), m.committed + One(s == Committed),
            m.released + One(s == Released), m.withheld + One(s == Withheld), m.confirmed + One(s == EffectConfirmed),
            m.failed + One(s == Failed), m.unknown + One(s == UnknownEffect), m.revoked + One(s == Revoked || s == Expired),
            m.delayed + One(s == Delayed), m.degraded + One(s == Degraded))
  }

  function One(b: bool): nat { if b then 1 else 0 }

  /** Move a record and count it; a released intent is handed to the actuation callback. */
  function Advance(rt: Tables, id: Id, rec: Rec): Tables {
    Enter(rt, id, rec).(
      metrics := Bumped(rt.metrics, rec.state),
      actuated := if rec.state == Released then rt.actuated + [id] else rt.actuated)
  }

  /** The verdict on an intent the policy was applied to. */
  function VerdictOn(cfg: Config, rt: Tables, it: Intent, v: Validation): Outcome {
    Decide(ValidateTime(cfg.clock, it, v.now),
           v.timely && AllTrue(it.All(), if v.doc.Some? then v.doc.value.ctx else rt.context),
           it.target in rt.held, it.degradable)
  }

  /** The record a validation ends with. */
  ghost function Validated(cfg: Config, rt: Tables, rec: Rec, intent: Intent, v: Validation): Rec {
    var cls := ClassOf(v.policy, intent.action);
    if cls == Stop then
      rec.(intent := intent.(policyAdded := Some([])), state := Authorized, cls := cls, contextVersion := rt.installed,
           readSet := {}, readVersion := 0, predicates := [])
    else if v.doc.Some? && v.doc.value.version < rt.installed then
      rec.(intent := intent, state := Revoked, cls := cls, contextVersion := rt.installed)
    else
      var it := ApplyPolicy(v.policy, intent);
      Concluded(Checked(rec, it, cls, rt.installed, v.doc), VerdictOn(cfg, rt, it, v))
  }

  /** A verdict, entered in the record; a degraded intent drops its degradation policy. */
  function Concluded(rec: Rec, verdict: Outcome): Rec {
    match verdict
    case Degrade => rec.(intent := rec.intent.(degradable := false), state := Degraded)
    case Execute => rec.(state := Authorized)
    case Delay => rec.(state := Delayed)
    case Revoke(expired) => rec.(state := if expired then Expired else Revoked)
  }

  function Begin(rt: Tables, intent: Intent): Tables {
    if intent.id in rt.records then rt else Enter(rt, intent.id, Fresh(intent))
  }

  /** The record passes through PENDING and VALIDATING. */
  function Checking(rt: Tables, id: Id, rec: Rec): Tables {
    Enter(Enter(rt, id, rec.(state := Pending)), id, rec.(state := Validating))
  }

  /** An authorization takes the lock on its target, unless it is a stop. */
  function Locking(held: set<Target>, rec: Rec): set<Target> {
    if rec.state == Authorized && rec.cls != Stop then held + {rec.intent.target} else held
  }

  /** One validation pass. The record and the caller share the intent, which the caller may have fenced. */
  ghost function Process(cfg: Config, rt: Tables, intent: Intent, v: Validation): Tables {
    var id := intent.id;
    var known := Begin(rt, intent);
    var rec := known.records[id];
    if !Validatable(rec.state) then rt
    else
      var out := Validated(cfg, rt, rec, intent, v);
      Advance(Checking(known, id, rec).(held := Locking(rt.held, out)), id, out)
  }

  datatype Reply = Done | NotFound | Refused

  /** A report the life cycle refuses is only audited. */
  function Reject(rt: Tables, id: Id): Tables { rt.(audit := rt.audit + [Noted(id)]) }

  /** Drop the lock on the intent's target, whoever holds it. */
  function Unlock(rt: Tables, id: Id): Tables
    requires id in rt.records
  {
    rt.(held := rt.held - {rt.records[id].intent.target})
  }

  function RecordCommit(rt: Tables, id: Id, committed: bool, seqNo: Option<nat>): (Tables, Reply) {
    if id !in rt.records then (rt, NotFound)
    else
      var rec := rt.records[id];
      if committed && rec.state == Committed then (rt, Done)
      else if !committed && rec.state == Withheld && rec.release == Some(Withhold) then (rt, Done)
      else if rec.state != Authorized then (Reject(rt, id), Refused)
      else if committed then (Advance(Unlock(rt, id), id, rec.(state := Committed, commitSeq := seqNo)), Done)
      else (Advance(Unlock(rt, id), id, rec.(state := Withheld, release := Some(Withhold))), Done)
  }

  /** A release reported from AUTHORIZED with a version that differs from the validated one is withheld. */
  predicate GateMoved(rec: Rec, contextVersion: Option<int>, readVersion: Option<int>) {
    rec.state == Authorized
    && if readVersion.Some? then readVersion.value != rec.readVersion
       else contextVersion.Some? && contextVersion.value != rec.contextVersion
  }

  function ReportRelease(rt: Tables, id: Id, released: bool, contextVersion: Option<int>, readVersion: Option<int>)
    : (Tables, Reply)
  {
    if id !in rt.records then (rt, NotFound)
    else
      var rec := rt.records[id];
      if !released && rec.state == Revoked then (rt, Done)
      else if rec.release.Some? then (if rec.release.value == (if released then Release else Withhold) then (rt, Done) else (Reject(rt, id), Refused))
      else if rec.state != Authorized && rec.state != Committed then (Reject(rt, id), Refused)
      else if released && !GateMoved(rec, contextVersion, readVersion) then
        (Advance(Unlock(rt, id), id, rec.(state := Released, release := Some(Release))), Done)
      else (Advance(Unlock(rt, id), id, rec.(state := Withheld, release := Some(Withhold))), Done)
  }

  datatype Effect = ConfirmedEffect | FailedEffect | NoFeedback

  function EffectState(effect: Effect): State {
    match effect
    case ConfirmedEffect => EffectConfirmed
    case FailedEffect => Failed
    case NoFeedback => UnknownEffect
  }

  function ReportEffect(rt: Tables, id: Id, effect: Effect): (Tables, Reply) {
    if id !in rt.records then (rt, NotFound)
    else
      var rec := rt.records[id];
      var target := EffectState(effect);
      if rec.state == target then (rt, Done)
      else if target !in Allowed(rec.state) then (Reject(rt, id), Refused)
      else (Advance(rt, id, rec.(state := target)), Done)
  }

  function SupervisoryRevoke(rt: Tables, id: Id): (Tables, Reply) {
    if id !in rt.records then (rt, NotFound)
    else
      var rec := rt.records[id];
      if Revoked !in Allowed(rec.state) then (rt, Refused)
      else (Enter(Unlock(rt, id), id, rec.(state := Revoked)), Done)
  }

  /** The ingress revokes an intent it does not validate; no lock is involved. */
  function Discard(rt: Tables, id: Id): (Tables, Reply) {
    if id !in rt.records then (rt, NotFound)
    else if Revoked !in Allowed(rt.records[id].state) then (rt, Refused)
    else (Enter(rt, id, rt.records[id].(state := Revoked)), Done)
  }

  // ---------------------------------------------------------------- runs

  datatype Step =
    | AdmitStep(intent: Intent, now: real, stamp: real)
    | ExpireStep(now: real)
    | InstallStep(ctx: Tree, version: nat, replace: bool)
    | ProcessStep(intent: Intent, v: Validation)
    | CommitStep(id: Id, committed: bool, seqNo: Option<nat>)
    | ReleaseStep(id: Id, released: bool, contextVersion: Option<int>, readVersion: Option<int>)
    | EffectStep(id: Id, effect: Effect)
    | RevokeStep(id: Id)
    | DiscardStep(id: Id)

  ghost function Do(cfg: Config, rt: Tables, step: Step): Tables {
    match step
    case AdmitStep(intent, now, stamp) => Admit(cfg, rt, intent, now, stamp)
    case ExpireStep(now) => ExpireSeen(rt, now - cfg.retention)
    case InstallStep(ctx, version, replace) => Install(rt, ctx, version, replace)
    case ProcessStep(intent, v) => Process(cfg, rt, intent, v)
    case CommitStep(id, committed, seqNo) => RecordCommit(rt, id, committed, seqNo).0
    case ReleaseStep(id, released, cv, rv) => ReportRelease(rt, id, released, cv, rv).0
    case EffectStep(id, effect) => ReportEffect(rt, id, effect).0
    case RevokeStep(id) => SupervisoryRevoke(rt, id).0
    case DiscardStep(id) => Discard(rt, id).0
  }

  ghost function Run(cfg: Config, steps: seq<Step>): Tables
    decreases |steps|
  {
    if steps == [] then NO_TABLES else Do(cfg, Run(cfg, steps[..|steps| - 1]), steps[|steps| - 1])
  }

  lemma RunSnoc(cfg: Config, steps: seq<Step>, step: Step)
    ensures Run(cfg, steps + [step]) == Do(cfg, Run(cfg, steps), step)
  {
  }

  // ---------------------------------------------------------------- the trail is right

  /** The trail is legal, every record is in its latest state, and only settled records are gone. */
  predicate Audited(records: map<Id, Rec>, t: Trail) {
    && Legal(t)
    && (forall id :: id in records ==> id in Latest(t) && Latest(t)[id] == records[id].state)
    && (forall id :: id in Latest(t) && id !in records ==> Settled(Latest(t)[id]))
  }

  /** The counter of a state. */
  function Counter(m: Metrics, s: State): nat {
    match s
    case Authorized => m.authorized
    case Committed => m.committed
    case Released => m.released
    case Withheld => m.withheld
    case EffectConfirmed => m.confirmed
    case Failed => m.failed
    case UnknownEffect => m.unknown
    case Delayed => m.delayed
    case Degraded => m.degraded
    case _ => 0
  }

  /** States whose entry has no counter of its own and is not handed to the callback. */
  const UNCOUNTED: set<State> := {Created, Pending, Validating, Revoked, Expired}

  /** The counters count what the trail records, and the callback got exactly the released intents. */
  predicate Counted(m: Metrics, t: Trail, actuated: seq<Id>) {
    && (forall s :: s !in UNCOUNTED ==> Counter(m, s) == Entries(t, s))
    && actuated == Entrants(t, Released)
  }

  /** A release decision is recorded exactly on the records that were released or withheld. */
  predicate Consistent(id: Id, rec: Rec) {
    && rec.intent.id == id
    && (rec.release == Some(Release) <==> rec.state in RELEASED_STATES)
    && (rec.release == Some(Withhold) <==> rec.state == Withheld)
  }

  predicate Recorded(records: map<Id, Rec>) {
    forall id :: id in records ==> Consistent(id, records[id])
  }

  predicate Sound(rt: Tables) {
    Audited(rt.records, rt.audit) && Counted(rt.metrics, rt.audit, rt.actuated) && Recorded(rt.records)
  }

  predicate MayEnter(records: map<Id, Rec>, id: Id, s: State) {
    s == Created || (id in records && s in Allowed(records[id].state))
  }

  lemma EnterAudited(records: map<Id, Rec>, t: Trail, id: Id, rec: Rec)
    requires Audited(records, t) && MayEnter(records, id, rec.state)
    ensures Audited(records[id := rec], t + [Entered(id, rec.state)])
  {
  }

  lemma RejectSound(rt: Tables, id: Id)
    requires Sound(rt)
    ensures Sound(Reject(rt, id))
  {
  }

  /** Moving one record along the transition table keeps the tables sound. */
  lemma EnterSound(rt: Tables, id: Id, rec: Rec)
    requires Sound(rt) && Consistent(id, rec) && MayEnter(rt.records, id, rec.state)
    requires rec.state in UNCOUNTED
    ensures Sound(Enter(rt, id, rec))
  {
    EnterAudited(rt.records, rt.audit, id, rec);
    forall x | x !in UNCOUNTED ensures Counter(rt.metrics, x) == Entries(rt.audit + [Entered(id, rec.state)], x) {
      assert Entries(rt.audit + [Entered(id, rec.state)], x) == Entries(rt.audit, x) + if rec.state == x then 1 else 0;
      assert Entrants(rt.audit + [Entered(id, rec.state)], x) == Entrants(rt.audit, x) + if rec.state == x then [id] else [];
    }
    var more := rt.audit + [Entered(id, rec.state)];
    assert Entries(more, Released) == Entries(rt.audit, Released) + if rec.state == Released then 1 else 0;
    assert Entrants(more, Released) == Entrants(rt.audit, Released) + if rec.state == Released then [id] else [];
  }

  lemma AdvanceSound(rt: Tables, id: Id, rec: Rec)
    requires Sound(rt) && Consistent(id, rec) && MayEnter(rt.records, id, rec.state)
    ensures Sound(Advance(rt, id, rec))
  {
    EnterAudited(rt.records, rt.audit, id, rec);
  }

  lemma {:induction false} ExpireSound(rt: Tables, horizon: real)
    requires Sound(rt)
    ensures Sound(ExpireSeen(rt, horizon))
    decreases |rt.seen|
  {
    if rt.seen != [] && rt.seen[0].at < horizon {
      ExpireSound(PopOldest(rt), horizon);
    }
  }

  lemma ConcludedCases(rec: Rec, verdict: Outcome)
    ensures var out := Concluded(rec, verdict);
            && out.release == rec.release && out.cls == rec.cls
            && out.intent.id == rec.intent.id && out.intent.target == rec.intent.target
            && out.state in Allowed(Validating) && (out.state == Authorized <==> verdict.Execute?)
  {
  }

  /** What every validation guarantees about the record it ends with. */
  lemma ValidatedCases(cfg: Config, rt: Tables, rec: Rec, intent: Intent, v: Validation)
    ensures var out := Validated(cfg, rt, rec, intent, v);
            && out.release == rec.release && out.cls == ClassOf(v.policy, intent.action)
            && out.intent.id == intent.id && out.state in Allowed(Validating)
            && (out.state == Authorized && out.cls != Stop ==> out.intent.target !in rt.held)
  {
    var it := ApplyPolicy(v.policy, intent);
    assert it.id == intent.id;
    ConcludedCases(Checked(rec, it, ClassOf(v.policy, intent.action), rt.installed, v.doc), VerdictOn(cfg, rt, it, v));
    if VerdictOn(cfg, rt, it, v).Execute? {
      assert it.target !in rt.held;
    }
  }

  /** A validation reads the locks and the installed context, nothing else. */
  lemma ValidatedSame(cfg: Config, a: Tables, b: Tables, rec: Rec, intent: Intent, v: Validation)
    requires a.held == b.held && a.context == b.context && a.installed == b.installed
    ensures Validated(cfg, a, rec, intent, v) == Validated(cfg, b, rec, intent, v)
  {
  }

  lemma ConsistentFrom(id: Id, rec: Rec, out: Rec)
    requires Consistent(id, rec) && Validatable(rec.state)
    requires out.release == rec.release && out.intent.id == id && out.state in Allowed(Validating)
    ensures Consistent(id, out)
  {
  }

  lemma MoveSound(rt: Tables, id: Id, rec: Rec, s: State)
    requires Sound(rt) && id in rt.records && rt.records[id].state == rec.state && Consistent(id, rec)
    requires rec.release.None? && s in {Pending, Validating} && s in Allowed(rec.state)
    ensures Sound(Enter(rt, id, rec.(state := s))) && Consistent(id, rec.(state := s))
    ensures id in Enter(rt, id, rec.(state := s)).records && Enter(rt, id, rec.(state := s)).records[id] == rec.(state := s)
  {
    EnterSound(rt, id, rec.(state := s));
  }

  lemma ThenValidating(rt: Tables, id: Id, rec: Rec)
    requires Sound(rt) && id in rt.records && rt.records[id] == rec && rec.state == Pending
    ensures Sound(Enter(rt, id, rec.(state := Validating)))
  {
    assert Consistent(id, rec);
    OpenIsUndecided(id, rec);
    MoveSound(rt, id, rec, Validating);
  }

  /** A validation replaces one record, or does nothing. */
  lemma ProcessRecords(cfg: Config, rt: Tables, it: Intent, v: Validation)
    ensures var out, rec := Process(cfg, rt, it, v), Begin(rt, it).records[it.id];
            if Validatable(rec.state) then
              && out.records == rt.records[it.id := Validated(cfg, rt, rec, it, v)]
              && out.held == Locking(rt.held, Validated(cfg, rt, rec, it, v))
            else out == rt && it.id in rt.records && rec == rt.records[it.id]
  {
    var rec := Begin(rt, it).records[it.id];
    if Validatable(rec.state) {
      assert Process(cfg, rt, it, v).records == rt.records[it.id := Validated(cfg, rt, rec, it, v)];
    }
  }

  lemma ProcessSound(cfg: Config, rt: Tables, intent: Intent, v: Validation)
    requires Sound(rt)
    ensures Sound(Process(cfg, rt, intent, v))
  {
    var id, known := intent.id, Begin(rt, intent);
    if intent.id !in rt.records {
      EnterSound(rt, intent.id, Fresh(intent));
    }
    var rec := known.records[id];
    if Validatable(rec.state) {
      assert Consistent(id, rec);
      OpenIsUndecided(id, rec);
      MoveSound(known, id, rec, Pending);
      ThenValidating(Enter(known, id, rec.(state := Pending)), id, rec.(state := Pending));
      ValidatedCases(cfg, rt, rec, intent, v);
      ConsistentFrom(intent.id, rec, Validated(cfg, rt, rec, intent, v));
      var out := Validated(cfg, rt, rec, intent, v);
      AdvanceSound(Checking(known, id, rec).(held := Locking(rt.held, out)), id, out);
    }
  }

  lemma CommitIs(rt: Tables, id: Id, committed: bool, seqNo: Option<nat>)
    ensures var out := RecordCommit(rt, id, committed, seqNo).0;
            if id in rt.records && rt.records[id].state == Authorized then
              out == Advance(Unlock(rt, id), id,
                             if committed then rt.records[id].(state := Committed, commitSeq := seqNo)
                             else rt.records[id].(state := Withheld, release := Some(Withhold)))
            else out == rt || out == Reject(rt, id)
  {
  }

  lemma CommitSound(rt: Tables, id: Id, committed: bool, seqNo: Option<nat>)
    requires Sound(rt)
    ensures Sound(RecordCommit(rt, id, committed, seqNo).0)
  {
    CommitIs(rt, id, committed, seqNo);
    if id in rt.records && rt.records[id].state == Authorized {
      var rec := rt.records[id];
      OpenIsUndecided(id, rec);
      SettleSound(rt, id, if committed then rec.(state := Committed, commitSeq := seqNo)
                          else rec.(state := Withheld, release := Some(Withhold)));
    } else {
      RejectSound(rt, id);
    }
  }

  lemma OpenIsUndecided(id: Id, rec: Rec)
    requires Consistent(id, rec) && rec.state !in RELEASED_STATES && rec.state != Withheld
    ensures rec.release.None?
  {
    DecisionCases(rec.release);
  }

  lemma SettleSound(rt: Tables, id: Id, rec: Rec)
    requires Sound(rt) && id in rt.records && Consistent(id, rec) && rec.state in Allowed(rt.records[id].state)
    ensures Sound(Advance(Unlock(rt, id), id, rec))
  {
    AdvanceSound(Unlock(rt, id), id, rec);
  }

  lemma ReleaseIs(rt: Tables, id: Id, released: bool, cv: Option<int>, rv: Option<int>)
    ensures var out := ReportRelease(rt, id, released, cv, rv).0;
            if id in rt.records && rt.records[id].state in OPEN && rt.records[id].release.None? then
              out == Advance(Unlock(rt, id), id,
                             if released && !GateMoved(rt.records[id], cv, rv)
                             then rt.records[id].(state := Released, release := Some(Release))
                             else rt.records[id].(state := Withheld, release := Some(Withhold)))
            else out == rt || out == Reject(rt, id)
  {
  }

  lemma DecisionCases(d: Option<ReleaseDecision>)
    ensures d.None? || d == Some(Release) || d == Some(Withhold)
  {
    assert d.Some? ==> d.value == Release || d.value == Withhold;
  }

  lemma ReleaseSound(rt: Tables, id: Id, released: bool, cv: Option<int>, rv: Option<int>)
    requires Sound(rt)
    ensures Sound(ReportRelease(rt, id, released, cv, rv).0)
  {
    ReleaseIs(rt, id, released, cv, rv);
    if id in rt.records && rt.records[id].state in OPEN {
      var rec := rt.records[id];
      OpenIsUndecided(id, rec);
      SettleSound(rt, id, if released && !GateMoved(rec, cv, rv) then rec.(state := Released, release := Some(Release))
                          else rec.(state := Withheld, release := Some(Withhold)));
    } else {
      RejectSound(rt, id);
    }
  }

  lemma EffectSound(rt: Tables, id: Id, effect: Effect)
    requires Sound(rt)
    ensures Sound(ReportEffect(rt, id, effect).0)
  {
    if id in rt.records && EffectState(effect) in Allowed(rt.records[id].state) {
      AdvanceSound(rt, id, rt.records[id].(state := EffectState(effect)));
    } else {
      RejectSound(rt, id);
    }
  }

  lemma RevokeSound(rt: Tables, id: Id)
    requires Sound(rt)
    ensures Sound(SupervisoryRevoke(rt, id).0) && Sound(Discard(rt, id).0)
  {
    if id in rt.records && Revoked in Allowed(rt.records[id].state) {
      EnterSound(Unlock(rt, id), id, rt.records[id].(state := Revoked));
      EnterSound(rt, id, rt.records[id].(state := Revoked));
    }
  }

  lemma RegisteredSound(rt: Tables, intent: Intent, seen: seq<Admission>, out: Tables)
    requires Sound(rt)
    requires out == Enter(rt.(seen := seen, metrics := rt.metrics.(received := rt.metrics.received + 1)), intent.id, Fresh(intent))
    ensures Sound(out)
  {
    EnterSound(rt.(seen := seen, metrics := rt.metrics.(received := rt.metrics.received + 1)), intent.id, Fresh(intent));
  }

  lemma AdmittedSound(e: Tables, intent: Intent, stamp: real)
    requires Sound(e)
    ensures Sound(Admitted(e, intent, stamp))
  {
    var out := Admitted(e, intent, stamp);
    if !(IsSeen(e.seen, intent.id) && intent.id in e.records) {
      RegisteredSound(e, intent, Put(e.seen, intent.id, stamp), out);
    }
    assert Sound(out);
  }

  lemma ExpiredThenAdmitted(rt: Tables, horizon: real, intent: Intent, stamp: real, out: Tables)
    requires Sound(rt) && out == Admitted(ExpireSeen(rt, horizon), intent, stamp)
    ensures Sound(out)
  {
    ExpireSound(rt, horizon);
    AdmittedSound(ExpireSeen(rt, horizon), intent, stamp);
  }

  lemma StepSound(cfg: Config, rt: Tables, step: Step)
    requires Sound(rt)
    ensures Sound(Do(cfg, rt, step))
  {
    match step
    case AdmitStep(intent, now, stamp) =>
      ExpiredThenAdmitted(rt, now - cfg.retention, intent, stamp, Admit(cfg, rt, intent, now, stamp));
    case ExpireStep(now) => ExpireSound(rt, now - cfg.retention);
    case InstallStep(_, _, _) =>
    case ProcessStep(intent, v) => ProcessSound(cfg, rt, intent, v);
    case CommitStep(id, committed, seqNo) => CommitSound(rt, id, committed, seqNo);
    case ReleaseStep(id, released, cv, rv) => ReleaseSound(rt, id, released, cv, rv);
    case EffectStep(id, effect) => EffectSound(rt, id, effect);
    case RevokeStep(id) => RevokeSound(rt, id);
    case DiscardStep(id) => RevokeSound(rt, id);
  }

  /** What every run keeps, under arbitrary replays and conflicting reports. */
  lemma {:induction false} RunSound(cfg: Config, steps: seq<Step>)
    ensures Sound(Run(cfg, steps))
    decreases |steps|
  {
    if steps != [] {
      RunSound(cfg, steps[..|steps| - 1]);
      StepSound(cfg, Run(cfg, steps[..|steps| - 1]), steps[|steps| - 1]);
    }
  }

  /** The states of the records that exist. */
  function States(rt: Tables): map<Id, State> { map id | id in rt.records :: rt.records[id].state }

  /** Conservation, on every run: an authorization is open, released, withheld, revoked before its commit,
      or its record was replaced by a new registration of the id while it was open. */
  lemma Conservation(cfg: Config, steps: seq<Step>)
    ensures var rt := Run(cfg, steps);
            && rt.metrics.authorized
               == Count(States(rt), OPEN) + rt.metrics.released + rt.metrics.withheld
                  + Edges(rt.audit, {Authorized}, Revoked) + Edges(rt.audit, OPEN, Created)
            && rt.metrics.released == Count(Latest(rt.audit), RELEASED_STATES) + Edges(rt.audit, RELEASED_STATES, Created)
            && rt.metrics.withheld == Count(Latest(rt.audit), {Withheld}) + Edges(rt.audit, {Withheld}, Created)
            && |rt.actuated| == rt.metrics.released
  {
    RunSound(cfg, steps);
    CountersAre(Run(cfg, steps).metrics, Run(cfg, steps).audit, Run(cfg, steps).actuated);
    AuthorizationsBalance(Run(cfg, steps).audit);
    OutcomesBalance(Run(cfg, steps).audit);
    OpenAreRecords(Run(cfg, steps));
  }

  lemma CountersAre(m: Metrics, t: Trail, actuated: seq<Id>)
    requires Counted(m, t, actuated)
    ensures m.authorized == Entries(t, Authorized) && m.withheld == Entries(t, Withheld)
    ensures m.released == Entries(t, Released) == |actuated|
  {
    assert Counter(m, Authorized) == Entries(t, Authorized);
    assert Counter(m, Withheld) == Entries(t, Withheld);
    assert Counter(m, Released) == Entries(t, Released);
    EntrantsLength(t, Released);
  }

  /** Every open intent has a record: only settled ones are forgotten. */
  lemma OpenAreRecords(rt: Tables)
    requires Audited(rt.records, rt.audit)
    ensures Count(States(rt), OPEN) == Count(Latest(rt.audit), OPEN)
  {
    CountSame(States(rt), Latest(rt.audit), OPEN);
  }

  lemma {:induction false} EntrantsLength(t: Trail, s: State)
    ensures |Entrants(t, s)| == Entries(t, s)
    decreases |t|
  {
    if t != [] {
      EntrantsLength(t[..|t| - 1], s);
    }
  }

  /** What the state of a record says about the trail since its registration. */
  lemma WalkOutcome(p: seq<State>)
    requires Walk(p) && |p| > 0 && p[0] == Created
    ensures Released in p <==> p[|p| - 1] in RELEASED_STATES
    ensures Withheld in p <==> p[|p| - 1] == Withheld
  {
    StaysOut(p);
    WalkOnce(p);
    EffectsFollowRelease(p);
    if p[|p| - 1] in {Revoked, Expired} {
      assert |p| > 1 && p[|p| - 1] in Allowed(p[|p| - 2]);
      StaysOut(p[..|p| - 1]);
      assert p == p[..|p| - 1] + [p[|p| - 1]];
    }
  }

  /** On every run, each registration is authorized, committed and released at most once, an effect is
      recorded only after a release, and the recorded decision says which way it went. */
  lemma ReportsAreOnce(cfg: Config, steps: seq<Step>, id: Id)
    requires id in Run(cfg, steps).records
    ensures var rt := Run(cfg, steps);
            var p := Since(rt.audit, id);
            && p != [] && p[|p| - 1] == rt.records[id].state
            && Once(p, Authorized) && Once(p, Committed) && Once(p, Released)
            && (Released in p <==> rt.records[id].release == Some(Release))
            && (Withheld in p <==> rt.records[id].release == Some(Withhold))
            && (rt.records[id].state in {EffectConfirmed, Failed, UnknownEffect} ==> Released in p)
  {
    RunSound(cfg, steps);
    var t := Run(cfg, steps).audit;
    SinceIsWalk(t, id);
    WalkOnce(Since(t, id));
    WalkOutcome(Since(t, id));
  }

  // ---------------------------------------------------------------- what outcomes mean

  /** The intent is neither a stop nor checked on a stale snapshot, so its outcome is decided. */
  predicate IsDecided(rt: Tables, intent: Intent, v: Validation) {
    ClassOf(v.policy, intent.action) != Stop && !(v.doc.Some? && v.doc.value.version < rt.installed)
  }

  /** Only an admissible intent is authorized, degraded or delayed: delayed exactly if its target is busy.
      It expires exactly if it is fresh but past its deadline. */
  lemma OutcomeMeans(cfg: Config, rt: Tables, rec: Rec, intent: Intent, v: Validation)
    requires IsDecided(rt, intent, v)
    ensures var it, state := ApplyPolicy(v.policy, intent), Validated(cfg, rt, rec, intent, v).state;
            var admissible := ValidateTime(cfg.clock, it, v.now) == TemporalOk && v.timely
                              && AllTrue(it.All(), if v.doc.Some? then v.doc.value.ctx else rt.context);
            && (state in {Authorized, Degraded, Delayed} <==> admissible)
            && (state == Delayed <==> admissible && intent.target in rt.held)
            && (state == Degraded <==> admissible && intent.target !in rt.held && intent.degradable)
            && (state == Expired <==> ValidateTime(cfg.clock, it, v.now) == DeadlineExceeded)
  {
    var it := ApplyPolicy(v.policy, intent);
    assert it.target == intent.target && it.degradable == intent.degradable;
    ConcludedCases(Checked(rec, it, ClassOf(v.policy, intent.action), rt.installed, v.doc), VerdictOn(cfg, rt, it, v));
  }

  /** A report makes a record released only if it says so, from an open state, and, from AUTHORIZED, with
      the versions recorded at validation as far as it gives any. */
  lemma ReleaseNeedsSameVersion(rt: Tables, id: Id, released: bool, cv: Option<int>, rv: Option<int>)
    requires id in rt.records && Consistent(id, rt.records[id]) && rt.records[id].state != Released
    ensures var out := ReportRelease(rt, id, released, cv, rv).0;
            var rec := rt.records[id];
            id in out.records
            && (out.records[id].state == Released <==>
                  released && (rec.state == Committed
                               || (rec.state == Authorized
                                   && (rv.Some? ==> rv.value == rec.readVersion)
                                   && (rv.None? && cv.Some? ==> cv.value == rec.contextVersion))))
  {
    ReleaseIs(rt, id, released, cv, rv);
    if rt.records[id].state in OPEN {
      OpenIsUndecided(id, rt.records[id]);
    }
  }

  /** What an effect report does, exactly: a released intent, or one whose effect is unknown, takes the reported
      effect; a repeated report is answered; any other is refused. No other record changes. */
  lemma EffectMeans(rt: Tables, id: Id, effect: Effect)
    requires id in rt.records
    ensures var (out, reply) := ReportEffect(rt, id, effect);
            var was := rt.records[id].state;
            && (reply == Done <==>
                  || was in {Released, UnknownEffect}
                  || (was == EffectConfirmed && effect == ConfirmedEffect) || (was == Failed && effect == FailedEffect))
            && (reply == Done ==> out.records == rt.records[id := rt.records[id].(state :=
                  if effect == ConfirmedEffect then EffectConfirmed else if effect == FailedEffect then Failed else UnknownEffect)])
            && (reply != Done ==> reply == Refused && out.records == rt.records)
  {
    var was := rt.records[id].state;
    assert EffectState(effect) in Allowed(was) <==> was == Released || (was == UnknownEffect && effect != NoFeedback);
  }

  /** The counter of an effect counts the records that enter it. */
  lemma EffectCounted(rt: Tables, id: Id, effect: Effect)
    requires id in rt.records && rt.records[id].state == Released
    ensures var m, n := rt.metrics, ReportEffect(rt, id, effect).0.metrics;
            && n.confirmed == m.confirmed + (if effect == ConfirmedEffect then 1 else 0)
            && n.failed == m.failed + (if effect == FailedEffect then 1 else 0)
            && n.unknown == m.unknown + (if effect == NoFeedback then 1 else 0)
  {
    assert EffectState(effect) in Allowed(Released);
  }
}
