/** Intents, their life cycle, and the decision taken on one at validation.
    Models xair/core/lifecycle.py, xair/core/temporal_validator.py, xair/core/execution_decision.py,
    xair/core/coordinator.py and the policy part of xair/core/runtime.py. */
module Lifecycle {
  import opened Wrappers
  import opened ContextTree
  import opened Predicates
  import opened Versioning

  type Id = string
  type Target = string

  // ---------------------------------------------------------------- states

  datatype State =
    | Created | Pending | Validating
    | Authorized | Delayed | Degraded | Revoked | Expired
    | Committed | Released | Withheld
    | EffectConfirmed | Failed | UnknownEffect

  /** The admissible transitions. */
  function Allowed(s: State): set<State> {
    match s
    case Created => {Pending, Revoked}
    case Pending => {Validating, Revoked}
    case Validating => {Authorized, Delayed, Degraded, Revoked, Expired}
    case Delayed => {Pending, Revoked, Expired}
    case Degraded => {Pending, Revoked, Expired}
    case Authorized => {Committed, Released, Withheld, Revoked}
    case Committed => {Released, Withheld}
    case Released => {EffectConfirmed, Failed, UnknownEffect}
    case UnknownEffect => {EffectConfirmed, Failed}
    case _ => {}
  }

  const RELEASED_STATES: set<State> := {Released, EffectConfirmed, Failed, UnknownEffect}

  predicate IsTerminal(s: State) { Allowed(s) == {} }

  /** States whose record may be forgotten after the idempotency window. */
  predicate Settled(s: State) { IsTerminal(s) || s == UnknownEffect }

  predicate Validatable(s: State) { s == Created || s == Delayed || s == Degraded }

  /** Reachability in the transition relation. */
  ghost predicate Walk(states: seq<State>) {
    forall i :: 0 <= i < |states| - 1 ==> states[i + 1] in Allowed(states[i])
  }

  predicate BeforeRelease(s: State) {
    s in {Created, Pending, Validating, Authorized, Delayed, Degraded, Committed}
  }

  /** An effect state is entered only after a release, and no release follows a withholding or a revoke. */
  lemma {:induction false} EffectsFollowRelease(states: seq<State>)
    requires Walk(states) && |states| > 0 && states[0] == Created
    ensures states[|states| - 1] in {EffectConfirmed, Failed, UnknownEffect} ==> Released in states
    ensures Released in states ==> Authorized in states && Withheld !in states && Revoked !in states
    decreases |states|
  {
    var n := |states| - 1;
    if n > 0 {
      var before := states[..n];
      assert Walk(before);
      EffectsFollowRelease(before);
      assert states == before + [states[n]];
      assert states[n] in Allowed(states[n - 1]) && before[n - 1] == states[n - 1];
      StaysOut(before);
    }
  }

  /** What the last state of a path says about the ones before it. */
  lemma {:induction false} StaysOut(states: seq<State>)
    requires Walk(states) && |states| > 0 && states[0] == Created
    ensures var last := states[|states| - 1];
            && (!IsTerminal(last) ==> Withheld !in states && Revoked !in states)
            && (BeforeRelease(last) ==> Released !in states)
            && (last == Committed || last in RELEASED_STATES || last == Withheld ==> Authorized in states)
            && (last in RELEASED_STATES ==> Withheld !in states && Revoked !in states)
            && (last == Withheld || last == Revoked ==> Released !in states)
    decreases |states|
  {
    var n := |states| - 1;
    if n > 0 {
      var before := states[..n];
      assert Walk(before);
      StaysOut(before);
      assert states == before + [states[n]];
      assert states[n] in Allowed(states[n - 1]) && before[n - 1] == states[n - 1];
    }
  }

  // ---------------------------------------------------------------- intents and policy

  datatype ActionClass = Stop | Start | Motion | Reset | Shutdown | Other

  /** An intent. The last two fields are only observed: the preconditions its producer declared, and whether
      each read made to fence it was trusted. */
  datatype Intent = Intent(
    id: Id,
    action: string,
    target: Target,
    safety: seq<Expr>,
    preconditions: seq<Expr>,
    decision: real,
    window: real,
    deadline: Option<real>,
    degradable: bool,
    policyAdded: Option<seq<Expr>>,
    declared: seq<Expr>,
    fenceReads: seq<bool>)
  {
    function All(): seq<Expr> { safety + preconditions }
  }

  /** The operator's policy, keyed by normalized action type and by class. */
  datatype Policy = Policy(required: map<string, seq<Expr>>, classes: map<string, ActionClass>, byClass: map<ActionClass, seq<Expr>>)

  function ClassOf(policy: Policy, action: string): ActionClass {
    if action in policy.classes then policy.classes[action] else Other
  }

  function Mandated(policy: Policy, action: string): seq<Expr> {
    (if action in policy.required then policy.required[action] else [])
    + (var c := ClassOf(policy, action); if c in policy.byClass then policy.byClass[c] else [])
  }

  /** The mandated predicates the producer omitted, once each, in order. */
  function Omitted(mandated: seq<Expr>, present: seq<Expr>): seq<Expr> {
    if mandated == [] then []
    else
      var rest := Omitted(mandated[..|mandated| - 1], present);
      var e := mandated[|mandated| - 1];
      if e in present || e in rest then rest else rest + [e]
  }

  function ApplyPolicy(policy: Policy, intent: Intent): Intent {
    if intent.policyAdded.Some? then intent
    else
      var added := Omitted(Mandated(policy, intent.action), intent.preconditions + intent.safety);
      intent.(preconditions := intent.preconditions + added, policyAdded := Some(added))
  }

  lemma {:induction false} OmittedCovers(mandated: seq<Expr>, present: seq<Expr>)
    ensures forall e :: e in mandated ==> e in present || e in Omitted(mandated, present)
    ensures forall e :: e in Omitted(mandated, present) ==> e in mandated && e !in present
    decreases |mandated|
  {
    if mandated != [] {
      OmittedCovers(mandated[..|mandated| - 1], present);
      assert mandated == mandated[..|mandated| - 1] + [mandated[|mandated| - 1]];
    }
  }

  lemma {:induction false} OmittedOnce(mandated: seq<Expr>, present: seq<Expr>, i: nat, j: nat)
    requires i < j < |Omitted(mandated, present)|
    ensures Omitted(mandated, present)[i] != Omitted(mandated, present)[j]
    decreases |mandated|
  {
    var rest := Omitted(mandated[..|mandated| - 1], present);
    if j < |rest| {
      OmittedOnce(mandated[..|mandated| - 1], present, i, j);
    } else {
      assert rest[i] in rest;
    }
  }

  /** The policy asks for `e`: on its list for the action, or on its list for the class it gives the action. */
  predicate Asks(policy: Policy, action: string, e: Expr) {
    || (action in policy.required && e in policy.required[action])
    || (exists c :: c in policy.byClass && e in policy.byClass[c]
                    && (if action in policy.classes then policy.classes[action] == c else c == Other))
  }

  lemma MandatedAsks(policy: Policy, action: string, e: Expr)
    ensures e in Mandated(policy, action) <==> Asks(policy, action, e)
  {
  }

  /** A producer cannot bypass the policy: an intent the policy was applied to carries every predicate its policy
      asks for, in what it declared or added at the end; it is added only what the policy asks for and the
      producer did not declare, each once, and nothing else is changed. A second application adds nothing. */
  lemma PolicyIsMandatory(policy: Policy, intent: Intent)
    requires intent.policyAdded.None?
    ensures var it := ApplyPolicy(policy, intent);
            && (forall e :: Asks(policy, intent.action, e) ==> e in it.All())
            && it.policyAdded.Some? && it.preconditions == intent.preconditions + it.policyAdded.value
            && it == intent.(preconditions := it.preconditions, policyAdded := it.policyAdded)
            && (forall e :: e in it.policyAdded.value ==> Asks(policy, intent.action, e) && e !in intent.All())
            && (forall i, j :: 0 <= i < j < |it.policyAdded.value| ==> it.policyAdded.value[i] != it.policyAdded.value[j])
            && ApplyPolicy(policy, it) == it
  {
    OmittedCovers(Mandated(policy, intent.action), intent.preconditions + intent.safety);
    forall e ensures e in Mandated(policy, intent.action) <==> Asks(policy, intent.action, e) {
      MandatedAsks(policy, intent.action, e);
    }
    var added := Omitted(Mandated(policy, intent.action), intent.preconditions + intent.safety);
    forall i, j | 0 <= i < j < |added| ensures added[i] != added[j] {
      OmittedOnce(Mandated(policy, intent.action), intent.preconditions + intent.safety, i, j);
    }
  }

  /** The root of the stop epochs. */
  const STOP: Key := "stop"

  /** Stop-fence predicates are evaluated but not registered for truth versions. */
  predicate IsFence(e: Expr) { |e.path| >= 2 && e.path[0] == STOP }

  function Registered(es: seq<Expr>): (out: seq<Expr>)
    ensures forall e :: e in out <==> e in es && !IsFence(e)
  {
    if es == [] then []
    else
      assert es == [es[0]] + es[1..];
      (if IsFence(es[0]) then [] else [es[0]]) + Registered(es[1..])
  }

  // ---------------------------------------------------------------- time

  /** Bounds of the temporal checks: epsilon is the declared clock uncertainty. */
  datatype Clock = Clock(epsilon: real, maxAhead: real)

  datatype TemporalVerdict = TemporalOk | FutureSkew | Obsolete | DeadlineExceeded

  /** Admissibility at validation: freshness window and, if declared, deadline. */
  function ValidateTime(clock: Clock, intent: Intent, now: real): TemporalVerdict {
    var age := now - intent.decision;
    if age < -clock.maxAhead then FutureSkew
    else if age + clock.epsilon > intent.window then Obsolete
    else if intent.deadline.Some? && age + clock.epsilon > intent.deadline.value then DeadlineExceeded
    else TemporalOk
  }

  /** The maximum age at release: the deadline if declared, else the freshness window. */
  function ReleaseBound(intent: Intent): real {
    if intent.deadline.Some? then intent.deadline.value else intent.window
  }

  /** Admissibility at release: the release bound only. */
  function ValidateRelease(clock: Clock, intent: Intent, now: real): TemporalVerdict {
    var age := now - intent.decision;
    if age < -clock.maxAhead then FutureSkew
    else if age + clock.epsilon > ReleaseBound(intent) then
      (if intent.deadline.Some? then DeadlineExceeded else Obsolete)
    else TemporalOk
  }

  /** The commit's age bound: epsilon and the caller's margin are both subtracted. */
  function CommitBound(clock: Clock, intent: Intent, margin: real): real {
    ReleaseBound(intent) - clock.epsilon - margin
  }

  /** True age, on one time line: the producer's clock read `decision` at true time `decided`, the
      checking clock reads `now` at true time `checked`. */
  predicate WithinEpsilon(clock: Clock, decision: real, decided: real, now: real, checked: real) {
    -clock.epsilon <= (now - checked) - (decision - decided) <= clock.epsilon
  }

  /** The age meets what the intent declares for its release: its deadline, or its window if it has none. */
  predicate InTime(intent: Intent, age: real) {
    && (intent.deadline.Some? ==> age <= intent.deadline.value)
    && (intent.deadline.None? ==> age <= intent.window)
  }

  /** Exactly what the checks accept, in terms of the intent's own fields: a decision not too far ahead and an age,
      the clock uncertainty added, within the window and the deadline (validation), within the deadline or
      else the window (release), or so with the margin added (commit). */
  lemma TimeAcceptsIff(clock: Clock, intent: Intent, margin: real, now: real)
    ensures var age := now - intent.decision;
            && (ValidateTime(clock, intent, now) == TemporalOk <==>
                  && -clock.maxAhead <= age && age + clock.epsilon <= intent.window
                  && (intent.deadline.Some? ==> age + clock.epsilon <= intent.deadline.value))
            && (ValidateTime(clock, intent, now) == DeadlineExceeded <==>
                  && -clock.maxAhead <= age && age + clock.epsilon <= intent.window
                  && intent.deadline.Some? && age + clock.epsilon > intent.deadline.value)
            && (ValidateRelease(clock, intent, now) == TemporalOk <==> -clock.maxAhead <= age && InTime(intent, age + clock.epsilon))
            && (ValidateRelease(clock, intent, now) == FutureSkew <==> age < -clock.maxAhead)
            && (age <= CommitBound(clock, intent, margin) <==> InTime(intent, age + clock.epsilon + margin))
  {
  }

  /** Whenever the two clocks are within epsilon of each other, an accepted intent satisfies its bounds
      on its true age; neither epsilon nor a margin can widen a bound. */
  lemma TrueAgeBound(clock: Clock, intent: Intent, margin: real, now: real, decided: real, checked: real)
    requires WithinEpsilon(clock, intent.decision, decided, now, checked)
    ensures ValidateTime(clock, intent, now) == TemporalOk ==>
              checked - decided <= intent.window
              && (intent.deadline.Some? ==> checked - decided <= intent.deadline.value)
    ensures ValidateRelease(clock, intent, now) == TemporalOk ==> InTime(intent, checked - decided)
    ensures now - intent.decision <= CommitBound(clock, intent, margin) ==> InTime(intent, checked - decided + margin)
    ensures clock.epsilon >= 0.0 && margin >= 0.0 ==>
              var exact := Clock(0.0, clock.maxAhead);
              && CommitBound(clock, intent, margin) <= CommitBound(exact, intent, 0.0)
              && (ValidateTime(clock, intent, now) == TemporalOk ==> ValidateTime(exact, intent, now) == TemporalOk)
              && (ValidateRelease(clock, intent, now) == TemporalOk ==> ValidateRelease(exact, intent, now) == TemporalOk)
  {
  }

  // ---------------------------------------------------------------- the decision

  datatype Outcome = Execute | Delay | Degrade | Revoke(expired: bool)

  /** Delay is reserved for an otherwise admissible intent whose target is busy. */
  function Decide(time: TemporalVerdict, contextOk: bool, busy: bool, degradable: bool): Outcome {
    if time != TemporalOk then Revoke(time == DeadlineExceeded)
    else if !contextOk then Revoke(false)
    else if busy then Delay
    else if degradable then Degrade
    else Execute
  }
}
