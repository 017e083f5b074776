/** The gateway's recheck just before an optimistic release.
    Models `_gate_version` and the optimistic branch of `_xair_policy` (scripts/actuator_gateway.py). */
module Gate {
  import opened Wrappers
  import opened ContextTree
  import opened Predicates
  import opened Versioning
  import opened Layouts
  import opened Lifecycle
  import opened Runtime
  import opened StopFence
  import opened EndToEnd
  import S = Store

  datatype GateScope = ReadSetGate | TruthGate | GlobalGate | PredicateGate

  /** The version compared at the gate, and the one recorded at validation. */
  ghost function GateVersion(scope: GateScope, doc: S.Snapshot, rec: Rec): int {
    match scope
    case ReadSetGate => ReadSetVersion(doc.pv, rec.readSet)
    case TruthGate => PredicateVersion(doc.preds, rec.predicates)
    case _ => doc.version
  }

  function ValidationVersion(scope: GateScope, rec: Rec): int {
    match scope
    case ReadSetGate => rec.readVersion
    case TruthGate => rec.predicateVersion
    case _ => rec.contextVersion
  }

  /** What the gate reads: in truth scope the document of the record's predicates, otherwise everything. */
  function GateDoc(layout: Layout, scope: GateScope, st: S.Store, rec: Rec): S.Snapshot {
    if scope == TruthGate then DocOf(layout, st, ToRegister(rec.intent)) else S.SnapshotOf(st)
  }

  /** The predicates evaluated again: the producer's, then those the policy added. The fence is not. */
  function Rechecked(it: Intent): seq<Expr> {
    it.safety + it.declared + if it.policyAdded.Some? then it.policyAdded.value else []
  }

  datatype GateVerdict = Pass | Untrusted | NotAuthorized | VersionChanged | TooOld | PredicateFailed

  /** The recheck: trust, the intent's state, version, age, then the predicates. */
  ghost function Recheck(clock: Clock, scope: GateScope, doc: S.Snapshot, trusted: bool, state: Option<State>, rec: Rec, now: real)
    : GateVerdict
  {
    var current, validated := GateVersion(scope, doc, rec), ValidationVersion(scope, rec);
    if !trusted then Untrusted
    else if state != Some(Authorized) then NotAuthorized
    else if scope != PredicateGate && (current < 0 || validated < 0 || current != validated) then VersionChanged
    else if ValidateRelease(clock, rec.intent, now) != TemporalOk then TooOld
    else if !AllTrue(Rechecked(rec.intent), doc.ctx) then PredicateFailed
    else Pass
  }

  /** The predicates a gate scope vouches for since validation, beyond the instant of the gate. */
  function Vouched(scope: GateScope, rec: Rec): seq<Expr> {
    match scope
    case TruthGate => Registered(rec.intent.All())
    case PredicateGate => []
    case _ => rec.intent.All()
  }

  // ---------------------------------------------------------------- what a pass means

  /** At an unchanged global version nothing can have changed at all. */
  lemma SameVersion(at: S.World, w: S.World, rec: Rec, e: Expr)
    requires S.Inv(w) && Later(at, w) && ValidatedOn(at, rec) && at.store.version == w.store.version && e in rec.intent.All()
    ensures S.Constant(w.hist, e, true, at.store.version, w.store.version)
  {
    assert w.hist[at.store.version] == at.hist[at.store.version] == at.store.ctx;
  }

  lemma VouchedHeld(layout: Layout, scope: GateScope, at: S.World, w: S.World, rec: Rec, e: Expr)
    requires S.Inv(w) && Later(at, w) && ValidatedOn(at, rec) && e in Vouched(scope, rec)
    requires 0 <= GateVersion(scope, GateDoc(layout, scope, w.store, rec), rec) == ValidationVersion(scope, rec)
    ensures S.Constant(w.hist, e, true, at.store.version, w.store.version)
  {
    match scope
    case ReadSetGate => HeldSince(at, w, rec, S.ReadSetScope, e);
    case TruthGate =>
      EntriesSuffice(w.store.preds, ToRegister(rec.intent), rec.predicates);
      HeldSince(at, w, rec, S.TruthScope, e);
    case GlobalGate => SameVersion(at, w, rec, e);
  }

  lemma RecheckedTrue(layout: Layout, scope: GateScope, st: S.Store, rec: Rec, e: Expr)
    requires AllTrue(Rechecked(rec.intent), GateDoc(layout, scope, st, rec).ctx) && e in Rechecked(rec.intent)
    ensures Truth(e, st.ctx)
  {
    assert Truth(e, GateDoc(layout, scope, st, rec).ctx);
    if scope == TruthGate && layout.Shard? {
      HoldsOnPart(st.ctx, RootsRead(ToRegister(rec.intent)), e);
    }
  }

  /** Everything but the fence is evaluated again. */
  lemma RecheckedIsAllButTheFence(clock: Clock, policies: seq<Policy>, it: Intent, e: Expr)
    requires Ready(clock, policies, it) && e in it.All()
    ensures e in Rechecked(it) || e == FenceOf(clock, it)
  {
  }

  /** Optimistic release safety, in every run. Take any record that was authorized at some point of the run
      and is not a stop, and a gate that reads the store at a later point and passes. Then every vouched
      predicate was true on every version from validation to the gate; every predicate of the intent
      except the fence is true at the gate; and the intent is authorized and young enough. */
  lemma ReleaseMeansHeld(cfg: Config, layout: Layout, moves: seq<Move>, n: nat, id: Id, scope: GateScope, trusted: bool,
                         state: Option<State>, now: real)
    requires Possible(cfg, layout, moves) && n <= |moves| && Possible(cfg, layout, moves[..n])
    requires var records := Reached(cfg, layout, moves[..n]).rt.records;
             id in records && records[id].state == Authorized && records[id].cls != Stop
    requires var rec, w := Reached(cfg, layout, moves[..n]).rt.records[id], Reached(cfg, layout, moves).world;
             Recheck(cfg.clock, scope, GateDoc(layout, scope, w.store, rec), trusted, state, rec, now) == Pass
    ensures var rec, w := Reached(cfg, layout, moves[..n]).rt.records[id], Reached(cfg, layout, moves).world;
            && rec.contextVersion >= 0
            && (forall e :: e in Vouched(scope, rec) ==> S.Constant(w.hist, e, true, rec.contextVersion, w.store.version))
            && (forall e :: e in rec.intent.All() && e != FenceOf(cfg.clock, rec.intent) ==> Truth(e, w.store.ctx))
            && state == Some(Authorized) && InTime(rec.intent, now - rec.intent.decision + cfg.clock.epsilon)
  {
    var s, t := Reached(cfg, layout, moves[..n]), Reached(cfg, layout, moves);
    ReachedInv(cfg, layout, moves[..n]);
    ReachedInv(cfg, layout, moves);
    PrefixExtends(cfg, layout, moves, n);
    LayoutStays(cfg, layout, moves[..n]);
    assert RecOk(layout, cfg.clock, s.world, s.policies, s.rt.records[id]);
    AuthorizedGrows(layout, cfg.clock, s.world, t.world, s.policies, t.policies, s.rt.records[id]);
    PassMeansHeld(cfg.clock, layout, t.world, t.policies, scope, trusted, state, s.rt.records[id], now);
  }

  lemma PassMeansHeld(clock: Clock, layout: Layout, w: S.World, policies: seq<Policy>, scope: GateScope, trusted: bool,
                      state: Option<State>, rec: Rec, now: real)
    requires S.Inv(w) && AuthorizedOk(layout, clock, w, policies, rec) && rec.cls != Stop
    requires Recheck(clock, scope, GateDoc(layout, scope, w.store, rec), trusted, state, rec, now) == Pass
    ensures rec.contextVersion >= 0
    ensures forall e :: e in Vouched(scope, rec) ==> S.Constant(w.hist, e, true, rec.contextVersion, w.store.version)
    ensures forall e :: e in rec.intent.All() && e != FenceOf(clock, rec.intent) ==> Truth(e, w.store.ctx)
    ensures state == Some(Authorized) && InTime(rec.intent, now - rec.intent.decision + clock.epsilon)
  {
    var at :| Later(at, w) && ValidatedOn(at, rec) && Accepted(layout, at, rec);
    forall e | e in Vouched(scope, rec) ensures S.Constant(w.hist, e, true, rec.contextVersion, w.store.version) {
      VouchedHeld(layout, scope, at, w, rec, e);
    }
    forall e | e in rec.intent.All() && e != FenceOf(clock, rec.intent) ensures Truth(e, w.store.ctx) {
      RecheckedIsAllButTheFence(clock, policies, rec.intent, e);
      RecheckedTrue(layout, scope, w.store, rec, e);
    }
  }

  /** Exactly when the gate passes in read-set scope: the store can be reached, the intent is still authorized,
      its decision not too far ahead and its age, the clock uncertainty added, within its deadline (its window
      if it has none), and no update since validation touched its read-set. */
  lemma ReadSetGateIff(clock: Clock, layout: Layout, at: S.World, w: S.World, trusted: bool, state: Option<State>, rec: Rec, now: real)
    requires S.Inv(w) && Later(at, w) && ValidatedOn(at, rec) && Composed(clock, rec.intent)
    ensures Recheck(clock, ReadSetGate, GateDoc(layout, ReadSetGate, w.store, rec), trusted, state, rec, now) == Pass <==>
              && trusted && state == Some(Authorized) && -clock.maxAhead <= now - rec.intent.decision
              && InTime(rec.intent, now - rec.intent.decision + clock.epsilon)
              && S.Untouched(w, rec.contextVersion, rec.readSet)
  {
    S.ReadSetUnmovedIff(at, w, rec.readSet);
    TimeAcceptsIff(clock, rec.intent, 0.0, now);
    if ReadSetVersion(w.store.pv, rec.readSet) == rec.readVersion {
      StillTrue(clock, at, w, rec);
    }
    PassIff(clock, ReadSetGate, GateDoc(layout, ReadSetGate, w.store, rec), trusted, state, rec, now);
  }

  /** The tests of the recheck that have to succeed. */
  lemma PassIff(clock: Clock, scope: GateScope, doc: S.Snapshot, trusted: bool, state: Option<State>, rec: Rec, now: real)
    ensures Recheck(clock, scope, doc, trusted, state, rec, now) == Pass <==>
              && trusted && state == Some(Authorized)
              && (scope == PredicateGate || 0 <= GateVersion(scope, doc, rec) == ValidationVersion(scope, rec))
              && ValidateRelease(clock, rec.intent, now) == TemporalOk && AllTrue(Rechecked(rec.intent), doc.ctx)
  {
  }

  lemma StillTrue(clock: Clock, at: S.World, w: S.World, rec: Rec)
    requires S.Inv(w) && Later(at, w) && ValidatedOn(at, rec) && Composed(clock, rec.intent)
    requires ReadSetVersion(w.store.pv, rec.readSet) == rec.readVersion
    ensures AllTrue(Rechecked(rec.intent), w.store.ctx)
  {
    var es := Rechecked(rec.intent);
    forall i | 0 <= i < |es| ensures Truth(es[i], w.store.ctx) {
      assert es[i] in rec.intent.All();
      HeldSince(at, w, rec, S.ReadSetScope, es[i]);
      assert Truth(es[i], w.hist[w.store.version]);
    }
  }

  // ---------------------------------------------------------------- the gate without a version

  /** A pass of the gate that only evaluates predicates means that every registered predicate held on every
      version since validation if and only if the truth version recorded at validation is still current,
      provided they stay registered: exactly the test that the truth scope adds. */
  lemma PredicateGateIff(clock: Clock, layout: Layout, at: S.World, steps: seq<S.Step>, trusted: bool, state: Option<State>, rec: Rec,
                         now: real)
    requires S.Inv(at) && ValidatedOn(at, rec) && forall e :: e in rec.predicates ==> S.StaysRegistered(at, steps, e)
    requires var w := S.Run(at, steps);
             Recheck(clock, PredicateGate, GateDoc(layout, PredicateGate, w.store, rec), trusted, state, rec, now) == Pass
    ensures var w := S.Run(at, steps);
            (forall e :: e in rec.predicates ==> S.Constant(w.hist, e, true, at.store.version, w.store.version))
            <==> PredicateVersion(w.store.preds, rec.predicates) == rec.predicateVersion
  {
    forall i | 0 <= i < |rec.predicates| ensures Truth(rec.predicates[i], at.store.ctx) {
      assert rec.predicates[i] in rec.intent.All();
    }
    S.TruthUnmovedIff(at, steps, rec.predicates);
  }

  // ---------------------------------------------------------------- a change undone in between

  const X: Key := "x"

  function Mode(n: int): Tree { Obj(map[X := Int(n)]) }

  const ON: Expr := Expr("x == 1", [X], Some(Condition(Eq, LNumber(1.0))))

  /** An intent that requires x to be on, as it is validated and rechecked. */
  const WHILE_ON := Intent("i", "MOVE", "robot", [], [ON], 0.0, 1000.0, None, false, Some([]), [ON], [false])

  const SWITCH_ON := S.Update(Mode(1), {})
  const SWITCH_OFF := S.Update(Mode(0), {})

  lemma ModeTruth(n: int)
    ensures Truth(ON, Mode(n)) <==> n == 1
  {
    assert [X][1..] == [];
    assert Look(Mode(n), [X]) == Look(Int(n), []);
  }

  /** A store that holds x alone. */
  predicate InMode(w: S.World, n: int) { S.WellFormed(w) && w.store.ctx == Mode(n) }

  /** Whatever the store held before, as long as it is on: switched off and on again. */
  lemma OffAndOn(w: S.World)
    requires InMode(w, 1)
    ensures var w', v := S.Run(w, [SWITCH_OFF, SWITCH_ON]), w.store.version;
            && InMode(w', 1) && w'.store.version == v + 2 && |w'.hist| == v + 3
            && w'.hist[v] == Mode(1) && w'.hist[v + 1] == Mode(0) && w'.hist[v + 2] == Mode(1)
  {
    var off := S.Do(w, SWITCH_OFF);
    S.RunSnoc(w, [], SWITCH_OFF);
    S.RunSnoc(w, [SWITCH_OFF], SWITCH_ON);
    assert [] + [SWITCH_OFF] == [SWITCH_OFF] && [SWITCH_OFF] + [SWITCH_ON] == [SWITCH_OFF, SWITCH_ON];
  }

  /** The record of the intent, validated on the store `at`. */
  ghost function RecordOn(at: S.World): Rec {
    Concluded(Checked(Fresh(WHILE_ON), WHILE_ON, Other, 0, Some(S.SnapshotOf(at.store))), Execute)
  }

  lemma PassesWhileOn(w: S.World, layout: Layout, rec: Rec)
    requires InMode(w, 1) && rec.intent == WHILE_ON
    ensures Recheck(Clock(0.0, 1000.0), PredicateGate, GateDoc(layout, PredicateGate, w.store, rec), true, Some(Authorized), rec, 0.0) == Pass
  {
    ModeTruth(1);
    assert Rechecked(WHILE_ON) == [ON];
  }

  /** The failing family: an intent validated while x is on passes the predicate gate after x was switched off
      and on again, although its predicate did not hold in between. */
  lemma PredicateGateMissesUndoneChange(at: S.World, layout: Layout)
    requires InMode(at, 1)
    ensures var w, rec := S.Run(at, [SWITCH_OFF, SWITCH_ON]), RecordOn(at);
            && ValidatedOn(at, rec) && rec.state == Authorized && ON in rec.intent.All()
            && Recheck(Clock(0.0, 1000.0), PredicateGate, GateDoc(layout, PredicateGate, w.store, rec), true,
                       Some(Authorized), rec, 0.0) == Pass
            && !S.Constant(w.hist, ON, true, at.store.version, w.store.version)
  {
    ModeTruth(1);
    assert WHILE_ON.All() == [ON];
    OffAndOn(at);
    var w := S.Run(at, [SWITCH_OFF, SWITCH_ON]);
    PassesWhileOn(w, layout, RecordOn(at));
    ModeTruth(0);
    assert WHILE_ON.All() == [ON];
    assert !Truth(ON, w.hist[at.store.version + 1]);
  }

  /** Such a store is reached by switching x on. */
  lemma SwitchedOn()
    ensures InMode(S.Run(S.INITIAL, [SWITCH_ON]), 1)
  {
    S.RunSnoc(S.INITIAL, [], SWITCH_ON);
    assert [] + [SWITCH_ON] == [SWITCH_ON];
    assert Merge(EMPTY, Mode(1)).fields == Mode(1).fields;
  }
}
