/** Exactly when an intent is authorized, and exactly when a validated record commits: nothing it depends on
    changed, and it is new and in time. Models the validation of xair/core/runtime.py and `commit_authorization`
    of xair/core/context_store.py as the endpoints of xair/adapters/http_server.py call them. */
module Exactness {
  import opened Wrappers
  import opened ContextTree
  import opened Predicates
  import opened Versioning
  import opened Layouts
  import opened Lifecycle
  import opened Runtime
  import opened StopFence
  import opened EndToEnd
  import S = Store

  // ---------------------------------------------------------------- validation

  /** What every execution, delay and degradation needs: the decision is not too far ahead, the age is within
      window and deadline, the evaluation ends in its time budget, and every predicate is true on the store the
      snapshot was read from; in the shard layout there must be no fence among them. */
  predicate Admissible(cfg: Config, layout: Layout, it: Intent, v: Validation, st: S.Store) {
    && -cfg.clock.maxAhead <= v.now - it.decision && v.now - it.decision + cfg.clock.epsilon <= it.window
    && (it.deadline.Some? ==> v.now - it.decision + cfg.clock.epsilon <= it.deadline.value)
    && v.timely && (forall e | e in it.All() :: Truth(e, st.ctx))
    && (layout.Shard? ==> forall e | e in it.All() :: !IsFence(e))
  }

  lemma AdmissibleIff(cfg: Config, layout: Layout, it: Intent, v: Validation, at: S.World)
    requires v.doc == Some(DocOf(layout, at.store, ToRegister(it)))
    ensures Admissible(cfg, layout, it, v, at.store) <==>
              ValidateTime(cfg.clock, it, v.now) == TemporalOk && v.timely && AllTrue(it.All(), v.doc.value.ctx)
  {
    TimeAcceptsIff(cfg.clock, it, 0.0, v.now);
    DocPassesIff(layout, at.store, it.All());
  }

  /** The outcome of a validation on a snapshot that is not older than the installed context, exactly. */
  lemma OutcomeIff(cfg: Config, layout: Layout, rt: Tables, rec: Rec, it: Intent, v: Validation, at: S.World)
    requires v.doc == Some(DocOf(layout, at.store, ToRegister(it))) && rt.installed <= at.store.version
    requires it.policyAdded.Some? && (it.action in v.policy.classes ==> v.policy.classes[it.action] != Stop)
    ensures var state := Validated(cfg, rt, rec, it, v).state;
            && (state == Authorized <==> Admissible(cfg, layout, it, v, at.store) && it.target !in rt.held && !it.degradable)
            && (state == Degraded <==> Admissible(cfg, layout, it, v, at.store) && it.target !in rt.held && it.degradable)
            && (state == Delayed <==> Admissible(cfg, layout, it, v, at.store) && it.target in rt.held)
            && (state == Expired <==>
                  && -cfg.clock.maxAhead <= v.now - it.decision && v.now - it.decision + cfg.clock.epsilon <= it.window
                  && it.deadline.Some? && v.now - it.decision + cfg.clock.epsilon > it.deadline.value)
            && (state in {Authorized, Degraded, Delayed, Expired, Revoked})
  {
    assert ApplyPolicy(v.policy, it) == it;
    OutcomeMeans(cfg, rt, rec, it, v);
    AdmissibleIff(cfg, layout, it, v, at);
    TimeAcceptsIff(cfg.clock, it, 0.0, v.now);
    ConcludedCases(Checked(rec, it, ClassOf(v.policy, it.action), rt.installed, v.doc), VerdictOn(cfg, rt, it, v));
  }

  // ---------------------------------------------------------------- commit

  /** The id was not committed before, and the age is between the clock uncertainty ahead and what the intent
      declares for its release, the uncertainty and the margin added. */
  predicate Timely(cfg: Config, st: S.Store, intent: Intent, margin: real, now: real) {
    var age := now - intent.decision;
    intent.id !in st.committed && -cfg.clock.epsilon <= age && InTime(intent, age + cfg.clock.epsilon + margin)
  }

  /** The authorization of a commit at the head of the log. */
  function Logged(w: S.World, intent: Intent, now: real): seq<S.Record> {
    w.store.log + [S.Authorization(intent.id, w.store.version, now, now - intent.decision)]
  }

  /** The commit of a record, whose recorded version is current exactly if `unmoved`. */
  lemma RequestLogs(cfg: Config, w: S.World, rec: Rec, scope: S.Scope, margin: real, now: real, unmoved: bool)
    requires scope.ReadSetScope? ==> rec.readVersion >= 0 && (ReadSetVersion(w.store.pv, rec.readSet) == rec.readVersion <==> unmoved)
    requires scope.TruthScope? ==>
               rec.predicateVersion >= 0 && (PredicateVersion(w.store.preds, rec.predicates) == rec.predicateVersion <==> unmoved)
    ensures var t := S.Do(w, S.Commit(Request(cfg, rec, scope, margin, now)));
            if Timely(cfg, w.store, rec.intent, margin, now) && unmoved
            then t.store.log == Logged(w, rec.intent, now) && rec.intent.id in t.store.committed
            else t == w
  {
    TimeAcceptsIff(cfg.clock, rec.intent, margin, now);
    S.CommitIff(w, Request(cfg, rec, scope, margin, now));
  }

  /** Read-set scope. A record validated on the store `at` commits on a later store, and is then logged, if and
      only if it is new and in time and no update in between touched its read-set. */
  lemma ReadSetCommitIff(cfg: Config, at: S.World, w: S.World, rec: Rec, margin: real, now: real)
    requires S.Inv(w) && Later(at, w) && ValidatedOn(at, rec)
    ensures var t := S.Do(w, S.Commit(Request(cfg, rec, S.ReadSetScope, margin, now)));
            if Timely(cfg, w.store, rec.intent, margin, now) && S.Untouched(w, rec.contextVersion, rec.readSet)
            then t.store.log == Logged(w, rec.intent, now) && rec.intent.id in t.store.committed
            else t == w
  {
    S.ReadSetUnmovedIff(at, w, rec.readSet);
    RequestLogs(cfg, w, rec, S.ReadSetScope, margin, now, S.Untouched(w, rec.contextVersion, rec.readSet));
  }

  /** The same over any run of the store. */
  lemma ReadSetRunCommitIff(cfg: Config, at: S.World, steps: seq<S.Step>, rec: Rec, margin: real, now: real)
    requires S.Inv(at) && ValidatedOn(at, rec)
    ensures var w := S.Run(at, steps);
            var t := S.Do(w, S.Commit(Request(cfg, rec, S.ReadSetScope, margin, now)));
            if Timely(cfg, w.store, rec.intent, margin, now) && S.Untouched(w, rec.contextVersion, rec.readSet)
            then t.store.log == Logged(w, rec.intent, now) && rec.intent.id in t.store.committed
            else t == w
  {
    S.RunKeepsInv(at, steps);
    ReadSetCommitIff(cfg, at, S.Run(at, steps), rec, margin, now);
  }

  /** Truth scope, over any run in which the record's predicates stay registered: it commits, and is then logged,
      if and only if it is new and in time and each of them stayed true on every version in between, whatever
      values changed and changed back without making one false. */
  lemma TruthRunCommitIff(cfg: Config, at: S.World, steps: seq<S.Step>, rec: Rec, margin: real, now: real)
    requires S.Inv(at) && ValidatedOn(at, rec) && forall e :: e in rec.predicates ==> S.StaysRegistered(at, steps, e)
    ensures var w := S.Run(at, steps);
            var t := S.Do(w, S.Commit(Request(cfg, rec, S.TruthScope, margin, now)));
            if && Timely(cfg, w.store, rec.intent, margin, now)
               && forall e :: e in rec.predicates ==> S.Constant(w.hist, e, true, rec.contextVersion, w.store.version)
            then t.store.log == Logged(w, rec.intent, now) && rec.intent.id in t.store.committed
            else t == w
  {
    var w := S.Run(at, steps);
    assert AllTrue(rec.predicates, at.store.ctx) by {
      forall i | 0 <= i < |rec.predicates| ensures Truth(rec.predicates[i], at.store.ctx) {
        assert rec.predicates[i] in rec.intent.All();
      }
    }
    S.TruthUnmovedIff(at, steps, rec.predicates);
    RequestLogs(cfg, w, rec, S.TruthScope, margin, now,
                forall e :: e in rec.predicates ==> S.Constant(w.hist, e, true, rec.contextVersion, w.store.version));
  }

  /** In every run of the system: a handler that commits a record other than a stop in read-set scope, while the
      store can be reached, logs it if and only if it is new and in time and no update since the version it
      was validated on touched its read-set. */
  lemma HandlerCommitIff(cfg: Config, layout: Layout, moves: seq<Move>, h: nat, now: real)
    requires Possible(cfg, layout, moves) && Commits(Reached(cfg, layout, moves), h)
    requires var c := Reached(cfg, layout, moves).handlers[h]; c.rec.cls != Stop && c.scope.ReadSetScope?
    ensures var s := Reached(cfg, layout, moves);
            var c, t := s.handlers[h], Stored(cfg, s, h, s.handlers[h], true, now);
            t.world.store.log ==
            if Timely(cfg, s.world.store, c.rec.intent, c.margin, now) && S.Untouched(s.world, c.rec.contextVersion, c.rec.readSet)
            then Logged(s.world, c.rec.intent, now) else s.world.store.log
  {
    ReachedInv(cfg, layout, moves);
    var s := Reached(cfg, layout, moves);
    var c := s.handlers[h];
    assert HandlerOk(s.layout, cfg.clock, s.world, s.policies, c);
    var at :| Later(at, s.world) && ValidatedOn(at, c.rec) && Accepted(s.layout, at, c.rec);
    ReadSetCommitIff(cfg, at, s.world, c.rec, c.margin, now);
  }
}
