/** What the consumer's recheck at apply time is worth, on the runs of the whole system.
    Models the version and age comparison of `ActuationConsumer.poll` (xair/adapters/actuation_consumer.py). */
module ApplyCheck {
  import opened Wrappers
  import opened Predicates
  import opened Versioning
  import opened Layouts
  import opened Lifecycle
  import opened Runtime
  import opened EndToEnd
  import C = Consumer
  import S = Store

  /** The version current at the apply-time read, and the one recorded with the commit. */
  ghost function CurrentVersion(st: S.Store, c: Commit): int {
    if c.scope.TruthScope? then PredicateVersion(st.preds, c.rec.predicates) else ReadSetVersion(st.pv, c.rec.readSet)
  }

  function RecordedVersion(c: Commit): int {
    if c.scope.TruthScope? then c.rec.predicateVersion else c.rec.readVersion
  }

  /** The version moved, or could not be read, or the deadline passed. */
  ghost predicate Stale(clock: Clock, st: S.Store, trusted: bool, c: Commit, now: real) {
    !trusted || CurrentVersion(st, c) != RecordedVersion(c)
    || now - c.rec.intent.decision > ReleaseBound(c.rec.intent) - clock.epsilon
  }

  /** Every predicate a commit covers has held from its validation up to the current version. */
  ghost predicate HeldUntilNow(w: S.World, c: Commit) {
    0 <= c.rec.contextVersion && forall e :: e in Covered(c) ==> S.Constant(w.hist, e, true, c.rec.contextVersion, w.store.version)
  }

  /** In every run, a committed record other than a stop that is not stale at a read of the store is still
      backed: what its commit covers has held from validation to that read, and its age is within bounds. */
  lemma FreshMeansHeld(cfg: Config, layout: Layout, moves: seq<Move>, i: nat, trusted: bool, now: real)
    requires Possible(cfg, layout, moves) && i in Reached(cfg, layout, moves).commits
    requires var s := Reached(cfg, layout, moves);
             s.commits[i].rec.cls != Stop && !Stale(cfg.clock, s.world.store, trusted, s.commits[i], now)
    ensures var s := Reached(cfg, layout, moves);
            HeldUntilNow(s.world, s.commits[i])
            && InTime(s.commits[i].rec.intent, now - s.commits[i].rec.intent.decision + cfg.clock.epsilon)
  {
    ReachedInv(cfg, layout, moves);
    var s := Reached(cfg, layout, moves);
    assert CommitOk(s.layout, cfg.clock, s.world, s.policies, s.commits[i]);
    var at :| Later(at, s.world) && ValidatedOn(at, s.commits[i].rec) && Accepted(s.layout, at, s.commits[i].rec);
    forall e | e in Covered(s.commits[i])
      ensures S.Constant(s.world.hist, e, true, s.commits[i].rec.contextVersion, s.world.store.version)
    {
      HeldSince(at, s.world, s.commits[i].rec, s.commits[i].scope, e);
    }
  }

  /** Record i was read at the n-th state of the run and found fresh. */
  ghost predicate FoundFresh(cfg: Config, layout: Layout, moves: seq<Move>, n: nat, i: nat, now: real)
    requires n <= |moves|
  {
    && Possible(cfg, layout, moves[..n]) && i in Reached(cfg, layout, moves[..n]).commits
    && var s := Reached(cfg, layout, moves[..n]); !Stale(cfg.clock, s.world.store, true, s.commits[i], now)
  }

  ghost predicate BackedAt(cfg: Config, layout: Layout, moves: seq<Move>, n: nat, i: nat)
    requires n <= |moves|
  {
    && Possible(cfg, layout, moves[..n]) && i in Reached(cfg, layout, moves[..n]).commits
    && var s := Reached(cfg, layout, moves[..n]); s.commits[i].rec.cls != Stop ==> HeldUntilNow(s.world, s.commits[i])
  }

  lemma FreshIsBacked(cfg: Config, layout: Layout, moves: seq<Move>, n: nat, i: nat, now: real)
    requires n <= |moves| && FoundFresh(cfg, layout, moves, n, i, now)
    ensures BackedAt(cfg, layout, moves, n, i)
  {
    if Reached(cfg, layout, moves[..n]).commits[i].rec.cls != Stop {
      FreshMeansHeld(cfg, layout, moves[..n], i, true, now);
    }
  }

  /** With the recheck on, each new effect of a pass over the log comes from a record whose predicates, unless it
      is a stop, held from validation up to the read made just before it was applied. `readAt(i)` is the state
      of the run in which record i was checked, `clock(i)` the consumer's clock then. */
  lemma RecheckedEffectsHeld(cfg: Config, layout: Layout, moves: seq<Move>, log: C.Log, effects: seq<C.Id>, lo: nat, hi: nat,
                             stale: nat -> bool, readAt: nat -> nat, clock: nat -> real, id: C.Id)
    requires lo <= hi <= |log| && forall i :: readAt(i) <= |moves|
    requires forall i :: lo <= i < hi && log[i].Authorization? && !stale(i) ==> FoundFresh(cfg, layout, moves, readAt(i), i, clock(i))
    requires id !in effects && id in C.Effects(effects, log, lo, hi, C.Withholding(true, stale))
    ensures exists i :: lo <= i < hi && log[i].Authorization? && log[i].id == id && BackedAt(cfg, layout, moves, readAt(i), i)
  {
    C.PassIsAuthorized(effects, log, lo, hi, C.Withholding(true, stale), id);
    var i :| lo <= i < hi && log[i].Authorization? && log[i].id == id && !C.Withholding(true, stale)(i);
    FreshIsBacked(cfg, layout, moves, readAt(i), i, clock(i));
  }
}
