/** The stop fence over whole runs: what it guarantees, to which intents, and what it does not cover.
    Models the interplay of `_fence_intent`, `_record_stop` and the commit (xair/adapters/http_server.py). */
module StopRuns {
  import opened Wrappers
  import opened ContextTree
  import opened Predicates
  import opened Versioning
  import opened Layouts
  import opened Lifecycle
  import opened Runtime
  import opened StopFence
  import opened EndToEnd
  import W = Window
  import S = Store

  /** Which committed intents carry the fence, exactly: those with a trusted fence read, and those whose
      producer or policy names the very same predicate. */
  lemma FencedIff(cfg: Config, layout: Layout, moves: seq<Move>, i: nat)
    requires Possible(cfg, layout, moves) && i in Reached(cfg, layout, moves).commits
    requires Reached(cfg, layout, moves).commits[i].rec.cls != Stop
    ensures var it := Reached(cfg, layout, moves).commits[i].rec.intent;
            && it.fenceReads != []
            && (FenceOf(cfg.clock, it) in it.preconditions
                <==> true in it.fenceReads || FenceOf(cfg.clock, it) in it.declared
                     || (it.policyAdded.Some? && FenceOf(cfg.clock, it) in it.policyAdded.value))
  {
    ReachedInv(cfg, layout, moves);
    var s := Reached(cfg, layout, moves);
    assert CommitOk(s.layout, cfg.clock, s.world, s.policies, s.commits[i]);
  }

  // ---------------------------------------------------------------- runs in which XAIR alone writes the epochs

  /** The environment leaves the stop root alone, and the stop clock is positive and does not go back. */
  predicate SoleWriter(s: Sys, m: Move) {
    && (m.Environment? && m.step.Update? ==> STOP !in m.step.patch.fields)
    && (m.RaiseStop? && m.stored ==> s.stopClock <= m.at && 0 < m.at)
  }

  /** The stop lock, which one process has: no stop is written between a fence read that finds no epoch and
      the initialization that follows it. */
  ghost predicate StopLocked(s: Sys, m: Move) {
    m.RaiseStop? && m.stored ==> forall h :: Initializes(s, h) ==> Bucket(s.handlers[h].intent.target) != Bucket(m.target)
  }

  ghost predicate Disciplined(s: Sys, m: Move) { SoleWriter(s, m) && StopLocked(s, m) }

  ghost predicate SoleWriterRun(cfg: Config, layout: Layout, moves: seq<Move>)
    requires Possible(cfg, layout, moves)
    decreases |moves|
  {
    moves == [] || (SoleWriterRun(cfg, layout, moves[..|moves| - 1])
                    && SoleWriter(Reached(cfg, layout, moves[..|moves| - 1]), moves[|moves| - 1]))
  }

  ghost predicate DisciplinedRun(cfg: Config, layout: Layout, moves: seq<Move>)
    requires Possible(cfg, layout, moves)
    decreases |moves|
  {
    moves == [] || (DisciplinedRun(cfg, layout, moves[..|moves| - 1])
                    && Disciplined(Reached(cfg, layout, moves[..|moves| - 1]), moves[|moves| - 1]))
  }

  /** Epochs are well formed on every version and never decrease. */
  ghost predicate EpochsOk(hist: seq<Tree>, clock: int) {
    && (forall v :: 0 <= v < |hist| ==> StopsOk(hist[v], clock))
    && (forall v, u :: 0 <= v <= u < |hist| ==> NotLower(hist[v], hist[u]))
  }

  /** Where an initialization is due, no stop is on record. */
  predicate InitOk(ctx: Tree, handlers: map<nat, Handler>) {
    forall h :: h in handlers && handlers[h].Initializing? ==> EpochOf(ctx, Bucket(handlers[h].intent.target)) <= 0
  }

  ghost predicate StopInv(s: Sys) {
    && S.WellFormed(s.world) && EpochsOk(s.world.hist, s.stopClock) && 0 <= s.stopClock
    && InitOk(s.world.store.ctx, s.handlers)
  }

  lemma CurrentStops(s: Sys)
    requires S.WellFormed(s.world) && EpochsOk(s.world.hist, s.stopClock)
    ensures StopsOk(s.world.store.ctx, s.stopClock)
  {
    assert StopsOk(s.world.hist[s.world.store.version], s.stopClock);
  }

  /** A store step that leaves the stop root alone. */
  lemma OtherStep(s: Sys, step: S.Step)
    requires StopInv(s) && (step.Update? ==> STOP !in step.patch.fields)
    ensures StopInv(s.(world := S.Do(s.world, step)))
  {
    if step.Update? {
      CurrentStops(s);
      OtherRoots(s.world.store.ctx, step.patch, s.stopClock);
    }
  }

  /** A write of an epoch that is not below the one on record, while no other is due below it. */
  lemma StopStep(s: Sys, bucket: Key, epoch: int, kept: set<Expr>, later: int)
    requires StopInv(s) && s.stopClock <= later && 0 <= epoch <= later && EpochOf(s.world.store.ctx, bucket) <= epoch
    requires epoch == 0 || forall h :: Initializes(s, h) ==> Bucket(s.handlers[h].intent.target) != bucket
    ensures StopInv(s.(world := S.Do(s.world, S.Update(StopPatch(bucket, epoch), kept)), stopClock := later))
  {
    CurrentStops(s);
    StopSets(s.world.store.ctx, bucket, epoch, s.stopClock, later);
  }

  lemma FenceStops(cfg: Config, s: Sys, h: nat, it: Intent, trusted: bool)
    requires StopInv(s)
    ensures StopInv(AfterFencing(cfg, s, h, it, trusted))
  {
    CurrentStops(s);
    EpochIs(s.world.store.ctx, s.stopClock, Bucket(it.target));
  }

  /** Steps of the runtime and of the handlers that have nothing to do with epochs. */
  lemma OffStoreStops(cfg: Config, s: Sys, m: Move)
    requires StopInv(s) && Enabled(s, m) && OffStore(m)
    ensures StopInv(Next(cfg, s, m))
  {
    match m
    case Fence(h, trusted) => FenceStops(cfg, s, h, s.handlers[h].intent, trusted);
    case Report(report) =>
    case SetPolicy(policy) =>
    case Submit(h, body, now, stamp) => SubmitStops(cfg, s, h, Parsed(body), now, stamp);
    case Validate(h, now, timely, again, timelyAgain) =>
    case BeginCommit(h, id, scope, margin, now) =>
    case Conclude(h) =>
    case Abandon(h) =>
  }

  lemma SubmitStops(cfg: Config, s: Sys, h: nat, intent: Intent, now: real, stamp: real)
    requires StopInv(s)
    ensures StopInv(Submitted(cfg, s, h, intent, now, stamp))
  {
  }

  lemma MoveStops(cfg: Config, s: Sys, m: Move)
    requires Enabled(s, m) && Disciplined(s, m) && StopInv(s)
    ensures StopInv(Next(cfg, s, m))
  {
    if OffStore(m) {
      OffStoreStops(cfg, s, m);
    } else {
      match m
      case Environment(step) => OtherStep(s, step);
      case Initialize(h, stored, kept) =>
        var it := s.handlers[h].intent;
        if stored {
          StopStep(s, Bucket(it.target), 0, kept, s.stopClock);
          var w := S.Do(s.world, S.Update(StopPatch(Bucket(it.target), 0), kept));
        }
      case Read(h, trusted, stamps) =>
      case StoreCommit(h, available, now) => StoredStops(cfg, s, h, s.handlers[h], available, now);
      case RaiseStop(target, at, stored, kept) =>
        if stored {
          CurrentStops(s);
          EpochIs(s.world.store.ctx, s.stopClock, Bucket(target));
          StopStep(s, Bucket(target), at, kept, at);
        }
    }
  }

  lemma StoredStops(cfg: Config, s: Sys, h: nat, c: Handler, available: bool, now: real)
    requires StopInv(s) && c.Committing?
    ensures StopInv(Stored(cfg, s, h, c, available, now))
  {
  }

  lemma {:induction false} EpochsHold(cfg: Config, layout: Layout, moves: seq<Move>)
    requires Possible(cfg, layout, moves) && DisciplinedRun(cfg, layout, moves)
    ensures StopInv(Reached(cfg, layout, moves))
    decreases |moves|
  {
    if moves != [] {
      EpochsHold(cfg, layout, moves[..|moves| - 1]);
      MoveStops(cfg, Reached(cfg, layout, moves[..|moves| - 1]), moves[|moves| - 1]);
    }
  }

  lemma {:induction false} DisciplinedPrefix(cfg: Config, layout: Layout, moves: seq<Move>, n: nat)
    requires Possible(cfg, layout, moves) && DisciplinedRun(cfg, layout, moves) && n <= |moves|
    ensures Possible(cfg, layout, moves[..n]) && DisciplinedRun(cfg, layout, moves[..n])
    ensures n < |moves| ==> Disciplined(Reached(cfg, layout, moves[..n]), moves[n])
    decreases |moves|
  {
    if n == |moves| {
      assert moves[..n] == moves;
    } else {
      var before := moves[..|moves| - 1];
      assert before[..n] == moves[..n];
      DisciplinedPrefix(cfg, layout, before, n);
    }
  }

  /** The stop fence. In a disciplined run, once a stop is written for a bucket, no intent on a target of that
      bucket that had a trusted fence read and whose decision time, less epsilon, precedes the stop is
      committed in read-set scope, whether it was validated before or after the stop. */
  lemma NoStaleCommitAfterStop(cfg: Config, layout: Layout, moves: seq<Move>, n: nat, i: nat)
    requires Possible(cfg, layout, moves) && DisciplinedRun(cfg, layout, moves)
    requires n < |moves| && moves[n].RaiseStop? && moves[n].stored && Possible(cfg, layout, moves[..n])
    requires i in Reached(cfg, layout, moves).commits && i !in Reached(cfg, layout, moves[..n]).commits
    requires var c := Reached(cfg, layout, moves).commits[i];
             && c.rec.cls != Stop && c.scope.ReadSetScope? && true in c.rec.intent.fenceReads
             && Bucket(c.rec.intent.target) == Bucket(moves[n].target)
    ensures var c := Reached(cfg, layout, moves).commits[i];
            moves[n].at as real <= (c.rec.intent.decision - cfg.clock.epsilon) * 1000.0
  {
    var s, t := Reached(cfg, layout, moves[..n]), Reached(cfg, layout, moves);
    var bucket := Bucket(moves[n].target);
    EpochsHold(cfg, layout, moves);
    ReachedInv(cfg, layout, moves);
    StopThenCommit(cfg, layout, moves, n, i);
    var v := s.world.store.version + 1;
    var it, hist := t.commits[i].rec.intent, t.world.hist;
    assert FenceOf(cfg.clock, it) in Covered(t.commits[i]);
    assert Truth(FenceOf(cfg.clock, it), hist[t.commits[i].version]);
    FenceMeans(hist[t.commits[i].version], t.stopClock, Bucket(it.target), DecisionMicros(cfg.clock, it));
    assert NotLower(hist[v], hist[t.commits[i].version]);
    LiteralBoundsDecision(cfg.clock, t.commits[i].rec.intent, moves[n].at);
  }

  lemma StopIs(cfg: Config, s: Sys, m: Move)
    requires m.RaiseStop? && m.stored && StopInv(s) && Disciplined(s, m) && Enabled(s, m)
    ensures var r := Next(cfg, s, m);
            && r.commits == s.commits && r.world.store.version == s.world.store.version + 1 < |r.world.hist|
            && EpochOf(r.world.hist[r.world.store.version], Bucket(m.target)) == m.at
  {
    CurrentStops(s);
    StopSets(s.world.store.ctx, Bucket(m.target), m.at, s.stopClock, m.at);
  }

  /** What is on record at a version stays on record. */
  lemma LaterCommit(r: Sys, t: Sys, i: nat, bucket: Key, at: int)
    requires Extends(r, t) && i in t.commits && i !in r.commits
    requires r.world.store.version < |r.world.hist| && EpochOf(r.world.hist[r.world.store.version], bucket) == at
    ensures var v := r.world.store.version;
            v <= t.commits[i].version && v < |t.world.hist| && EpochOf(t.world.hist[v], bucket) == at
  {
  }

  lemma StepOfRun(cfg: Config, layout: Layout, moves: seq<Move>, n: nat)
    requires Possible(cfg, layout, moves) && n < |moves|
    ensures Possible(cfg, layout, moves[..n]) && Possible(cfg, layout, moves[..n + 1])
    ensures Enabled(Reached(cfg, layout, moves[..n]), moves[n])
    ensures Reached(cfg, layout, moves[..n + 1]) == Next(cfg, Reached(cfg, layout, moves[..n]), moves[n])
  {
    PrefixExtends(cfg, layout, moves, n + 1);
    assert moves[..n + 1][..n] == moves[..n] && moves[..n + 1][n] == moves[n];
  }

  /** The state right after a stop. */
  lemma StopOfRun(cfg: Config, layout: Layout, moves: seq<Move>, n: nat)
    requires Possible(cfg, layout, moves) && DisciplinedRun(cfg, layout, moves)
    requires n < |moves| && moves[n].RaiseStop? && moves[n].stored
    ensures Possible(cfg, layout, moves[..n]) && Possible(cfg, layout, moves[..n + 1]) && 0 < moves[n].at
    ensures var s, r := Reached(cfg, layout, moves[..n]), Reached(cfg, layout, moves[..n + 1]);
            && r.commits == s.commits && r.world.store.version == s.world.store.version + 1 < |r.world.hist|
            && EpochOf(r.world.hist[r.world.store.version], Bucket(moves[n].target)) == moves[n].at
  {
    StepOfRun(cfg, layout, moves, n);
    DisciplinedPrefix(cfg, layout, moves, n);
    EpochsHold(cfg, layout, moves[..n]);
    StopIs(cfg, Reached(cfg, layout, moves[..n]), moves[n]);
  }

  /** A commit made after a stop is at a version at which the stop is written. */
  lemma StopThenCommit(cfg: Config, layout: Layout, moves: seq<Move>, n: nat, i: nat)
    requires Possible(cfg, layout, moves) && DisciplinedRun(cfg, layout, moves)
    requires n < |moves| && moves[n].RaiseStop? && moves[n].stored && Possible(cfg, layout, moves[..n])
    requires i in Reached(cfg, layout, moves).commits && i !in Reached(cfg, layout, moves[..n]).commits
    ensures var v := Reached(cfg, layout, moves[..n]).world.store.version + 1;
            var t := Reached(cfg, layout, moves);
            v <= t.commits[i].version && v < |t.world.hist| && EpochOf(t.world.hist[v], Bucket(moves[n].target)) == moves[n].at
    ensures 0 < moves[n].at
  {
    StopOfRun(cfg, layout, moves, n);
    PrefixExtends(cfg, layout, moves, n + 1);
    LaterCommit(Reached(cfg, layout, moves[..n + 1]), Reached(cfg, layout, moves), i, Bucket(moves[n].target), moves[n].at);
  }

  // ---------------------------------------------------------------- the shard layout

  predicate NoFence(it: Intent) { forall e | e in it.All() :: !IsFence(e) }

  lemma AcceptedUnfenced(at: S.World, clock: Clock, policies: seq<Policy>, rec: Rec)
    requires Accepted(Shard, at, rec) && Ready(clock, policies, rec.intent)
    ensures NoFence(rec.intent) && true !in rec.intent.fenceReads
  {
    DocPassesIff(Shard, at.store, rec.intent.All());
    assert IsFence(FenceOf(clock, rec.intent));
  }

  /** In the shard layout, over every run, a record that is authorized or committed and is not a stop carries
      no fence: every fence read made for it was untrusted. */
  lemma ShardAuthorizesOnlyUnfenced(cfg: Config, moves: seq<Move>)
    requires Possible(cfg, Shard, moves)
    ensures var s := Reached(cfg, Shard, moves);
            && (forall id :: id in s.rt.records && s.rt.records[id].state == Authorized && s.rt.records[id].cls != Stop ==>
                  NoFence(s.rt.records[id].intent) && true !in s.rt.records[id].intent.fenceReads)
            && (forall i :: i in s.commits && s.commits[i].rec.cls != Stop ==>
                  NoFence(s.commits[i].rec.intent) && true !in s.commits[i].rec.intent.fenceReads)
  {
    ReachedInv(cfg, Shard, moves);
    LayoutStays(cfg, Shard, moves);
    var s := Reached(cfg, Shard, moves);
    forall rec: Rec | rec.cls != Stop && AuthorizedOk(Shard, cfg.clock, s.world, s.policies, rec)
      ensures NoFence(rec.intent) && true !in rec.intent.fenceReads
    {
      var at :| Later(at, s.world) && ValidatedOn(at, rec) && Accepted(Shard, at, rec);
      AcceptedUnfenced(at, cfg.clock, s.policies, rec);
    }
    forall id | id in s.rt.records && s.rt.records[id].state == Authorized && s.rt.records[id].cls != Stop
      ensures AuthorizedOk(Shard, cfg.clock, s.world, s.policies, s.rt.records[id])
    {
      assert RecOk(Shard, cfg.clock, s.world, s.policies, s.rt.records[id]);
    }
    forall i | i in s.commits && s.commits[i].rec.cls != Stop
      ensures AuthorizedOk(Shard, cfg.clock, s.world, s.policies, s.commits[i].rec)
    {
      assert CommitOk(Shard, cfg.clock, s.world, s.policies, s.commits[i]);
    }
  }
}
