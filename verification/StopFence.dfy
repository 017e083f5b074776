/** Stop epochs and the predicate that fences an intent against them.
    Models `_stop_key`, `_fence_intent` and `_record_stop` of xair/adapters/http_server.py. */
module StopFence {
  import opened Wrappers
  import opened ContextTree
  import opened Predicates
  import opened Lifecycle
  import opened Layouts
  import S = Store

  /** The bucket of a target; nothing is assumed about the hash. */
  const Bucket: Target -> Key

  /** The epoch of a bucket: -1 if none is recorded. */
  function EpochOf(ctx: Tree, bucket: Key): int {
    match Look(ctx, [STOP, bucket])
    case Some(Int(n)) => n
    case _ => -1
  }

  /** What Python takes for false. */
  predicate Falsy(v: Value) {
    match v
    case Null => true
    case Bool(b) => !b
    case Int(n) => n == 0
    case Float(r) => r == 0.0
    case Str(s) => s == ""
    case Arr(items) => items == []
    case Obj(fields) => fields == map[]
  }

  /** What the fence finds in a context: an epoch, none yet, or a stop root that is no object, on which the
      handler fails. */
  datatype Sight = Epoch | NoEpoch | Broken

  function LookForEpoch(ctx: Tree, bucket: Key): Sight {
    if STOP !in ctx.fields || Falsy(ctx.fields[STOP]) then NoEpoch
    else if !ctx.fields[STOP].Obj? then Broken
    else if bucket in ctx.fields[STOP].fields && !ctx.fields[STOP].fields[bucket].Null? then Epoch
    else NoEpoch
  }

  function StopPatch(bucket: Key, epoch: int): Tree { Obj(map[STOP := Obj(map[bucket := Int(epoch)])]) }

  /** XAIR is the only writer of the epochs: the stop root holds integers, none ahead of the stop clock. */
  predicate StopsOk(ctx: Tree, clock: int) {
    STOP in ctx.fields ==>
      && ctx.fields[STOP].Obj?
      && forall k :: k in ctx.fields[STOP].fields ==>
           ctx.fields[STOP].fields[k].Int? && 0 <= ctx.fields[STOP].fields[k].n <= clock
  }

  ghost predicate NotLower(a: Tree, b: Tree) { forall k :: EpochOf(a, k) <= EpochOf(b, k) }

  lemma LookTwo(ctx: Tree, k: Key)
    requires STOP in ctx.fields ==> ctx.fields[STOP].Obj?
    ensures Look(ctx, [STOP, k])
            == if STOP in ctx.fields && k in ctx.fields[STOP].fields then Some(ctx.fields[STOP].fields[k]) else None
  {
    assert [STOP, k][1..] == [k] && [k][1..] == [];
    if STOP in ctx.fields {
      var stops := ctx.fields[STOP];
      assert Look(ctx, [STOP, k]) == Look(stops, [k]);
      assert k in stops.fields ==> Look(stops, [k]) == Look(stops.fields[k], []);
    }
  }

  /** The epochs of a context, read directly. */
  lemma EpochIs(ctx: Tree, clock: int, k: Key)
    requires StopsOk(ctx, clock)
    ensures EpochOf(ctx, k) == if STOP in ctx.fields && k in ctx.fields[STOP].fields then ctx.fields[STOP].fields[k].n else -1
    ensures LookForEpoch(ctx, k) == if EpochOf(ctx, k) == -1 then NoEpoch else Epoch
    ensures EpochOf(ctx, k) <= clock || EpochOf(ctx, k) == -1
  {
    LookTwo(ctx, k);
  }

  /** Updates that leave the stop root alone leave every epoch alone. */
  lemma OtherRoots(ctx: Tree, patch: Tree, clock: int)
    requires StopsOk(ctx, clock) && STOP !in patch.fields
    ensures var m: Tree := Merge(ctx, patch);
            StopsOk(m, clock) && NotLower(ctx, m) && forall k :: EpochOf(m, k) == EpochOf(ctx, k)
  {
  }

  lemma StopMerge(ctx: Tree, bucket: Key, epoch: int, clock: int)
    requires StopsOk(ctx, clock)
    ensures var m: Tree := Merge(ctx, StopPatch(bucket, epoch));
            && STOP in m.fields && m.fields[STOP].Obj?
            && m.fields[STOP].fields == (if STOP in ctx.fields then ctx.fields[STOP].fields else map[])[bucket := Int(epoch)]
  {
    var m: Tree := Merge(ctx, StopPatch(bucket, epoch));
    var inner := Obj(map[bucket := Int(epoch)]);
    if STOP in ctx.fields {
      var was := ctx.fields[STOP];
      assert m.fields[STOP] == Merge(was, inner);
      var now := Merge(was, inner).fields;
      assert bucket in was.fields ==> now[bucket] == Merge(was.fields[bucket], Int(epoch)) == Int(epoch);
      assert now == was.fields[bucket := Int(epoch)];
    } else {
      assert m.fields[STOP] == inner;
      assert inner.fields == map[][bucket := Int(epoch)];
    }
  }

  /** Writing an epoch sets that of its bucket and leaves the others alone. */
  lemma StopSets(ctx: Tree, bucket: Key, epoch: int, clock: int, later: int)
    requires StopsOk(ctx, clock) && clock <= later && 0 <= epoch <= later
    ensures var m: Tree := Merge(ctx, StopPatch(bucket, epoch));
            StopsOk(m, later) && forall k :: EpochOf(m, k) == if k == bucket then epoch else EpochOf(ctx, k)
  {
    var m: Tree := Merge(ctx, StopPatch(bucket, epoch));
    StopMerge(ctx, bucket, epoch, clock);
    forall k ensures EpochOf(m, k) == if k == bucket then epoch else EpochOf(ctx, k) {
      EpochIs(ctx, clock, k);
      EpochIs(m, later, k);
    }
  }

  /** Writing an epoch, for a stop or at first sight, lowers none if and only if its bucket holds no later one. */
  lemma StopRaisesIff(ctx: Tree, bucket: Key, epoch: int, clock: int)
    requires StopsOk(ctx, clock) && 0 <= epoch
    ensures NotLower(ctx, Merge(ctx, StopPatch(bucket, epoch))) <==> EpochOf(ctx, bucket) <= epoch
  {
    StopSets(ctx, bucket, epoch, clock, if clock < epoch then epoch else clock);
  }

  // ---------------------------------------------------------------- the fence predicate

  /** Truncation toward zero. */
  function Truncate(x: real): int { if x >= 0.0 then x.Floor else -((-x).Floor) }

  function Digits(n: nat): string {
    if n < 10 then [('0' as int + n) as char] else Digits(n / 10) + [('0' as int + n % 10) as char]
  }

  function Decimal(n: int): string { if n < 0 then "-" + Digits(-n) else Digits(n) }

  /** The latest stop a decision is known to follow, in microseconds. */
  function DecisionMicros(clock: Clock, intent: Intent): int {
    Truncate((intent.decision - clock.epsilon) * 1000.0)
  }

  function FenceExpr(bucket: Key, micros: int): Expr {
    Expr(STOP + "." + bucket + " <= " + Decimal(micros), [STOP, bucket], Some(Condition(Le, LNumber(micros as real))))
  }

  function FenceOf(clock: Clock, intent: Intent): Expr {
    FenceExpr(Bucket(intent.target), DecisionMicros(clock, intent))
  }

  /** The intent after a fence read: a trusted one adds the predicate, an untrusted one adds nothing. */
  function AfterFence(clock: Clock, intent: Intent, trusted: bool): Intent {
    var read := intent.(fenceReads := intent.fenceReads + [trusted]);
    if trusted then read.(preconditions := intent.preconditions + [FenceOf(clock, intent)]) else read
  }

  /** On epochs written by XAIR the fence holds exactly if the bucket has an epoch not above the literal. */
  lemma FenceMeans(ctx: Tree, clock: int, bucket: Key, micros: int)
    requires StopsOk(ctx, clock)
    ensures Truth(FenceExpr(bucket, micros), ctx) <==> 0 <= EpochOf(ctx, bucket) <= micros
  {
    EpochIs(ctx, clock, bucket);
    LookTwo(ctx, bucket);
  }

  /** A positive epoch that the literal does not exceed precedes the decision, epsilon included. */
  lemma LiteralBoundsDecision(clock: Clock, intent: Intent, epoch: int)
    requires 0 < epoch <= DecisionMicros(clock, intent)
    ensures epoch as real <= (intent.decision - clock.epsilon) * 1000.0
  {
  }

  /** Which decisions the fence lets through, exactly: those that, less epsilon, the epoch on record does not follow.
      Truncation toward zero adds those less than a microsecond before an epoch of 0. */
  lemma FencePassesIff(ctx: Tree, stopClock: int, clock: Clock, intent: Intent)
    requires StopsOk(ctx, stopClock)
    ensures var epoch, micros := EpochOf(ctx, Bucket(intent.target)), (intent.decision - clock.epsilon) * 1000.0;
            Truth(FenceOf(clock, intent), ctx) <==>
              0 <= epoch && (epoch as real <= micros || (epoch == 0 && micros > -1.0))
  {
    FenceMeans(ctx, stopClock, Bucket(intent.target), DecisionMicros(clock, intent));
  }

  // ---------------------------------------------------------------- partial snapshots

  /** A predicate below the stop root needs an object there, one on the root itself a scalar. */
  lemma NotBoth(ctx: Tree, fence: Expr, bare: Expr)
    requires IsFence(fence) && Truth(fence, ctx) && bare.path == [STOP]
    ensures !Truth(bare, ctx)
  {
    TruthIsTyped(fence, ctx);
    assert fence.path[1..] != [];
    assert Look(ctx, fence.path) == Look(ctx.fields[STOP], fence.path[1..]);
    assert [STOP][1..] == [];
    assert Look(ctx, [STOP]) == Some(ctx.fields[STOP]);
    if Truth(bare, ctx) {
      TruthIsTyped(bare, ctx);
    }
  }

  /** The roots a registration reads, of the predicates that are registered: never enough for a fence. */
  lemma PartRefusesFence(ctx: Tree, es: seq<Expr>, fence: Expr)
    requires fence in es && IsFence(fence)
    ensures !AllTrue(es, RootsOnly(ctx, RootsRead(set e | e in Registered(es))))
  {
    var names := RootsRead(set e | e in Registered(es));
    var part := RootsOnly(ctx, names);
    if AllTrue(es, part) {
      assert Truth(fence, part);
      HoldsOnPart(ctx, names, fence);
      var bare :| bare in Registered(es) && bare.path != [] && bare.path[0] == STOP;
      assert bare.path == [STOP];
      assert Truth(bare, part);
      NotBoth(part, fence, bare);
    }
  }

  /** When the predicates of an intent pass on the document it is validated on, exactly: if they pass on the
      store and, in the shard layout, none of them is a fence. */
  lemma DocPassesIff(layout: Layout, st: S.Store, es: seq<Expr>)
    ensures AllTrue(es, DocOf(layout, st, set e | e in Registered(es)).ctx)
            <==> AllTrue(es, st.ctx) && (layout.Shard? ==> forall e :: e in es ==> !IsFence(e))
  {
    if layout.Shard? {
      var names := RootsRead(set e | e in Registered(es));
      if e :| e in es && IsFence(e) {
        PartRefusesFence(st.ctx, es, e);
      } else {
        if AllTrue(es, RootsOnly(st.ctx, names)) {
          forall i | 0 <= i < |es| ensures Truth(es[i], st.ctx) {
            HoldsOnPart(st.ctx, names, es[i]);
          }
        }
        if AllTrue(es, st.ctx) {
          var names := RootsRead(set e | e in Registered(es));
          forall i | 0 <= i < |es| ensures Truth(es[i], RootsOnly(st.ctx, names)) {
            TruthIsTyped(es[i], st.ctx);
            assert es[i] in Registered(es);
            TruthNeedsOnlyItsRoot(es[i], RootsOnly(st.ctx, names), st.ctx);
          }
        }
      }
    }
  }

  /** What the database returns in the shard layout never passes a fenced intent. */
  lemma ShardRefusesFenced(base: Base, es: seq<Expr>, bucket: Key, micros: int)
    requires base.Sharded? && Homed(base.roots) && FenceExpr(bucket, micros) in es
    ensures !AllTrue(es, ReadBase(base, RootsRead(set e | e in Registered(es))).ctx)
  {
    ReadIsRootsOnly(base, RootsRead(set e | e in Registered(es)));
    PartRefusesFence(CtxOf(base), es, FenceExpr(bucket, micros));
  }
}
