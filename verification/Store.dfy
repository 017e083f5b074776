/** The context store as an atomic state machine, with its history.
    Models `_apply`, registration, retirement, `commit_authorization` and `append_actuation` of
    xair/core/context_store.py; modules MemoryStore and RedisStore show that the implementations
    behave like it. */
module Store {
  import opened Wrappers
  import opened ContextTree
  import opened Predicates
  import opened Versioning

  type Id = string

  /** Entries of the actuation log: authorizations carry a command, the other two do not. */
  datatype Record =
    | Authorization(id: Id, commitVersion: nat, storeTime: real, age: real)
    | Tombstone(id: Id)
    | StopNote(id: Id)

  datatype Store = Store(
    ctx: Tree,
    version: nat,
    pv: PathVersions,
    preds: Registry,
    log: seq<Record>,
    committed: set<Id>)

  const EMPTY_STORE := Store(EMPTY, 0, map[], map[], [], {})

  /** What a reader obtains in one step. */
  datatype Snapshot = Snapshot(ctx: Tree, version: nat, pv: PathVersions, preds: Registry)

  function SnapshotOf(s: Store): Snapshot { Snapshot(s.ctx, s.version, s.pv, s.preds) }

  // ---------------------------------------------------------------- operations

  function Stamp(pv: PathVersions, changed: set<Path>, version: nat): PathVersions {
    map p | p in pv.Keys + changed :: if p in changed then version else pv[p]
  }

  /** A registered predicate after an update: re-evaluated only if a changed path is related to it,
      and moved to the new version only if its truth value flips. */
  function Reevaluated(e: Expr, entry: Entry, changed: set<Path>, merged: Tree, version: nat): Entry {
    if Touches(changed, e.path) && Truth(e, merged) != entry.truth
    then Entry(version, Truth(e, merged), entry.registeredAt)
    else entry
  }

  /** Re-evaluate the kept registrations; the others are retired. */
  function ReevaluateAll(preds: Registry, kept: set<Expr>, changed: set<Path>, merged: Tree, version: nat): Registry {
    map e | e in preds && e in kept :: Reevaluated(e, preds[e], changed, merged, version)
  }

  /** Merge a patch; `kept` are the registrations this update does not retire. */
  ghost function UpdateStore(s: Store, patch: Tree, kept: set<Expr>): Store {
    var changed := ChangedPaths(s.ctx, patch);
    var merged := Merge(s.ctx, patch);
    s.(ctx := merged,
       version := s.version + 1,
       pv := Stamp(s.pv, changed, s.version + 1),
       preds := ReevaluateAll(s.preds, kept, changed, merged, s.version + 1))
  }

  /** Register or refresh the predicates of `stamps`; a refresh keeps version and truth. */
  function RegisterAll(s: Store, stamps: map<Expr, real>): Store {
    s.(preds := map e | e in s.preds.Keys + stamps.Keys ::
         if e !in stamps then s.preds[e]
         else if e in s.preds then s.preds[e].(registeredAt := stamps[e])
         else Entry(s.version, Truth(e, s.ctx), stamps[e]))
  }

  function Retained(preds: Registry, gone: set<Expr>): Registry { map e | e in preds && e !in gone :: preds[e] }

  function RetireAll(s: Store, gone: set<Expr>): Store { s.(preds := Retained(s.preds, gone)) }

  datatype Scope = ReadSetScope | TruthScope

  /** One call of the commit: what to check and the clock reading of the store. */
  datatype CommitRequest = CommitRequest(
    id: Id,
    scope: Scope,
    paths: set<Path>,
    exprs: seq<Expr>,
    expected: int,
    now: real,
    decision: real,
    bound: Option<real>,
    maxAhead: Option<real>)
  {
    function Age(): real { now - decision }
  }

  datatype Status = Committed | Changed | Expired | FutureSkew | Duplicate | Unavailable

  ghost function Observed(pv: PathVersions, preds: Registry, req: CommitRequest): int {
    match req.scope
    case ReadSetScope => ReadSetVersion(pv, req.paths)
    case TruthScope => PredicateVersion(preds, req.exprs)
  }

  /** The decision of a commit once the observed version is known. */
  function Decide(duplicate: bool, observed: int, req: CommitRequest): Status {
    if duplicate then Duplicate
    else if req.maxAhead.Some? && req.Age() < -req.maxAhead.value then FutureSkew
    else if req.bound.Some? && req.Age() > req.bound.value then Expired
    else if observed < 0 || req.expected < 0 || observed != req.expected then Changed
    else Committed
  }

  ghost function CommitStatus(s: Store, req: CommitRequest): Status {
    Decide(req.id in s.committed, Observed(s.pv, s.preds, req), req)
  }

  function Authorize(s: Store, req: CommitRequest): Store {
    s.(log := s.log + [Authorization(req.id, s.version, req.now, req.Age())], committed := s.committed + {req.id})
  }

  datatype Step =
    | Update(patch: Tree, kept: set<Expr>)
    | Register(stamps: map<Expr, real>)
    | Retire(gone: set<Expr>)
    | Commit(req: CommitRequest)
    | Append(note: Record)
    | Idle

  /** The atomic semantics of every store operation. */
  ghost function Apply(s: Store, step: Step): Store {
    match step
    case Update(patch, kept) => UpdateStore(s, patch, kept)
    case Register(stamps) => RegisterAll(s, stamps)
    case Retire(gone) => RetireAll(s, gone)
    case Commit(req) => if CommitStatus(s, req) == Committed then Authorize(s, req) else s
    case Append(note) => if note.Authorization? then s else s.(log := s.log + [note])
    case Idle => s
  }

  // ---------------------------------------------------------------- history

  /** A store together with every context it ever held (`hist[v]` at version v) and the paths each
      version changed. The history is only observed, never read by an operation. */
  datatype World = World(store: Store, hist: seq<Tree>, deltas: seq<set<Path>>)

  const INITIAL := World(EMPTY_STORE, [EMPTY], [{}])

  ghost function Do(w: World, step: Step): World {
    var s := Apply(w.store, step);
    if step.Update?
    then World(s, w.hist + [s.ctx], w.deltas + [ChangedPaths(w.store.ctx, step.patch)])
    else w.(store := s)
  }

  ghost function Run(w: World, steps: seq<Step>): World
    decreases |steps|
  {
    if steps == [] then w else Do(Run(w, steps[..|steps| - 1]), steps[|steps| - 1])
  }

  lemma RunSnoc(w: World, steps: seq<Step>, step: Step)
    ensures Run(w, steps + [step]) == Do(Run(w, steps), step)
  {
  }

  function CountUpdates(steps: seq<Step>): nat {
    if steps == [] then 0 else CountUpdates(steps[..|steps| - 1]) + if steps[|steps| - 1].Update? then 1 else 0
  }

  /** The global version counts the updates, whatever else happened in between. */
  lemma {:induction false} RunCountsUpdates(w: World, steps: seq<Step>)
    ensures Run(w, steps).store.version == w.store.version + CountUpdates(steps)
    decreases |steps|
  {
    if steps != [] {
      RunCountsUpdates(w, steps[..|steps| - 1]);
    }
  }

  predicate WellFormed(w: World) {
    |w.hist| == w.store.version + 1 == |w.deltas| && w.hist[w.store.version] == w.store.ctx
  }

  /** Each version differs from the one before only where its delta says so. */
  ghost predicate Framed(w: World) {
    forall v, e: Expr {:trigger Truth(e, w.hist[v])} ::
      1 <= v < |w.hist| && v < |w.deltas| && !Touches(w.deltas[v], e.path)
      ==> Truth(e, w.hist[v - 1]) == Truth(e, w.hist[v])
  }

  /** A path version is the last version whose delta holds the path. */
  predicate PathVersionsExact(w: World) {
    && (forall p :: p in w.store.pv ==> 1 <= w.store.pv[p] < |w.deltas| && p in w.deltas[w.store.pv[p]])
    && (forall v, p :: 0 <= v < |w.deltas| && p in w.deltas[v] ==> p in w.store.pv && v <= w.store.pv[p])
  }

  /** The truth value of `e` is `b` on every version from `lo` to `hi`. */
  predicate Constant(hist: seq<Tree>, e: Expr, b: bool, lo: nat, hi: nat) {
    forall v :: lo <= v <= hi && v < |hist| ==> Truth(e, hist[v]) == b
  }

  /** Every stored truth bit is right, and has been right since its version. */
  predicate RegistryExact(w: World) {
    forall e :: e in w.store.preds ==>
      var entry := w.store.preds[e];
      entry.version <= w.store.version && Constant(w.hist, e, entry.truth, entry.version, w.store.version)
  }

  predicate LogExact(s: Store) {
    && (forall i :: 0 <= i < |s.log| && s.log[i].Authorization? ==>
          s.log[i].id in s.committed && s.log[i].commitVersion <= s.version)
    && (forall i, j :: 0 <= i < j < |s.log| && s.log[i].Authorization? && s.log[j].Authorization? ==>
          s.log[i].id != s.log[j].id)
  }

  ghost predicate Inv(w: World) {
    WellFormed(w) && Framed(w) && PathVersionsExact(w) && RegistryExact(w) && LogExact(w.store)
  }

  lemma FramedStep(w: World, patch: Tree, kept: set<Expr>)
    requires WellFormed(w) && Framed(w)
    ensures Framed(Do(w, Update(patch, kept)))
  {
    var w' := Do(w, Update(patch, kept));
    var n := w.store.version;
    assert w'.hist[n + 1] == Merge(w.store.ctx, patch) && w'.hist[n] == w.store.ctx;
    forall v, e: Expr {:trigger Truth(e, w'.hist[v])} |
      1 <= v < |w'.hist| && v < |w'.deltas| && !Touches(w'.deltas[v], e.path)
      ensures Truth(e, w'.hist[v - 1]) == Truth(e, w'.hist[v])
    {
      if v == n + 1 {
        TruthFrame(e, w.store.ctx, patch);
      } else {
        assert w'.hist[v] == w.hist[v] && w'.hist[v - 1] == w.hist[v - 1] && w'.deltas[v] == w.deltas[v];
        assert Truth(e, w.hist[v]) == Truth(e, w'.hist[v]);
      }
    }
  }

  lemma RegistryStep(w: World, patch: Tree, kept: set<Expr>)
    requires WellFormed(w) && RegistryExact(w)
    ensures RegistryExact(Do(w, Update(patch, kept)))
  {
    var w' := Do(w, Update(patch, kept));
    var n := w.store.version;
    forall e | e in w'.store.preds
      ensures var entry := w'.store.preds[e];
              entry.version <= n + 1 && Constant(w'.hist, e, entry.truth, entry.version, n + 1)
    {
      var was := w.store.preds[e];
      assert w'.hist[n + 1] == Merge(w.store.ctx, patch);
      assert Truth(e, w.hist[n]) == was.truth;
      if !Touches(ChangedPaths(w.store.ctx, patch), e.path) {
        TruthFrame(e, w.store.ctx, patch);
      }
      assert forall v :: 0 <= v <= n ==> w'.hist[v] == w.hist[v];
      assert w'.store.preds[e] == Reevaluated(e, was, ChangedPaths(w.store.ctx, patch), w'.store.ctx, n + 1);
    }
  }

  /** Steps other than updates leave the history, the context and the path versions alone. */
  lemma QuietStep(w: World, step: Step)
    requires WellFormed(w) && RegistryExact(w) && !step.Update?
    ensures var w' := Do(w, step);
            && w'.hist == w.hist && w'.deltas == w.deltas && w'.store.version == w.store.version
            && w'.store.ctx == w.store.ctx && w'.store.pv == w.store.pv
            && RegistryExact(w')
  {
    match step
    case Register(stamps) =>
      var s' := RegisterAll(w.store, stamps);
      forall e | e in s'.preds
        ensures s'.preds[e].version <= s'.version && Constant(w.hist, e, s'.preds[e].truth, s'.preds[e].version, s'.version)
      {
        if e !in w.store.preds {
          assert s'.preds[e] == Entry(w.store.version, Truth(e, w.store.ctx), stamps[e]);
        }
      }
    case Retire(gone) =>
    case _ =>
  }

  /** What every store operation keeps. */
  lemma StepKeepsInv(w: World, step: Step)
    requires Inv(w)
    ensures Inv(Do(w, step))
  {
    assert LogExact(Apply(w.store, step));
    if step.Update? {
      FramedStep(w, step.patch, step.kept);
      RegistryStep(w, step.patch, step.kept);
    } else {
      QuietStep(w, step);
    }
  }

  lemma {:induction false} RunExtends(w: World, steps: seq<Step>)
    ensures w.hist <= Run(w, steps).hist && w.deltas <= Run(w, steps).deltas && w.store.log <= Run(w, steps).store.log
    decreases |steps|
  {
    if steps != [] {
      RunExtends(w, steps[..|steps| - 1]);
      var m := Run(w, steps[..|steps| - 1]);
      var m' := Do(m, steps[|steps| - 1]);
      assert m.hist <= m'.hist && m.deltas <= m'.deltas && m.store.log <= m'.store.log;
    }
  }

  lemma {:induction false} RunStaysInv(w: World, steps: seq<Step>)
    requires Inv(w)
    ensures Inv(Run(w, steps))
    decreases |steps|
  {
    if steps != [] {
      RunStaysInv(w, steps[..|steps| - 1]);
      StepKeepsInv(Run(w, steps[..|steps| - 1]), steps[|steps| - 1]);
    }
  }

  lemma RunKeepsInv(w: World, steps: seq<Step>)
    requires Inv(w)
    ensures Inv(Run(w, steps))
    ensures w.hist <= Run(w, steps).hist && w.deltas <= Run(w, steps).deltas
    ensures w.store.log <= Run(w, steps).store.log
  {
    RunStaysInv(w, steps);
    RunExtends(w, steps);
  }

  /** Every reachable store satisfies the invariant. */
  lemma ReachableInv(steps: seq<Step>)
    ensures Inv(Run(INITIAL, steps))
  {
    RunKeepsInv(INITIAL, steps);
  }

  // ---------------------------------------------------------------- read-set versions

  /** The read-set version is the last version that changed something related to the read-set. */
  lemma ReadSetVersionIsLastTouch(w: World, paths: set<Path>)
    requires Inv(w)
    ensures var v := ReadSetVersion(w.store.pv, paths);
            && v <= w.store.version
            && (v > 0 ==> TouchesAny(w.deltas[v], paths))
            && forall u :: v < u <= w.store.version ==> !TouchesAny(w.deltas[u], paths)
  {
    var pv := w.store.pv;
    var all := set p | p in pv && RelatedToAny(p, paths) :: pv[p];
    var v := ReadSetVersion(pv, paths);
    if v > 0 {
      var p :| p in pv && RelatedToAny(p, paths) && pv[p] == v;
      assert p in w.deltas[v];
    }
    assert forall q :: q in pv && RelatedToAny(q, paths) ==> pv[q] in all;
  }

  /** Exactness: over any run the read-set version moves if and only if some update in between changed
      a leaf equal to, above or below a read path. */
  lemma ReadSetVersionExact(w: World, steps: seq<Step>, paths: set<Path>)
    requires Inv(w)
    ensures var w' := Run(w, steps);
            ReadSetVersion(w.store.pv, paths) != ReadSetVersion(w'.store.pv, paths)
            <==> exists v :: w.store.version < v < |w'.deltas| && TouchesAny(w'.deltas[v], paths)
  {
    RunKeepsInv(w, steps);
    var w' := Run(w, steps);
    ReadSetVersionIsLastTouch(w, paths);
    ReadSetVersionIsLastTouch(w', paths);
    var a, b := ReadSetVersion(w.store.pv, paths), ReadSetVersion(w'.store.pv, paths);
    assert forall v :: 0 <= v <= w.store.version ==> w'.deltas[v] == w.deltas[v];
    assert a > 0 ==> TouchesAny(w'.deltas[a], paths);
    assert b > 0 ==> TouchesAny(w'.deltas[b], paths);
  }

  /** No touch, no flip: a predicate whose path is read keeps its truth while the read-set is untouched. */
  lemma {:induction false} UntouchedIsConstant(w: World, e: Expr, paths: set<Path>, lo: nat, hi: nat)
    requires Inv(w) && lo <= hi <= w.store.version
    requires e.path != [] ==> e.path in paths
    requires forall v :: lo < v <= hi ==> !TouchesAny(w.deltas[v], paths)
    ensures Constant(w.hist, e, Truth(e, w.hist[lo]), lo, hi)
    decreases hi - lo
  {
    if lo < hi {
      UntouchedIsConstant(w, e, paths, lo, hi - 1);
      assert forall q :: q in w.deltas[hi] && Related(q, e.path) ==> RelatedToAny(q, paths);
      assert Truth(e, w.hist[hi - 1]) == Truth(e, w.hist[hi]);
    }
  }

  /** Read-set scope: if the version of a read-set is the same at two instants, every predicate that
      reads only those paths has kept its truth value on every version in between. */
  lemma ReadSetVersionSound(w: World, steps: seq<Step>, paths: set<Path>, e: Expr)
    requires Inv(w)
    requires e.path != [] ==> e.path in paths
    requires ReadSetVersion(w.store.pv, paths) == ReadSetVersion(Run(w, steps).store.pv, paths)
    ensures var w' := Run(w, steps);
            w.store.version < |w'.hist|
            && Constant(w'.hist, e, Truth(e, w'.hist[w.store.version]), w.store.version, w'.store.version)
  {
    RunKeepsInv(w, steps);
    ReadSetVersionExact(w, steps, paths);
    UntouchedIsConstant(Run(w, steps), e, paths, w.store.version, Run(w, steps).store.version);
  }

  // ---------------------------------------------------------------- truth versions

  /** In every reachable state a stored truth bit equals a fresh evaluation. */
  lemma TruthBitsAreCurrent(steps: seq<Step>, e: Expr)
    requires e in Run(INITIAL, steps).store.preds
    ensures var s := Run(INITIAL, steps).store; s.preds[e].truth == Truth(e, s.ctx)
  {
    ReachableInv(steps);
    var w := Run(INITIAL, steps);
    assert Truth(e, w.hist[w.store.version]) == w.store.preds[e].truth;
  }

  /** A registered set whose version does not exceed an earlier store version has not flipped since. */
  lemma OldVersionMeansConstant(w: World, es: seq<Expr>, from: nat)
    requires Inv(w)
    requires 0 <= PredicateVersion(w.store.preds, es) <= from <= w.store.version
    ensures forall i :: 0 <= i < |es| ==>
              Constant(w.hist, es[i], Truth(es[i], w.hist[from]), from, w.store.version)
  {
    forall i | 0 <= i < |es|
      ensures Constant(w.hist, es[i], Truth(es[i], w.hist[from]), from, w.store.version)
    {
      var all := set k | 0 <= k < |es| :: w.store.preds[es[k]].version;
      assert w.store.preds[es[i]].version in all;
      assert Truth(es[i], w.hist[from]) == w.store.preds[es[i]].truth;
    }
  }

  lemma PredicateVersionBounded(w: World, es: seq<Expr>)
    requires Inv(w)
    ensures PredicateVersion(w.store.preds, es) <= w.store.version
  {
  }

  /** Truth-version soundness: equal non-negative versions at two instants mean that no predicate of the
      set flipped in between, whatever was retired and registered again meanwhile. */
  lemma TruthVersionSound(w: World, steps: seq<Step>, es: seq<Expr>)
    requires Inv(w)
    requires var w' := Run(w, steps);
             0 <= PredicateVersion(w.store.preds, es) == PredicateVersion(w'.store.preds, es)
    ensures var w' := Run(w, steps);
            w.store.version < |w'.hist|
            && forall i :: 0 <= i < |es| ==>
                 Constant(w'.hist, es[i], Truth(es[i], w'.hist[w.store.version]), w.store.version, w'.store.version)
  {
    RunKeepsInv(w, steps);
    PredicateVersionBounded(w, es);
    OldVersionMeansConstant(Run(w, steps), es, w.store.version);
  }

  /** A predicate that stays registered through a run. */
  ghost predicate StaysRegistered(w: World, steps: seq<Step>, e: Expr) {
    forall k {:trigger steps[..k]} :: 0 <= k <= |steps| ==> e in Run(w, steps[..k]).store.preds
  }

  lemma RunPrefixes(steps: seq<Step>, k: nat)
    requires steps != [] && k <= |steps| - 1
    ensures steps[..|steps| - 1][..k] == steps[..k]
  {
  }

  /** One step moves the version of a predicate that stays registered only by flipping it. */
  lemma VersionMovesOnlyByFlip(m: World, step: Step, e: Expr)
    requires WellFormed(m) && RegistryExact(m)
    requires e in m.store.preds && e in Do(m, step).store.preds
    ensures var w' := Do(m, step);
            || w'.store.preds[e].version == m.store.preds[e].version
            || (step.Update? && w'.store.preds[e].version == w'.store.version == m.store.version + 1
                && |w'.hist| == w'.store.version + 1
                && Truth(e, w'.hist[m.store.version]) != Truth(e, w'.hist[w'.store.version]))
  {
  }

  /** Without a flip, a predicate that stays registered keeps its version through a run. */
  lemma {:induction false} NoFlipKeepsVersion(w: World, steps: seq<Step>, e: Expr, b: bool)
    requires Inv(w) && StaysRegistered(w, steps, e)
    requires Constant(Run(w, steps).hist, e, b, w.store.version, Run(w, steps).store.version)
    ensures e in w.store.preds && e in Run(w, steps).store.preds
    ensures w.store.preds[e].version == Run(w, steps).store.preds[e].version
    decreases |steps|
  {
    assert steps[..0] == [] && steps[..|steps|] == steps;
    if steps != [] {
      var n := |steps| - 1;
      var before := steps[..n];
      forall k | 0 <= k <= |before| ensures e in Run(w, before[..k]).store.preds {
        RunPrefixes(steps, k);
        assert e in Run(w, steps[..k]).store.preds;
      }
      RunKeepsInv(w, before);
      StepExtends(Run(w, before), steps[n], e, b, w.store.version);
      NoFlipKeepsVersion(w, before, e, b);
      VersionMovesOnlyByFlip(Run(w, before), steps[n], e);
    }
  }

  lemma StepExtends(m: World, step: Step, e: Expr, b: bool, from: nat)
    requires WellFormed(m) && from <= m.store.version
    requires Constant(Do(m, step).hist, e, b, from, Do(m, step).store.version)
    ensures Constant(m.hist, e, b, from, m.store.version)
    ensures step.Update? ==> Truth(e, Do(m, step).hist[m.store.version]) == Truth(e, Do(m, step).hist[m.store.version + 1])
  {
    var w' := Do(m, step);
    assert forall v :: 0 <= v < |m.hist| ==> w'.hist[v] == m.hist[v];
    assert forall v :: from <= v <= m.store.version ==> Truth(e, m.hist[v]) == Truth(e, w'.hist[v]);
  }

  /** Completeness: while a predicate stays registered its version stands still exactly when it does
      not flip, so a value change that keeps it true never invalidates an intent. */
  lemma TruthVersionComplete(w: World, steps: seq<Step>, e: Expr)
    requires Inv(w) && StaysRegistered(w, steps, e)
    ensures var w' := Run(w, steps);
            && e in w.store.preds && e in w'.store.preds
            && (w.store.preds[e].version == w'.store.preds[e].version
                <==> Constant(w'.hist, e, w.store.preds[e].truth, w.store.version, w'.store.version))
  {
    RunKeepsInv(w, steps);
    assert steps[..0] == [] && steps[..|steps|] == steps;
    var w' := Run(w, steps);
    var b := w.store.preds[e].truth;
    assert Truth(e, w'.hist[w.store.version]) == b;
    if Constant(w'.hist, e, b, w.store.version, w'.store.version) {
      NoFlipKeepsVersion(w, steps, e, b);
    }
  }

  // ---------------------------------------------------------------- commits, exactly

  /** No update after version `from` changed a leaf equal to, above or below a path of the read-set. */
  ghost predicate Untouched(w: World, from: int, readSet: set<Path>) {
    forall v, p, q :: from < v <= w.store.version && 0 <= v < |w.deltas| && p in w.deltas[v] && q in readSet ==> !Related(p, q)
  }

  /** Between two states of a store a read-set keeps its version if and only if no update in between changed a
      leaf equal to, above or below one of its paths. */
  lemma ReadSetUnmovedIff(at: World, w: World, paths: set<Path>)
    requires Inv(at) && Inv(w) && at.deltas <= w.deltas
    ensures ReadSetVersion(w.store.pv, paths) == ReadSetVersion(at.store.pv, paths) <==> Untouched(w, at.store.version, paths)
  {
    ReadSetVersionIsLastTouch(at, paths);
    ReadSetVersionIsLastTouch(w, paths);
    var a, b := ReadSetVersion(at.store.pv, paths), ReadSetVersion(w.store.pv, paths);
    assert forall v :: 0 <= v <= at.store.version ==> w.deltas[v] == at.deltas[v];
    assert a > 0 ==> TouchesAny(w.deltas[a], paths);
    assert b > 0 ==> TouchesAny(w.deltas[b], paths);
    if Untouched(w, at.store.version, paths) {
      assert forall v :: at.store.version < v <= w.store.version ==> !TouchesAny(w.deltas[v], paths);
    } else {
      var v, p, q :| at.store.version < v <= w.store.version && p in w.deltas[v] && q in paths && Related(p, q);
      assert RelatedToAny(p, paths) && TouchesAny(w.deltas[v], paths);
    }
  }

  lemma RegisteredAt(at: World, steps: seq<Step>, es: seq<Expr>)
    requires forall e :: e in es ==> StaysRegistered(at, steps, e)
    ensures PredicateVersion(at.store.preds, es) >= 0
  {
    assert steps[..0] == [];
    forall e | e in es ensures e in at.store.preds {
      assert StaysRegistered(at, steps, e);
      assert e in Run(at, steps[..0]).store.preds;
    }
  }

  /** A set of predicates that stay registered, all true to begin with, keeps its truth version over a run if
      and only if each stayed true on every version. */
  lemma TruthUnmovedIff(at: World, steps: seq<Step>, es: seq<Expr>)
    requires Inv(at) && AllTrue(es, at.store.ctx) && forall e :: e in es ==> StaysRegistered(at, steps, e)
    ensures var w := Run(at, steps);
            && 0 <= PredicateVersion(at.store.preds, es)
            && (PredicateVersion(w.store.preds, es) == PredicateVersion(at.store.preds, es) <==>
                  forall e :: e in es ==> Constant(w.hist, e, true, at.store.version, w.store.version))
  {
    var w := Run(at, steps);
    RegisteredAt(at, steps, es);
    if PredicateVersion(w.store.preds, es) == PredicateVersion(at.store.preds, es) {
      TruthVersionSound(at, steps, es);
      RunKeepsInv(at, steps);
      assert w.hist[at.store.version] == at.store.ctx;
      forall e | e in es ensures Constant(w.hist, e, true, at.store.version, w.store.version) {
        var i :| 0 <= i < |es| && es[i] == e;
        assert Truth(es[i], at.store.ctx);
      }
    }
    if forall e :: e in es ==> Constant(w.hist, e, true, at.store.version, w.store.version) {
      var w := Run(at, steps);
      forall i | 0 <= i < |es|
        ensures es[i] in at.store.preds && es[i] in w.store.preds
        ensures at.store.preds[es[i]].version == w.store.preds[es[i]].version
      {
        NoFlipKeepsVersion(at, steps, es[i], true);
      }
      assert (set i | 0 <= i < |es| :: at.store.preds[es[i]].version) == (set i | 0 <= i < |es| :: w.store.preds[es[i]].version);
    }
  }

  /** Exactly when a commit goes through and what it logs: its id is new, its age within what the call allows,
      and the version it sees is the one it expects. Otherwise nothing at all is written. */
  lemma CommitIff(w: World, req: CommitRequest)
    requires req.expected >= 0
    ensures var t, age := Do(w, Commit(req)), req.now - req.decision;
            if && req.id !in w.store.committed
               && (req.maxAhead.Some? ==> age >= -req.maxAhead.value) && (req.bound.Some? ==> age <= req.bound.value)
               && (req.scope.ReadSetScope? ==> ReadSetVersion(w.store.pv, req.paths) == req.expected)
               && (req.scope.TruthScope? ==> PredicateVersion(w.store.preds, req.exprs) == req.expected)
            then t == w.(store := w.store.(log := w.store.log + [Authorization(req.id, w.store.version, req.now, age)],
                                           committed := w.store.committed + {req.id}))
            else t == w
  {
  }
}
