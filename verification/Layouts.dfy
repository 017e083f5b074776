/** The three storage layouts of the shared store and what each operation reads and writes in them.
    Models `_load_roots`, `_group_pv`, the update bodies and `_COMMIT_LUA` of xair/core/context_store.py.
    In the document and hash layouts the context and its versions are one value; in the shard layout
    every root has its own entry and an operation touches only the roots it names. */
module Layouts {
  import opened Wrappers
  import opened ContextTree
  import opened Predicates
  import opened Versioning
  import S = Store

  datatype Layout = Document | Hash | Shard

  datatype RootEntry = RootEntry(c: Value, pv: PathVersions)

  datatype Base =
    | Whole(version: nat, ctx: Tree, pv: PathVersions)
    | Sharded(version: nat, roots: map<Key, RootEntry>)

  /** Context and path versions of the named roots: what one read of them returns. */
  datatype View = View(version: nat, ctx: Tree, pv: PathVersions)

  function RootOf(e: Expr): Key { if e.path == [] then "" else e.path[0] }

  function RootsOf(changed: set<Path>): set<Key> { set p | p in changed && p != [] :: p[0] }

  /** Every stored path version sits in the entry of its own root. */
  predicate Homed(roots: map<Key, RootEntry>) {
    forall r :: r in roots ==> AllUnder(roots[r].pv, r)
  }

  predicate AllUnder(pv: PathVersions, r: Key) {
    forall p :: p in pv ==> p != [] && p[0] == r
  }

  predicate Fits(layout: Layout, base: Base) {
    if layout.Shard? then base.Sharded? && Homed(base.roots) else base.Whole?
  }

  function LoadCtx(roots: map<Key, RootEntry>, names: set<Key>): Tree {
    Obj(map r | r in names && r in roots :: roots[r].c)
  }

  function PathsUnder(roots: map<Key, RootEntry>, names: set<Key>): set<Path> {
    set r, p | r in names && r in roots && p in roots[r].pv :: p
  }

  function LoadPv(roots: map<Key, RootEntry>, names: set<Key>): PathVersions
    requires Homed(roots)
  {
    map p | p in PathsUnder(roots, names) :: roots[p[0]].pv[p]
  }

  // ---------------------------------------------------------------- abstraction

  function CtxOf(base: Base): Tree {
    match base
    case Whole(_, ctx, _) => ctx
    case Sharded(_, roots) => LoadCtx(roots, roots.Keys)
  }

  function PvOf(base: Base): PathVersions
    requires base.Sharded? ==> Homed(base.roots)
  {
    match base
    case Whole(_, _, pv) => pv
    case Sharded(_, roots) => LoadPv(roots, roots.Keys)
  }

  /** What an operation that needs the roots `names` reads. */
  function ReadBase(base: Base, names: set<Key>): View
    requires base.Sharded? ==> Homed(base.roots)
  {
    match base
    case Whole(version, ctx, pv) => View(version, ctx, pv)
    case Sharded(version, roots) => View(version, LoadCtx(roots, names), LoadPv(roots, names))
  }

  function Under(pv: PathVersions, r: Key): PathVersions {
    map p | p in pv && p != [] && p[0] == r :: pv[p]
  }

  /** Rewrite the entries of the named roots, leaving every other entry alone. */
  function WriteRoots(roots: map<Key, RootEntry>, merged: Tree, pv: PathVersions, names: set<Key>): (out: map<Key, RootEntry>)
    requires names <= merged.fields.Keys
  {
    map r | r in roots.Keys + names :: if r in names then RootEntry(merged.fields[r], Under(pv, r)) else roots[r]
  }

  /** What an update writes, computed from the view it read. */
  ghost function WriteBase(base: Base, view: View, patch: Tree): Base {
    var changed := ChangedPaths(view.ctx, patch);
    var merged: Tree := Merge(view.ctx, patch);
    var pv := S.Stamp(view.pv, changed, view.version + 1);
    match base
    case Whole(_, _, _) => Whole(view.version + 1, merged, pv)
    case Sharded(_, roots) => Sharded(view.version + 1, WriteRoots(roots, merged, pv, patch.fields.Keys))
  }

  /** A patch changes the same leaves whether the whole context or only its roots were read. */
  lemma PartialReadSeesSameChanges(roots: map<Key, RootEntry>, patch: Tree)
    ensures ChangedPaths(LoadCtx(roots, patch.fields.Keys), patch) == ChangedPaths(LoadCtx(roots, roots.Keys), patch)
  {
  }

  lemma ReadSeesSameChanges(base: Base, patch: Tree)
    requires base.Sharded? ==> Homed(base.roots)
    ensures ChangedPaths(ReadBase(base, patch.fields.Keys).ctx, patch) == ChangedPaths(CtxOf(base), patch)
    ensures ReadBase(base, patch.fields.Keys).version == base.version
  {
  }

  lemma PartialMerge(roots: map<Key, RootEntry>, patch: Tree, r: Key)
    requires r in patch.fields
    ensures var part, full := LoadCtx(roots, patch.fields.Keys), LoadCtx(roots, roots.Keys);
            && r in Merge(part, patch).fields && r in Merge(full, patch).fields
            && Merge(part, patch).fields[r] == Merge(full, patch).fields[r]
  {
  }

  lemma ChangedRoots(ctx: Tree, patch: Tree)
    ensures forall p :: p in ChangedPaths(ctx, patch) ==> p != [] && p[0] in patch.fields
  {
  }

  lemma MergeShape(base: Tree, patch: Tree)
    ensures var m := Merge(base, patch);
            && m.fields.Keys == base.fields.Keys + patch.fields.Keys
            && forall k :: k in base.fields && k !in patch.fields ==> m.fields[k] == base.fields[k]
  {
  }

  lemma WrittenHomed(roots: map<Key, RootEntry>, merged: Tree, pv: PathVersions, names: set<Key>)
    requires Homed(roots) && names <= merged.fields.Keys
    ensures Homed(WriteRoots(roots, merged, pv, names))
  {
  }

  lemma WrittenPvAt(roots: map<Key, RootEntry>, merged: Tree, pv: PathVersions, names: set<Key>, p: Path)
    requires Homed(roots) && names <= merged.fields.Keys
    ensures var after := WriteRoots(roots, merged, pv, names);
            && Homed(after)
            && var got := LoadPv(after, after.Keys);
            && (p in got <==> p != [] && if p[0] in names then p in pv else p in LoadPv(roots, roots.Keys))
            && (p in got ==> got[p] == if p[0] in names then pv[p] else LoadPv(roots, roots.Keys)[p])
  {
    WrittenHomed(roots, merged, pv, names);
    var after := WriteRoots(roots, merged, pv, names);
    assert (var pv := LoadPv(after, after.Keys);
            && (p in pv <==> p != [] && p[0] in after.Keys && p[0] in after && p in after[p[0]].pv)
            && (p in pv ==> pv[p] == after[p[0]].pv[p]));
    assert (var pv := LoadPv(roots, roots.Keys);
            && (p in pv <==> p != [] && p[0] in roots.Keys && p[0] in roots && p in roots[p[0]].pv)
            && (p in pv ==> pv[p] == roots[p[0]].pv[p]));
  }

  /** Stamping the loaded roots and keeping the others is stamping everything. */
  lemma StampByRoot(full: PathVersions, part: PathVersions, got: PathVersions,
                    changed: set<Path>, version: nat, names: set<Key>)
    requires forall p :: p in full ==> p != []
    requires forall p :: p in part <==> p in full && p[0] in names
    requires forall p :: p in part ==> part[p] == full[p]
    requires forall p :: p in changed ==> p != [] && p[0] in names
    requires var pv := S.Stamp(part, changed, version);
             && (forall p :: p in got <==> p != [] && if p[0] in names then p in pv else p in full)
             && (forall p :: p in got ==> got[p] == if p[0] in names then pv[p] else full[p])
    ensures got == S.Stamp(full, changed, version)
  {
  }

  lemma ShardPvAgrees(roots: map<Key, RootEntry>, merged: Tree, changed: set<Path>, version: nat, names: set<Key>,
                      pv: PathVersions, after: map<Key, RootEntry>)
    requires Homed(roots) && names <= merged.fields.Keys
    requires forall p :: p in changed ==> p != [] && p[0] in names
    requires pv == S.Stamp(LoadPv(roots, names), changed, version)
    requires after == WriteRoots(roots, merged, pv, names)
    ensures Homed(after)
    ensures LoadPv(after, after.Keys) == S.Stamp(LoadPv(roots, roots.Keys), changed, version)
  {
    var full, part := LoadPv(roots, roots.Keys), LoadPv(roots, names);
    WrittenHomed(roots, merged, pv, names);
    var got := LoadPv(after, after.Keys);
    forall p
      ensures p in full ==> p != []
      ensures p in part <==> p in full && p[0] in names
      ensures p in part ==> part[p] == full[p]
    {
      assert (var pv := LoadPv(roots, roots.Keys);
              && (p in pv <==> p != [] && p[0] in roots.Keys && p[0] in roots && p in roots[p[0]].pv)
              && (p in pv ==> pv[p] == roots[p[0]].pv[p]));
      assert (var pv := LoadPv(roots, names);
              && (p in pv <==> p != [] && p[0] in names && p[0] in roots && p in roots[p[0]].pv)
              && (p in pv ==> pv[p] == roots[p[0]].pv[p]));
    }
    forall p
      ensures p in got <==> p != [] && if p[0] in names then p in pv else p in full
      ensures p in got ==> got[p] == if p[0] in names then pv[p] else full[p]
    {
      WrittenPvAt(roots, merged, pv, names, p);
    }
    StampByRoot(full, part, got, changed, version, names);
  }

  lemma ShardCtxAgrees(roots: map<Key, RootEntry>, patch: Tree, pv: PathVersions)
    ensures var merged: Tree := Merge(LoadCtx(roots, patch.fields.Keys), patch);
            && patch.fields.Keys <= merged.fields.Keys
            && var after := WriteRoots(roots, merged, pv, patch.fields.Keys);
            LoadCtx(after, after.Keys) == Merge(LoadCtx(roots, roots.Keys), patch)
  {
  }

  /** An update that wrote `after` over `base` is the update of the whole context. */
  ghost predicate IsUpdate(base: Base, patch: Tree, after: Base)
    requires base.Sharded? ==> Homed(base.roots)
  {
    && (after.Sharded? <==> base.Sharded?)
    && (after.Sharded? ==> Homed(after.roots))
    && after.version == base.version + 1
    && CtxOf(after) == Merge(CtxOf(base), patch)
    && PvOf(after) == S.Stamp(PvOf(base), ChangedPaths(CtxOf(base), patch), base.version + 1)
  }

  lemma ShardWriteShape(version: nat, roots: map<Key, RootEntry>, patch: Tree)
    returns (ctx: Tree, pv: PathVersions, written: map<Key, RootEntry>)
    requires Homed(roots)
    ensures ctx == LoadCtx(roots, patch.fields.Keys) && pv == LoadPv(roots, patch.fields.Keys)
    ensures patch.fields.Keys <= Merge(ctx, patch).fields.Keys
    ensures written == WriteRoots(roots, Merge(ctx, patch), S.Stamp(pv, ChangedPaths(ctx, patch), version + 1), patch.fields.Keys)
    ensures var base := Sharded(version, roots);
            WriteBase(base, ReadBase(base, patch.fields.Keys), patch) == Sharded(version + 1, written)
  {
    ctx, pv := LoadCtx(roots, patch.fields.Keys), LoadPv(roots, patch.fields.Keys);
    MergeShape(ctx, patch);
    written := WriteRoots(roots, Merge(ctx, patch), S.Stamp(pv, ChangedPaths(ctx, patch), version + 1), patch.fields.Keys);
  }

  /** Layout refinement of updates: writing what was computed from the patch's roots alone is, seen
      through the abstraction, exactly the update of the whole context, its version and path versions. */
  lemma UpdateAgrees(base: Base, patch: Tree)
    requires base.Sharded? ==> Homed(base.roots)
    ensures IsUpdate(base, patch, WriteBase(base, ReadBase(base, patch.fields.Keys), patch))
  {
    if base.Sharded? {
      var ctx, pv, written := ShardWriteShape(base.version, base.roots, patch);
      PartialReadSeesSameChanges(base.roots, patch);
      ChangedRoots(ctx, patch);
      var changed, version := ChangedPaths(ctx, patch), base.version + 1;
      var stamped := S.Stamp(pv, changed, version);
      ShardCtxAgrees(base.roots, patch, stamped);
      ShardPvAgrees(base.roots, Merge(ctx, patch), changed, version, patch.fields.Keys, stamped, written);
    }
  }

  /** A predicate evaluated on a read that includes its root has the truth it has on the whole context. */
  lemma PartialReadSeesSameTruth(base: Base, names: set<Key>, e: Expr)
    requires base.Sharded? ==> Homed(base.roots)
    requires e.path != [] ==> e.path[0] in names
    ensures Truth(e, ReadBase(base, names).ctx) == Truth(e, CtxOf(base))
  {
  }

  // ---------------------------------------------------------------- what a reader is given

  function RootsRead(exprs: set<Expr>): set<Key> { set e | e in exprs && e.path != [] :: e.path[0] }

  function Restrict(preds: Registry, es: set<Expr>): Registry { map e | e in es && e in preds :: preds[e] }

  function RootsOnly(ctx: Tree, names: set<Key>): Tree { Obj(map r | r in names && r in ctx.fields :: ctx.fields[r]) }

  function PathsOnly(pv: PathVersions, names: set<Key>): PathVersions {
    map p | p in pv && p != [] && p[0] in names :: pv[p]
  }

  /** The document a registration of `es` hands to its caller: the whole context, or in the shard layout only
      the roots those predicates read, with their entries. */
  function DocOf(layout: Layout, st: S.Store, es: set<Expr>): S.Snapshot {
    var entries := Restrict(st.preds, es);
    if layout.Shard? then S.Snapshot(RootsOnly(st.ctx, RootsRead(es)), st.version, PathsOnly(st.pv, RootsRead(es)), entries)
    else S.Snapshot(st.ctx, st.version, st.pv, entries)
  }

  /** What is read from the database is that document. */
  lemma ReadIsRootsOnly(base: Base, names: set<Key>)
    requires base.Sharded? && Homed(base.roots)
    ensures var view := ReadBase(base, names);
            view.ctx == RootsOnly(CtxOf(base), names) && view.pv == PathsOnly(PvOf(base), names)
  {
    var view := ReadBase(base, names);
    assert view.ctx.fields == RootsOnly(CtxOf(base), names).fields;
    forall p ensures p in view.pv <==> p in PathsOnly(PvOf(base), names) {
      assert (var pv := LoadPv(base.roots, names);
              && (p in pv <==> p != [] && p[0] in names && p[0] in base.roots && p in base.roots[p[0]].pv)
              && (p in pv ==> pv[p] == base.roots[p[0]].pv[p]));
      assert (var pv := LoadPv(base.roots, base.roots.Keys);
              && (p in pv <==> p != [] && p[0] in base.roots.Keys && p[0] in base.roots && p in base.roots[p[0]].pv)
              && (p in pv ==> pv[p] == base.roots[p[0]].pv[p]));
    }
    forall p | p in view.pv ensures view.pv[p] == PathsOnly(PvOf(base), names)[p] {
      assert (var pv := LoadPv(base.roots, names);
              && (p in pv <==> p != [] && p[0] in names && p[0] in base.roots && p in base.roots[p[0]].pv)
              && (p in pv ==> pv[p] == base.roots[p[0]].pv[p]));
      assert (var pv := LoadPv(base.roots, base.roots.Keys);
              && (p in pv <==> p != [] && p[0] in base.roots.Keys && p[0] in base.roots && p in base.roots[p[0]].pv)
              && (p in pv ==> pv[p] == base.roots[p[0]].pv[p]));
    }
  }

  lemma ReadIsDoc(layout: Layout, base: Base, preds: Registry, log: seq<S.Record>, committed: set<S.Id>, es: set<Expr>)
    requires Fits(layout, base)
    ensures var view := ReadBase(base, RootsRead(es));
            S.Snapshot(view.ctx, view.version, view.pv, Restrict(preds, es))
            == DocOf(layout, S.Store(CtxOf(base), base.version, PvOf(base), preds, log, committed), es)
  {
    if layout.Shard? {
      ReadIsRootsOnly(base, RootsRead(es));
    }
  }

  /** A predicate that holds on part of a context has its root there, so it holds on the whole. */
  lemma HoldsOnPart(ctx: Tree, names: set<Key>, e: Expr)
    requires Truth(e, RootsOnly(ctx, names))
    ensures e.path != [] && e.path[0] in names && Truth(e, ctx)
  {
    var part := RootsOnly(ctx, names);
    TruthIsTyped(e, part);
    TruthNeedsOnlyItsRoot(e, part, ctx);
  }

  /** Validating on that document is validating on the store: if every predicate holds on it, they hold on
      the store, and both versions recorded are those of the store. */
  lemma DocIsFaithful(layout: Layout, st: S.Store, all: seq<Expr>, es: set<Expr>, registered: seq<Expr>)
    requires AllTrue(all, DocOf(layout, st, es).ctx) && forall e :: e in registered ==> e in es
    ensures AllTrue(all, st.ctx)
    ensures ReadSetVersion(DocOf(layout, st, es).pv, ReadSetOf(all)) == ReadSetVersion(st.pv, ReadSetOf(all))
    ensures PredicateVersion(DocOf(layout, st, es).preds, registered) == PredicateVersion(st.preds, registered)
  {
    EntriesSuffice(st.preds, es, registered);
    if layout.Shard? {
      var names := RootsRead(es);
      forall i | 0 <= i < |all| ensures Truth(all[i], st.ctx) && all[i].path != [] && all[i].path[0] in names {
        HoldsOnPart(st.ctx, names, all[i]);
      }
      var part := PathsOnly(st.pv, names);
      var a := set p | p in part && RelatedToAny(p, ReadSetOf(all)) :: part[p];
      var b := set p | p in st.pv && RelatedToAny(p, ReadSetOf(all)) :: st.pv[p];
      forall p | p in st.pv && RelatedToAny(p, ReadSetOf(all)) ensures p in part {
      }
      assert a == b;
    }
  }

  lemma EntriesSuffice(preds: Registry, es: set<Expr>, registered: seq<Expr>)
    requires forall e :: e in registered ==> e in es
    ensures PredicateVersion(Restrict(preds, es), registered) == PredicateVersion(preds, registered)
  {
    var part := Restrict(preds, es);
    assert AllRegistered(part, registered) <==> AllRegistered(preds, registered);
    if AllRegistered(preds, registered) {
      assert (set i | 0 <= i < |registered| :: part[registered[i]].version)
             == (set i | 0 <= i < |registered| :: preds[registered[i]].version);
    }
  }

  // ---------------------------------------------------------------- the commit script

  /** The version the script observes in each layout. The shard script looks only into the entries of
      the roots of the read paths. */
  ghost function ScriptObserved(base: Base, preds: Registry, req: S.CommitRequest): int
    requires base.Sharded? ==> Homed(base.roots)
  {
    match req.scope
    case TruthScope => PredicateVersion(preds, req.exprs)
    case ReadSetScope =>
      match base
      case Whole(_, _, pv) => ReadSetVersion(pv, req.paths)
      case Sharded(_, roots) =>
        var names := RootsOf(req.paths);
        MaxOf(set r, p | r in names && r in roots && p in roots[r].pv && RelatedToAny(p, req.paths) :: roots[r].pv[p])
  }

  /** Looking only into the roots of the read paths finds the same latest change. */
  lemma RootsSuffice(roots: map<Key, RootEntry>, paths: set<Path>)
    requires Homed(roots)
    ensures MaxOf(set r, p | r in RootsOf(paths) && r in roots && p in roots[r].pv && RelatedToAny(p, paths) :: roots[r].pv[p])
            == ReadSetVersion(LoadPv(roots, roots.Keys), paths)
  {
    var pv := LoadPv(roots, roots.Keys);
    var a := set r, p | r in RootsOf(paths) && r in roots && p in roots[r].pv && RelatedToAny(p, paths) :: roots[r].pv[p];
    var b := set p | p in pv && RelatedToAny(p, paths) :: pv[p];
    forall r, p | r in RootsOf(paths) && r in roots && p in roots[r].pv && RelatedToAny(p, paths)
      ensures roots[r].pv[p] in b
    {
      assert (var pv := LoadPv(roots, roots.Keys);
              && (p in pv <==> p != [] && p[0] in roots.Keys && p[0] in roots && p in roots[p[0]].pv)
              && (p in pv ==> pv[p] == roots[p[0]].pv[p]));
    }
    forall p | p in pv && RelatedToAny(p, paths)
      ensures pv[p] in a
    {
      assert (var pv := LoadPv(roots, roots.Keys);
              && (p in pv <==> p != [] && p[0] in roots.Keys && p[0] in roots && p in roots[p[0]].pv)
              && (p in pv ==> pv[p] == roots[p[0]].pv[p]));
      assert p[0] in RootsOf(paths) && p[0] in roots && p in roots[p[0]].pv;
    }
    assert a == b;
  }

  /** Commit agreement: the script and the in-memory commit decide alike on equal abstract states. */
  lemma CommitAgrees(base: Base, preds: Registry, req: S.CommitRequest)
    requires base.Sharded? ==> Homed(base.roots)
    ensures ScriptObserved(base, preds, req) == S.Observed(PvOf(base), preds, req)
  {
    if req.scope.ReadSetScope? && base.Sharded? {
      RootsSuffice(base.roots, req.paths);
    }
  }
}
