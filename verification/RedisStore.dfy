/** The shared store as it runs on Redis: any number of processes, each executing optimistic
    WATCH / read / MULTI / EXEC loops step by step, with a process-local cache of the predicate index.
    Models `_update_redis*`, `_register_redis*`, `_candidates`, `gc_predicates` and the atomic commit of
    xair/core/context_store.py, in all three layouts, and shows that they refine module Store. */
module RedisStore {
  import opened Wrappers
  import opened ContextTree
  import opened Predicates
  import opened Versioning
  import opened Layouts
  import S = Store

  type Pid = nat

  /** The keys of the database, with a revision counter for each watched one. `members` and `counters`
      are the index of the registry by root and its change counters (hash and shard layouts). */
  datatype Db = Db(
    base: Base,
    preds: Registry,
    members: map<Key, set<Expr>>,
    counters: map<Key, nat>,
    log: seq<S.Record>,
    committed: set<S.Id>,
    baseRev: nat,
    predRev: nat)

  function Members(db: Db, r: Key): set<Expr> { if r in db.members then db.members[r] else {} }

  function Count(db: Db, r: Key): nat { if r in db.counters then db.counters[r] else 0 }

  function Abs(db: Db): S.Store
    requires db.base.Sharded? ==> Homed(db.base.roots)
  {
    S.Store(CtxOf(db.base), db.base.version, PvOf(db.base), db.preds, db.log, db.committed)
  }

  /** Revisions seen by WATCH. */
  datatype Watch = Watch(base: nat, preds: nat)

  /** One line of the process-local index: a root's counter and the members fetched after it. */
  datatype Line = Line(count: nat, list: set<Expr>)

  /** Where a process is. Every constructor is a point between two round trips to the server. */
  datatype Pc =
    | Idle
    | UpdWatched(patch: Tree, w: Watch)
    | UpdVersion(patch: Tree, w: Watch, version: nat)
    | UpdViewed(patch: Tree, w: Watch, view: View, doc: Registry)
    | UpdCounted(patch: Tree, w: Watch, view: View, counts: map<Key, nat>, todo: set<Key>, cands: set<Expr>)
    | UpdReady(patch: Tree, w: Watch, view: View, entries: Registry, flips: Registry, some: bool)
    | RegWatched(exprs: set<Expr>, w: Watch)
    | RegVersion(exprs: set<Expr>, w: Watch, version: nat)
    | RegViewed(exprs: set<Expr>, w: Watch, view: View)
    | RegReady(exprs: set<Expr>, w: Watch, view: View, cur: Registry)
    | GcWatched(expr: Expr, horizon: real, w: Watch)
    | GcReady(expr: Expr, w: Watch)

  datatype Process = Process(pc: Pc, cache: map<Key, Line>)

  datatype System = System(layout: Layout, retention: real, db: Db, procs: map<Pid, Process>)

  /** EXEC goes through iff no watched key was written since WATCH. The document layout has one key. */
  predicate Fresh(layout: Layout, db: Db, w: Watch) {
    db.baseRev == w.base && (layout.Document? || db.predRev == w.preds)
  }

  // ---------------------------------------------------------------- what EXEC writes

  /** The predicates whose truth an update flips, with their new entries. */
  function Flips(entries: Registry, changed: set<Path>, merged: Tree, version: nat): Registry {
    map e | e in entries && Touches(changed, e.path) && Truth(e, merged) != entries[e].truth ::
      Entry(version, Truth(e, merged), entries[e].registeredAt)
  }

  /** The registry an update writes: in the document layout whole, otherwise only the flips. */
  function WrittenPreds(layout: Layout, preds: Registry, entries: Registry, flips: Registry): Registry {
    (if layout.Document? then entries else preds) + flips
  }

  /** `some` says whether there are flips to write: without one the registry key is not touched. */
  ghost function ExecUpdate(layout: Layout, db: Db, patch: Tree, view: View, entries: Registry, flips: Registry, some: bool): Db {
    db.(base := WriteBase(db.base, view, patch),
        preds := WrittenPreds(layout, db.preds, entries, flips),
        baseRev := db.baseRev + 1,
        predRev := if some then db.predRev + 1 else db.predRev)
  }

  /** The flips an update computes from what it read. */
  ghost function ReadyToWrite(patch: Tree, w: Watch, view: View, entries: Registry): Pc {
    var flips := Flips(entries, ChangedPaths(view.ctx, patch), Merge(view.ctx, patch), view.version + 1);
    UpdReady(patch, w, view, entries, flips, flips != map[])
  }

  function NewEntry(e: Expr, view: View, cur: Registry, now: real): Entry {
    if e in cur then cur[e].(registeredAt := now) else Entry(view.version, Truth(e, view.ctx), now)
  }

  /** The registrations a call rewrites: all of them, or in the document layout the missing and old ones. */
  function ToWrite(layout: Layout, retention: real, exprs: set<Expr>, cur: Registry, now: real): set<Expr> {
    if layout.Document?
    then set e | e in exprs && (e !in cur || cur[e].registeredAt < now - retention / 2.0)
    else exprs
  }

  /** The index after adding the written predicates under their roots. */
  function GrownMembers(db: Db, written: set<Expr>): map<Key, set<Expr>> {
    map r | r in db.members.Keys + (set e | e in written :: RootOf(e)) ::
      Members(db, r) + (set e | e in written && RootOf(e) == r)
  }

  function BumpedCounters(db: Db, grown: set<Key>): map<Key, nat> {
    map r | r in db.counters.Keys + grown :: if r in grown then Count(db, r) + 1 else Count(db, r)
  }

  /** Roots under which a registration adds a predicate that was not registered. */
  function GrownRoots(written: set<Expr>, cur: Registry): set<Key> {
    set e | e in written && e !in cur :: RootOf(e)
  }

  function ExecRegister(layout: Layout, db: Db, view: View, cur: Registry, written: set<Expr>, now: real): Db {
    var preds := db.preds + NewEntries(view, cur, written, now);
    if layout.Document? then db.(preds := preds, baseRev := db.baseRev + 1)
    else db.(preds := preds,
             members := GrownMembers(db, written),
             counters := BumpedCounters(db, GrownRoots(written, cur)),
             predRev := db.predRev + 1)
  }

  function ExecRetire(db: Db, expr: Expr): Db {
    var r := RootOf(expr);
    db.(preds := S.Retained(db.preds, {expr}),
        members := db.members[r := Members(db, r) - {expr}],
        counters := db.counters[r := Count(db, r) + 1],
        predRev := db.predRev + 1)
  }

  // ---------------------------------------------------------------- the processes

  datatype Action =
    | StartUpdate(patch: Tree)
    | StartRegister(exprs: set<Expr>)
    | ReadRegistered(exprs: set<Expr>, now: real)
    | StartRetire(expr: Expr, horizon: real)
    | Advance(now: real, root: Key)
    | Abandon
    | Restart
    | RunCommit(req: S.CommitRequest)
    | RunAppend(note: S.Record)

  function Watching(db: Db): Watch { Watch(db.baseRev, db.predRev) }

  /** The next round trip of a process; `now` is its clock, `root` the index line it looks at. */
  ghost function Advanced(layout: Layout, retention: real, db: Db, p: Process, now: real, root: Key): (Db, Process)
    requires Fits(layout, db.base)
  {
    match p.pc
    case Idle => (db, p)
    case UpdWatched(patch, w) =>
      if layout.Shard? then (db, p.(pc := UpdVersion(patch, w, db.base.version)))
      else (db, p.(pc := UpdViewed(patch, w, ReadBase(db.base, patch.fields.Keys), if layout.Document? then db.preds else map[])))
    case UpdVersion(patch, w, version) =>
      (db, p.(pc := UpdViewed(patch, w, ReadBase(db.base, patch.fields.Keys).(version := version), map[])))
    case UpdViewed(patch, w, view, doc) =>
      if layout.Document? then
        var kept := map e | e in doc && doc[e].registeredAt >= now - retention :: doc[e];
        (db, p.(pc := ReadyToWrite(patch, w, view, kept)))
      else
        var roots := RootsOf(ChangedPaths(view.ctx, patch));
        if roots == {} then (db, p.(pc := ReadyToWrite(patch, w, view, map[])))
        else (db, p.(pc := UpdCounted(patch, w, view, map r | r in roots :: Count(db, r), roots, {})))
    case UpdCounted(patch, w, view, counts, todo, cands) =>
      if todo == {} then (db, p.(pc := ReadyToWrite(patch, w, view, Restrict(db.preds, cands))))
      else if root !in todo || root !in counts then (db, p)
      else
        var line := if root in p.cache && p.cache[root].count == counts[root] then p.cache[root]
                    else Line(counts[root], Members(db, root));
        (db, Process(UpdCounted(patch, w, view, counts, todo - {root}, cands + line.list), p.cache[root := line]))
    case UpdReady(patch, w, view, entries, flips, some) =>
      if Fresh(layout, db, w) then (ExecUpdate(layout, db, patch, view, entries, flips, some), p.(pc := Idle))
      else (db, p.(pc := UpdWatched(patch, Watching(db))))
    case RegWatched(exprs, w) =>
      if layout.Shard? then (db, p.(pc := RegVersion(exprs, w, db.base.version)))
      else if layout.Document? then
        var cur := Restrict(db.preds, exprs);
        if ToWrite(layout, retention, exprs, cur, now) == {} then (db, p.(pc := Idle))
        else (db, p.(pc := RegReady(exprs, w, ReadBase(db.base, RootsRead(exprs)), cur)))
      else (db, p.(pc := RegViewed(exprs, w, ReadBase(db.base, RootsRead(exprs)))))
    case RegVersion(exprs, w, version) =>
      (db, p.(pc := RegViewed(exprs, w, ReadBase(db.base, RootsRead(exprs)).(version := version))))
    case RegViewed(exprs, w, view) =>
      (db, p.(pc := RegReady(exprs, w, view, Restrict(db.preds, exprs))))
    case RegReady(exprs, w, view, cur) =>
      var written := ToWrite(layout, retention, exprs, cur, now);
      if written != {} && Fresh(layout, db, w) then (ExecRegister(layout, db, view, cur, written, now), p.(pc := Idle))
      else (db, p.(pc := RegWatched(exprs, Watching(db))))
    case GcWatched(expr, horizon, w) =>
      if expr in db.preds && db.preds[expr].registeredAt < horizon
      then (db, p.(pc := GcReady(expr, w))) else (db, p.(pc := Idle))
    case GcReady(expr, w) =>
      if db.predRev == w.preds then (ExecRetire(db, expr), p.(pc := Idle)) else (db, p.(pc := Idle))
  }

  /** One action of one process; an action that does not apply changes nothing. An update with an empty
      patch fails on the shard layout before it reaches the server. */
  ghost function Act(s: System, pid: Pid, a: Action): System
    requires Fits(s.layout, s.db.base)
  {
    if pid !in s.procs then s
    else
      var p := s.procs[pid];
      match a
      case StartUpdate(patch) =>
        if p.pc.Idle? && !(s.layout.Shard? && patch == EMPTY)
        then s.(procs := s.procs[pid := p.(pc := UpdWatched(patch, Watching(s.db)))]) else s
      case StartRegister(exprs) =>
        if p.pc.Idle? then s.(procs := s.procs[pid := p.(pc := RegWatched(exprs, Watching(s.db)))]) else s
      case ReadRegistered(_, _) => s
      case StartRetire(expr, horizon) =>
        if p.pc.Idle? && !s.layout.Document?
        then s.(procs := s.procs[pid := p.(pc := GcWatched(expr, horizon, Watching(s.db)))]) else s
      case Advance(now, root) =>
        var (db, q) := Advanced(s.layout, s.retention, s.db, p, now, root);
        s.(db := db, procs := s.procs[pid := q])
      case Abandon => s.(procs := s.procs[pid := p.(pc := Idle)])
      case Restart => s.(procs := s.procs[pid := Process(Idle, map[])])
      case RunCommit(req) =>
        var observed := ScriptObserved(s.db.base, s.db.preds, req);
        if S.Decide(req.id in s.db.committed, observed, req) == S.Committed
        then s.(db := s.db.(log := s.db.log + [S.Authorization(req.id, s.db.base.version, req.now, req.Age())],
                            committed := s.db.committed + {req.id}))
        else s
      case RunAppend(note) =>
        if note.Authorization? then s else s.(db := s.db.(log := s.db.log + [note]))
  }

  function KeptBy(layout: Layout, preds: Registry, entries: Registry): set<Expr> {
    if layout.Document? then entries.Keys else preds.Keys
  }

  function StampsOf(written: set<Expr>, now: real): map<Expr, real> { map e | e in written :: now }

  /** The step of the atomic store that a round trip amounts to: an EXEC that goes through is the whole
      operation, every other round trip is nothing. */
  function EffectOf(layout: Layout, retention: real, db: Db, pc: Pc, now: real): S.Step {
    match pc
    case UpdReady(patch, w, _, entries, _, _) =>
      if Fresh(layout, db, w) then S.Update(patch, KeptBy(layout, db.preds, entries)) else S.Idle
    case RegReady(exprs, w, _, cur) =>
      var written := ToWrite(layout, retention, exprs, cur, now);
      if written != {} && Fresh(layout, db, w) then S.Register(StampsOf(written, now)) else S.Idle
    case GcReady(expr, w) => if db.predRev == w.preds then S.Retire({expr}) else S.Idle
    case _ => S.Idle
  }

  function Effect(s: System, pid: Pid, a: Action): S.Step {
    if pid !in s.procs then S.Idle
    else
      match a
      case RunCommit(req) => S.Commit(req)
      case RunAppend(note) => S.Append(note)
      case Advance(now, _) => EffectOf(s.layout, s.retention, s.db, s.procs[pid].pc, now)
      case _ => S.Idle
  }

  // ---------------------------------------------------------------- what calls return

  /** What a call hands to its caller: the new version, the document read with a registration, or the status of
      a commit with the position of its record. */
  datatype Answer =
    | Updated(version: nat)
    | Registered(exprs: set<Expr>, doc: S.Snapshot)
    | Decided(req: S.CommitRequest, status: S.Status, position: Option<nat>)

  /** The answer of the commit script, from what it observes in its layout. */
  ghost function Script(db: Db, req: S.CommitRequest): Answer
    requires db.base.Sharded? ==> Homed(db.base.roots)
  {
    var status := S.Decide(req.id in db.committed, ScriptObserved(db.base, db.preds, req), req);
    Decided(req, status, if status == S.Committed then Some(|db.log| + 1) else None)
  }

  function Doc(view: View, entries: Registry): S.Snapshot { S.Snapshot(view.ctx, view.version, view.pv, entries) }

  function NewEntries(view: View, cur: Registry, written: set<Expr>, now: real): Registry {
    map e | e in written :: NewEntry(e, view, cur, now)
  }

  /** Every predicate is registered, and recently enough not to be refreshed. */
  predicate AllRecent(retention: real, preds: Registry, exprs: set<Expr>, now: real) {
    forall e :: e in exprs ==> e in preds && preds[e].registeredAt >= now - retention / 2.0
  }

  /** The answer given at a round trip: by a successful EXEC, from what was read before it; by the document
      layout's read, if nothing is to be written. */
  function AnswerOf(layout: Layout, retention: real, db: Db, pc: Pc, now: real): Option<Answer>
    requires Fits(layout, db.base)
  {
    match pc
    case UpdReady(_, w, view, _, _, _) => if Fresh(layout, db, w) then Some(Updated(view.version + 1)) else None
    case RegWatched(exprs, _) =>
      if layout.Document? && ToWrite(layout, retention, exprs, Restrict(db.preds, exprs), now) == {}
      then Some(Registered(exprs, Doc(ReadBase(db.base, RootsRead(exprs)), Restrict(db.preds, exprs)))) else None
    case RegReady(exprs, w, view, cur) =>
      var written := ToWrite(layout, retention, exprs, cur, now);
      if written != {} && Fresh(layout, db, w)
      then Some(Registered(exprs, Doc(view, cur + NewEntries(view, cur, written, now)))) else None
    case _ => None
  }

  /** The answer of an action. Reading registered predicates is the fast path: one atomic read that answers
      if all of them are registered recently. */
  ghost function Answered(s: System, pid: Pid, a: Action): Option<Answer>
    requires Fits(s.layout, s.db.base)
  {
    if pid !in s.procs then None
    else
      match a
      case ReadRegistered(exprs, now) =>
        if s.procs[pid].pc.Idle? && AllRecent(s.retention, s.db.preds, exprs, now)
        then Some(Registered(exprs, Doc(ReadBase(s.db.base, RootsRead(exprs)), Restrict(s.db.preds, exprs)))) else None
      case Advance(now, _) => AnswerOf(s.layout, s.retention, s.db, s.procs[pid].pc, now)
      case RunCommit(req) => Some(Script(s.db, req))
      case _ => None
  }

  // ---------------------------------------------------------------- invariant

  function UnderRoot(preds: Registry, r: Key): set<Expr> { set e | e in preds && RootOf(e) == r }

  /** The index holds exactly the registered predicates, each under its root. */
  ghost predicate Indexed(layout: Layout, db: Db) {
    !layout.Document? ==> forall r :: Members(db, r) == UnderRoot(db.preds, r)
  }

  /** A cached line never runs ahead, and is right whenever its counter is current. */
  predicate Coherent(db: Db, cache: map<Key, Line>) {
    forall r :: r in cache ==>
      cache[r].count <= Count(db, r) && (cache[r].count == Count(db, r) ==> cache[r].list == Members(db, r))
  }

  predicate NotAhead(db: Db, w: Watch) { w.base <= db.baseRev && w.preds <= db.predRev }

  /** The entries an update read: all current, and none that a change touches is missing. */
  predicate Complete(layout: Layout, preds: Registry, entries: Registry, changed: set<Path>) {
    && (forall e :: e in entries ==> e in preds && preds[e] == entries[e])
    && (!layout.Document? ==> forall e :: e in preds && Touches(changed, e.path) ==> e in entries)
  }

  /** What a process knows, provided nothing it watches was written since. */
  ghost predicate Knows(layout: Layout, db: Db, pc: Pc)
    requires Fits(layout, db.base)
  {
    match pc
    case UpdVersion(_, _, version) => layout.Shard? && version == db.base.version
    case UpdViewed(patch, _, view, doc) =>
      view == ReadBase(db.base, patch.fields.Keys) && (layout.Document? ==> doc == db.preds)
    case UpdCounted(patch, _, view, counts, todo, cands) =>
      && !layout.Document?
      && view == ReadBase(db.base, patch.fields.Keys)
      && counts.Keys == RootsOf(ChangedPaths(view.ctx, patch))
      && (forall r :: r in counts ==> counts[r] == Count(db, r))
      && (forall r :: r in counts && r !in todo ==> Members(db, r) <= cands)
    case UpdReady(patch, w, view, entries, _, _) =>
      && view == ReadBase(db.base, patch.fields.Keys)
      && Complete(layout, db.preds, entries, ChangedPaths(view.ctx, patch))
      && pc == ReadyToWrite(patch, w, view, entries)
    case RegVersion(_, _, version) => layout.Shard? && version == db.base.version
    case RegViewed(exprs, _, view) => view == ReadBase(db.base, RootsRead(exprs))
    case RegReady(exprs, _, view, cur) =>
      view == ReadBase(db.base, RootsRead(exprs)) && cur == Restrict(db.preds, exprs)
    case _ => true
  }

  predicate HasWatch(pc: Pc) { !pc.Idle? }

  ghost predicate ProcessOk(layout: Layout, db: Db, p: Process)
    requires Fits(layout, db.base)
  {
    && Coherent(db, p.cache)
    && (HasWatch(p.pc) ==> NotAhead(db, p.pc.w) && (Fresh(layout, db, p.pc.w) ==> Knows(layout, db, p.pc)))
    && (p.pc.UpdCounted? ==> (forall r :: r in p.pc.counts ==> p.pc.counts[r] <= Count(db, r)))
    && (p.pc.GcWatched? || p.pc.GcReady? ==> !layout.Document?)
    && (p.pc.UpdCounted? ==> p.pc.todo <= p.pc.counts.Keys)
  }

  ghost predicate Inv(s: System) {
    && Fits(s.layout, s.db.base)
    && Indexed(s.layout, s.db)
    && forall pid :: pid in s.procs ==> ProcessOk(s.layout, s.db, s.procs[pid])
  }

  /** How the database may change under a process: revisions grow with every write of their key, and an
      index line's counter grows whenever the line changes. */
  ghost predicate Evolves(layout: Layout, db: Db, db': Db) {
    && db.baseRev <= db'.baseRev && db.predRev <= db'.predRev
    && (db.baseRev == db'.baseRev ==> db.base == db'.base && (layout.Document? ==> db.preds == db'.preds))
    && (!layout.Document? && db.predRev == db'.predRev ==>
          db.preds == db'.preds && db.members == db'.members && db.counters == db'.counters)
    && (forall r ::
          Count(db, r) <= Count(db', r) && (Count(db, r) == Count(db', r) ==> Members(db, r) == Members(db', r)))
  }

  /** Cache coherence and every process's knowledge survive whatever the other processes do. */
  lemma OthersKeepKnowledge(layout: Layout, db: Db, db': Db, p: Process)
    requires Fits(layout, db.base) && Fits(layout, db'.base)
    requires Evolves(layout, db, db') && ProcessOk(layout, db, p)
    ensures ProcessOk(layout, db', p)
  {
  }

  // ---------------------------------------------------------------- updates

  predicate SameTruths(entries: Registry, changed: set<Path>, part: Tree, full: Tree) {
    forall e :: e in entries && Touches(changed, e.path) ==> Truth(e, part) == Truth(e, full)
  }

  /** Writing only the flips is re-evaluating every registered predicate. */
  lemma FlipsReevaluateAll(layout: Layout, preds: Registry, entries: Registry, changed: set<Path>,
                           part: Tree, full: Tree, version: nat)
    requires Complete(layout, preds, entries, changed) && SameTruths(entries, changed, part, full)
    ensures WrittenPreds(layout, preds, entries, Flips(entries, changed, part, version))
            == S.ReevaluateAll(preds, KeptBy(layout, preds, entries), changed, full, version)
  {
  }

  /** The bare hypotheses of an EXEC that goes through: what the update read is what is there. */
  ghost predicate ReadCurrent(layout: Layout, base: Base, preds: Registry, patch: Tree, view: View, entries: Registry, flips: Registry)
    requires Fits(layout, base)
  {
    && view == ReadBase(base, patch.fields.Keys)
    && Complete(layout, preds, entries, ChangedPaths(view.ctx, patch))
    && flips == Flips(entries, ChangedPaths(view.ctx, patch), Merge(view.ctx, patch), view.version + 1)
  }

  lemma TouchedTruths(base: Base, patch: Tree, view: View, entries: Registry, changed: set<Path>)
    requires base.Sharded? ==> Homed(base.roots)
    requires view == ReadBase(base, patch.fields.Keys) && changed == ChangedPaths(view.ctx, patch)
    ensures SameTruths(entries, changed, Merge(view.ctx, patch), Merge(CtxOf(base), patch))
  {
    forall e | e in entries && Touches(changed, e.path)
      ensures Truth(e, Merge(view.ctx, patch)) == Truth(e, Merge(CtxOf(base), patch))
    {
      if base.Sharded? {
        PartialMerge(base.roots, patch, e.path[0]);
        TruthNeedsOnlyItsRoot(e, Merge(ReadBase(base, patch.fields.Keys).ctx, patch), Merge(CtxOf(base), patch));
      }
    }
  }

  lemma UpdateRegistry(layout: Layout, base: Base, preds: Registry, patch: Tree, view: View, entries: Registry, flips: Registry)
    requires Fits(layout, base) && ReadCurrent(layout, base, preds, patch, view, entries, flips)
    ensures WrittenPreds(layout, preds, entries, flips)
            == S.ReevaluateAll(preds, KeptBy(layout, preds, entries), ChangedPaths(CtxOf(base), patch), Merge(CtxOf(base), patch), base.version + 1)
  {
    var changed := ChangedPaths(view.ctx, patch);
    ReadSeesSameChanges(base, patch);
    TouchedTruths(base, patch, view, entries, changed);
    FlipsReevaluateAll(layout, preds, entries, changed, Merge(view.ctx, patch), Merge(CtxOf(base), patch), view.version + 1);
  }

  lemma UpdatedBase(layout: Layout, base: Base, patch: Tree)
    requires Fits(layout, base)
    ensures var after := WriteBase(base, ReadBase(base, patch.fields.Keys), patch);
            && Fits(layout, after)
            && after.version == base.version + 1
            && CtxOf(after) == Merge(CtxOf(base), patch)
            && PvOf(after) == S.Stamp(PvOf(base), ChangedPaths(CtxOf(base), patch), base.version + 1)
  {
    UpdateAgrees(base, patch);
    assert IsUpdate(base, patch, WriteBase(base, ReadBase(base, patch.fields.Keys), patch));
  }

  /** The abstract store after an update, from the parts that were written. */
  lemma UpdateFromParts(layout: Layout, db: Db, patch: Tree, view: View, entries: Registry, flips: Registry, some: bool,
                        after: Base, kept: set<Expr>)
    requires Fits(layout, db.base) && Fits(layout, after) && after == WriteBase(db.base, view, patch)
    requires after.version == db.base.version + 1 && CtxOf(after) == Merge(CtxOf(db.base), patch)
    requires PvOf(after) == S.Stamp(PvOf(db.base), ChangedPaths(CtxOf(db.base), patch), db.base.version + 1)
    requires WrittenPreds(layout, db.preds, entries, flips)
             == S.ReevaluateAll(db.preds, kept, ChangedPaths(CtxOf(db.base), patch), Merge(CtxOf(db.base), patch), db.base.version + 1)
    ensures ExecUpdate(layout, db, patch, view, entries, flips, some).base == after
    ensures Abs(ExecUpdate(layout, db, patch, view, entries, flips, some)) == S.UpdateStore(Abs(db), patch, kept)
  {
  }

  lemma UpdateFromRegistry(layout: Layout, db: Db, patch: Tree, view: View, entries: Registry, flips: Registry, some: bool,
                           kept: set<Expr>)
    requires Fits(layout, db.base) && view == ReadBase(db.base, patch.fields.Keys)
    requires WrittenPreds(layout, db.preds, entries, flips)
             == S.ReevaluateAll(db.preds, kept, ChangedPaths(CtxOf(db.base), patch), Merge(CtxOf(db.base), patch), db.base.version + 1)
    ensures Fits(layout, ExecUpdate(layout, db, patch, view, entries, flips, some).base)
    ensures Abs(ExecUpdate(layout, db, patch, view, entries, flips, some)) == S.UpdateStore(Abs(db), patch, kept)
  {
    UpdatedBase(layout, db.base, patch);
    UpdateFromParts(layout, db, patch, view, entries, flips, some, WriteBase(db.base, view, patch), kept);
  }

  /** A successful EXEC of an update is the atomic update. */
  lemma UpdateRefines(layout: Layout, db: Db, patch: Tree, view: View, entries: Registry, flips: Registry, some: bool)
    requires Fits(layout, db.base) && ReadCurrent(layout, db.base, db.preds, patch, view, entries, flips)
    ensures var db' := ExecUpdate(layout, db, patch, view, entries, flips, some);
            Fits(layout, db'.base) && Abs(db') == S.UpdateStore(Abs(db), patch, KeptBy(layout, db.preds, entries))
  {
    UpdateRegistry(layout, db.base, db.preds, patch, view, entries, flips);
    UpdateFromRegistry(layout, db, patch, view, entries, flips, some, KeptBy(layout, db.preds, entries));
  }

  lemma UpdateKeepsIndex(layout: Layout, db: Db, patch: Tree, view: View, entries: Registry, flips: Registry, some: bool)
    requires Indexed(layout, db) && flips.Keys <= entries.Keys <= db.preds.Keys && (some || flips == map[])
    ensures Indexed(layout, ExecUpdate(layout, db, patch, view, entries, flips, some))
    ensures Evolves(layout, db, ExecUpdate(layout, db, patch, view, entries, flips, some))
  {
    var db' := ExecUpdate(layout, db, patch, view, entries, flips, some);
    if !layout.Document? {
      assert db'.preds.Keys == db.preds.Keys;
      forall r ensures Members(db', r) == UnderRoot(db'.preds, r) {
        assert Members(db, r) == UnderRoot(db.preds, r);
        assert UnderRoot(db'.preds, r) == UnderRoot(db.preds, r);
      }
    }
    forall r ensures Count(db, r) == Count(db', r) && Members(db, r) == Members(db', r) {
    }
  }

  // ---------------------------------------------------------------- registration and retirement

  lemma RegisteredEntries(s: S.Store, view: View, exprs: set<Expr>, cur: Registry, written: set<Expr>, now: real)
    requires cur == Restrict(s.preds, exprs) && written <= exprs && view.version == s.version
    requires forall e :: e in written ==> Truth(e, view.ctx) == Truth(e, s.ctx)
    ensures s.preds + (map e | e in written :: NewEntry(e, view, cur, now))
            == S.RegisterAll(s, StampsOf(written, now)).preds
  {
  }

  /** A successful EXEC of a registration is the atomic registration. */
  lemma RegisterRefines(layout: Layout, db: Db, exprs: set<Expr>, view: View, cur: Registry, written: set<Expr>, now: real)
    requires Fits(layout, db.base) && view == ReadBase(db.base, RootsRead(exprs))
    requires cur == Restrict(db.preds, exprs) && written <= exprs
    ensures Abs(ExecRegister(layout, db, view, cur, written, now))
            == S.RegisterAll(Abs(db), StampsOf(written, now))
  {
    forall e | e in written ensures Truth(e, view.ctx) == Truth(e, CtxOf(db.base)) {
      PartialReadSeesSameTruth(db.base, RootsRead(exprs), e);
    }
    RegisteredEntries(Abs(db), view, exprs, cur, written, now);
  }

  lemma RegisterMembers(db: Db, db': Db, written: set<Expr>, r: Key)
    requires Members(db, r) == UnderRoot(db.preds, r)
    requires db'.members == GrownMembers(db, written) && db'.preds.Keys == db.preds.Keys + written
    ensures Members(db', r) == UnderRoot(db'.preds, r)
    ensures Members(db', r) == Members(db, r) + (set e | e in written && RootOf(e) == r)
  {
  }

  lemma RegisterCounter(db: Db, db': Db, exprs: set<Expr>, cur: Registry, written: set<Expr>, r: Key)
    requires cur == Restrict(db.preds, exprs) && written <= exprs
    requires Members(db, r) == UnderRoot(db.preds, r)
    requires db'.counters == BumpedCounters(db, GrownRoots(written, cur))
    ensures Count(db, r) <= Count(db', r)
    ensures Count(db, r) == Count(db', r) ==> forall e :: e in written && RootOf(e) == r ==> e in Members(db, r)
  {
  }

  lemma RegisterKeepsIndex(layout: Layout, db: Db, exprs: set<Expr>, view: View, cur: Registry, written: set<Expr>, now: real)
    requires Indexed(layout, db) && cur == Restrict(db.preds, exprs) && written <= exprs
    ensures Indexed(layout, ExecRegister(layout, db, view, cur, written, now))
    ensures Evolves(layout, db, ExecRegister(layout, db, view, cur, written, now))
  {
    if !layout.Document? {
      forall r ensures var db' := ExecRegister(layout, db, view, cur, written, now);
                       && Members(db', r) == UnderRoot(db'.preds, r)
                       && Count(db, r) <= Count(db', r)
                       && (Count(db, r) == Count(db', r) ==> Members(db, r) == Members(db', r))
      {
        var db' := ExecRegister(layout, db, view, cur, written, now);
        RegisterMembers(db, db', written, r);
        RegisterCounter(db, db', exprs, cur, written, r);
      }
    }
  }

  /** A successful EXEC of a retirement is the atomic retirement. */
  lemma RetireRefines(layout: Layout, db: Db, expr: Expr)
    requires Fits(layout, db.base)
    ensures Abs(ExecRetire(db, expr)) == S.RetireAll(Abs(db), {expr})
  {
  }

  lemma RetireIndexLine(db: Db, expr: Expr, r: Key)
    requires Members(db, r) == UnderRoot(db.preds, r)
    ensures var db' := ExecRetire(db, expr);
            && Members(db', r) == UnderRoot(db'.preds, r)
            && Count(db, r) <= Count(db', r)
            && (Count(db, r) == Count(db', r) ==> Members(db, r) == Members(db', r))
  {
  }

  lemma RetireKeepsIndex(layout: Layout, db: Db, expr: Expr)
    requires Indexed(layout, db) && !layout.Document?
    ensures Indexed(layout, ExecRetire(db, expr))
    ensures Evolves(layout, db, ExecRetire(db, expr))
  {
    forall r ensures var db' := ExecRetire(db, expr);
                     && Members(db', r) == UnderRoot(db'.preds, r)
                     && Count(db, r) <= Count(db', r)
                     && (Count(db, r) == Count(db', r) ==> Members(db, r) == Members(db', r))
    {
      RetireIndexLine(db, expr, r);
    }
  }

  // ---------------------------------------------------------------- round trips that write nothing

  /** Once every changed root's line was consulted, no predicate a change touches is missing. */
  lemma CandidatesComplete(layout: Layout, db: Db, patch: Tree, view: View, cands: set<Expr>)
    requires !layout.Document? && Indexed(layout, db)
    requires forall r :: r in RootsOf(ChangedPaths(view.ctx, patch)) ==> Members(db, r) <= cands
    ensures Complete(layout, db.preds, Restrict(db.preds, cands), ChangedPaths(view.ctx, patch))
  {
    forall e | e in db.preds && Touches(ChangedPaths(view.ctx, patch), e.path) ensures e in cands {
      assert e in UnderRoot(db.preds, RootOf(e));
      assert Members(db, RootOf(e)) == UnderRoot(db.preds, RootOf(e));
    }
  }

  /** Looking at one line of the index: the cache stays coherent and the line is right if it is current. */
  lemma ConsultLine(layout: Layout, db: Db, p: Process, root: Key, line: Line)
    requires Fits(layout, db.base) && ProcessOk(layout, db, p) && p.pc.UpdCounted? && root in p.pc.todo
    requires line == if root in p.cache && p.cache[root].count == p.pc.counts[root] then p.cache[root]
                     else Line(p.pc.counts[root], Members(db, root))
    ensures ProcessOk(layout, db, Process(p.pc.(todo := p.pc.todo - {root}, cands := p.pc.cands + line.list), p.cache[root := line]))
  {
    assert p.pc.counts[root] <= Count(db, root);
    assert Coherent(db, p.cache[root := line]);
  }

  predicate Reading(pc: Pc) {
    pc.UpdWatched? || pc.UpdVersion? || pc.UpdViewed? || pc.UpdCounted?
    || pc.RegWatched? || pc.RegVersion? || pc.RegViewed? || pc.GcWatched? || pc.Idle?
  }

  /** With no root changed there is no predicate to re-evaluate. */
  lemma NothingTouched(layout: Layout, db: Db, patch: Tree, view: View)
    requires !layout.Document? && Indexed(layout, db) && RootsOf(ChangedPaths(view.ctx, patch)) == {}
    ensures Complete(layout, db.preds, map[], ChangedPaths(view.ctx, patch))
  {
    CandidatesComplete(layout, db, patch, view, {});
    assert Restrict(db.preds, {}) == map[];
  }

  lemma ReadViewed(layout: Layout, retention: real, db: Db, p: Process, now: real, root: Key)
    requires Fits(layout, db.base) && Indexed(layout, db) && ProcessOk(layout, db, p) && p.pc.UpdViewed?
    ensures var (db', q) := Advanced(layout, retention, db, p, now, root);
            db' == db && ProcessOk(layout, db, q)
  {
    if !layout.Document? && RootsOf(ChangedPaths(p.pc.view.ctx, p.pc.patch)) == {} {
      NothingTouched(layout, db, p.pc.patch, p.pc.view);
    }
  }

  lemma ReadCounted(layout: Layout, retention: real, db: Db, p: Process, now: real, root: Key)
    requires Fits(layout, db.base) && Indexed(layout, db) && ProcessOk(layout, db, p) && p.pc.UpdCounted?
    ensures var (db', q) := Advanced(layout, retention, db, p, now, root);
            db' == db && ProcessOk(layout, db, q)
  {
    if p.pc.todo == {} {
      if Fresh(layout, db, p.pc.w) {
        CandidatesComplete(layout, db, p.pc.patch, p.pc.view, p.pc.cands);
      }
    } else if root in p.pc.todo {
      var line := if root in p.cache && p.cache[root].count == p.pc.counts[root] then p.cache[root]
                  else Line(p.pc.counts[root], Members(db, root));
      ConsultLine(layout, db, p, root, line);
    }
  }

  /** A round trip that only reads leaves the database alone and the process informed. */
  lemma ReadStep(layout: Layout, retention: real, db: Db, p: Process, now: real, root: Key)
    requires Fits(layout, db.base) && Indexed(layout, db) && ProcessOk(layout, db, p) && Reading(p.pc)
    ensures var (db', q) := Advanced(layout, retention, db, p, now, root);
            db' == db && ProcessOk(layout, db, q)
  {
    if p.pc.UpdViewed? {
      ReadViewed(layout, retention, db, p, now, root);
    } else if p.pc.UpdCounted? {
      ReadCounted(layout, retention, db, p, now, root);
    }
  }

  // ---------------------------------------------------------------- EXEC

  /** What one round trip must establish. */
  ghost predicate StepsWell(layout: Layout, retention: real, db: Db, p: Process, now: real, db': Db, q: Process)
    requires Fits(layout, db.base)
  {
    && Fits(layout, db'.base) && Indexed(layout, db') && Evolves(layout, db, db')
    && ProcessOk(layout, db', q)
    && Abs(db') == S.Apply(Abs(db), EffectOf(layout, retention, db, p.pc, now))
  }

  lemma IdleIsOk(layout: Layout, db: Db, db': Db, p: Process)
    requires Fits(layout, db.base) && Fits(layout, db'.base) && Evolves(layout, db, db') && ProcessOk(layout, db, p)
    ensures ProcessOk(layout, db', p.(pc := Idle))
  {
  }

  /** The EXEC of a registration, from what it read. */
  lemma RegisterExec(layout: Layout, retention: real, db: Db, exprs: set<Expr>, view: View, cur: Registry, now: real, written: set<Expr>,
                     db': Db)
    requires Fits(layout, db.base) && Indexed(layout, db)
    requires view == ReadBase(db.base, RootsRead(exprs)) && cur == Restrict(db.preds, exprs)
    requires written == ToWrite(layout, retention, exprs, cur, now) && db' == ExecRegister(layout, db, view, cur, written, now)
    ensures Fits(layout, db'.base) && Indexed(layout, db') && Evolves(layout, db, db')
    ensures Abs(db') == S.RegisterAll(Abs(db), StampsOf(written, now))
  {
    RegisterRefines(layout, db, exprs, view, cur, written, now);
    RegisterKeepsIndex(layout, db, exprs, view, cur, written, now);
  }

  lemma RegisterEffect(layout: Layout, retention: real, db: Db, pc: Pc, now: real)
    requires pc.RegReady? && Fresh(layout, db, pc.w) && ToWrite(layout, retention, pc.exprs, pc.cur, now) != {}
    ensures EffectOf(layout, retention, db, pc, now) == S.Register(StampsOf(ToWrite(layout, retention, pc.exprs, pc.cur, now), now))
  {
  }

  lemma StepFrom(layout: Layout, retention: real, db: Db, p: Process, now: real, db': Db, q: Process, step: S.Step)
    requires Fits(layout, db.base) && Fits(layout, db'.base) && Indexed(layout, db') && Evolves(layout, db, db')
    requires ProcessOk(layout, db', q)
    requires EffectOf(layout, retention, db, p.pc, now) == step && Abs(db') == S.Apply(Abs(db), step)
    ensures StepsWell(layout, retention, db, p, now, db', q)
  {
  }

  lemma ExecRegisterStep(layout: Layout, retention: real, db: Db, p: Process, now: real, db': Db)
    requires Fits(layout, db.base) && Indexed(layout, db) && ProcessOk(layout, db, p)
    requires p.pc.RegReady? && Fresh(layout, db, p.pc.w)
    requires ToWrite(layout, retention, p.pc.exprs, p.pc.cur, now) != {}
    requires db' == ExecRegister(layout, db, p.pc.view, p.pc.cur, ToWrite(layout, retention, p.pc.exprs, p.pc.cur, now), now)
    ensures StepsWell(layout, retention, db, p, now, db', p.(pc := Idle))
  {
    var written := ToWrite(layout, retention, p.pc.exprs, p.pc.cur, now);
    assert Knows(layout, db, p.pc);
    RegisterExec(layout, retention, db, p.pc.exprs, p.pc.view, p.pc.cur, now, written, db');
    RegisterEffect(layout, retention, db, p.pc, now);
    IdleIsOk(layout, db, db', p);
    StepFrom(layout, retention, db, p, now, db', p.(pc := Idle), S.Register(StampsOf(written, now)));
  }

  /** A round trip that is not an EXEC that goes through. */
  lemma QuietTrip(layout: Layout, retention: real, db: Db, p: Process, now: real, root: Key)
    requires Fits(layout, db.base) && Indexed(layout, db) && ProcessOk(layout, db, p)
    requires EffectOf(layout, retention, db, p.pc, now) == S.Idle
    ensures var (db', q) := Advanced(layout, retention, db, p, now, root);
            db' == db && ProcessOk(layout, db, q)
  {
    if Reading(p.pc) {
      ReadStep(layout, retention, db, p, now, root);
    }
  }

  // ---------------------------------------------------------------- a process left alone

  /** How many kinds of round trip an update still has before it. */
  function Phase(pc: Pc): nat {
    if pc.UpdWatched? then 5 else if pc.UpdVersion? then 4 else if pc.UpdViewed? then 3 else if pc.UpdCounted? then 2
    else if pc.UpdReady? then 1 else 0
  }

  /** No key the process watches was written since it began to watch. */
  predicate Undisturbed(layout: Layout, db: Db, w: Watch) { db.baseRev == w.base && (!layout.Document? ==> db.predRev == w.preds) }

  /** An undisturbed update gets to its EXEC: each round trip before it leaves fewer of them, or fewer index lines
      to look at. In the document layout it prepares to keep exactly the registrations that are not older than
      the retention. */
  lemma AloneUpdates(layout: Layout, retention: real, db: Db, p: Process, now: real, root: Key)
    requires Fits(layout, db.base) && ProcessOk(layout, db, p) && Phase(p.pc) > 1 && Undisturbed(layout, db, p.pc.w)
    requires p.pc.UpdCounted? && p.pc.todo != {} ==> root in p.pc.todo
    ensures var (db', q) := Advanced(layout, retention, db, p, now, root);
            && db' == db && Phase(q.pc) > 0 && q.pc.patch == p.pc.patch && q.pc.w == p.pc.w
            && (Phase(q.pc) < Phase(p.pc) || (p.pc.UpdCounted? && q.pc.UpdCounted? && q.pc.todo < p.pc.todo))
            && (layout.Document? && q.pc.UpdReady? ==>
                  forall e :: e in q.pc.entries <==> e in db.preds && db.preds[e].registeredAt >= now - retention)
  {
    if p.pc.UpdViewed? {
      assert Knows(layout, db, p.pc);
    }
  }

  /** And its EXEC is the atomic update, which keeps what was prepared, or in the other layouts everything. */
  lemma AloneWrites(layout: Layout, retention: real, db: Db, p: Process, now: real, root: Key)
    requires Fits(layout, db.base) && ProcessOk(layout, db, p) && p.pc.UpdReady? && Undisturbed(layout, db, p.pc.w)
    ensures var (db', q) := Advanced(layout, retention, db, p, now, root);
            && q.pc.Idle? && Fits(layout, db'.base)
            && Abs(db') == S.UpdateStore(Abs(db), p.pc.patch, if layout.Document? then p.pc.entries.Keys else db.preds.Keys)
  {
    var UpdReady(patch, w, view, entries, flips, some) := p.pc;
    assert Knows(layout, db, p.pc);
    UpdateRefines(layout, db, patch, view, entries, flips, some);
  }

  /** The EXEC of an undisturbed registration stamps the predicates it was asked for: all of them, or in the document
      layout those that are missing or older than half the retention. */
  lemma AloneRegisters(layout: Layout, retention: real, db: Db, p: Process, now: real, root: Key, due: set<Expr>)
    requires Fits(layout, db.base) && ProcessOk(layout, db, p) && p.pc.RegReady? && Undisturbed(layout, db, p.pc.w) && due != {}
    requires forall e :: e in due <==>
               e in p.pc.exprs && (layout.Document? ==> e !in db.preds || db.preds[e].registeredAt < now - retention / 2.0)
    ensures var (db', q) := Advanced(layout, retention, db, p, now, root);
            q.pc.Idle? && Fits(layout, db'.base) && Abs(db') == S.RegisterAll(Abs(db), map e | e in due :: now)
  {
    assert Knows(layout, db, p.pc);
    assert due == ToWrite(layout, retention, p.pc.exprs, p.pc.cur, now);
    RegisterRefines(layout, db, p.pc.exprs, p.pc.view, p.pc.cur, due, now);
  }

  /** An undisturbed collection retires its predicate exactly if it is registered and older than the horizon. */
  lemma AloneRetires(layout: Layout, retention: real, db: Db, p: Process, now: real, root: Key)
    requires Fits(layout, db.base) && ProcessOk(layout, db, p) && p.pc.GcWatched? && Undisturbed(layout, db, p.pc.w)
    ensures var (db1, q) := Advanced(layout, retention, db, p, now, root);
            var (db2, r) := Advanced(layout, retention, db1, q, now, root);
            if p.pc.expr in db.preds && db.preds[p.pc.expr].registeredAt < p.pc.horizon
            then r.pc.Idle? && Fits(layout, db2.base) && Abs(db2) == S.RetireAll(Abs(db), {p.pc.expr})
            else q.pc.Idle? && db1 == db
  {
    var (db1, q) := Advanced(layout, retention, db, p, now, root);
    if q.pc.GcReady? {
      assert db1 == db && Advanced(layout, retention, db, q, now, root).0 == ExecRetire(db, p.pc.expr);
      RetireRefines(layout, db, p.pc.expr);
    }
  }

  /** Every round trip of a process is a step of the atomic store, or nothing. */
  lemma RoundTrip(layout: Layout, retention: real, db: Db, p: Process, now: real, root: Key)
    requires Fits(layout, db.base) && Indexed(layout, db) && ProcessOk(layout, db, p)
    ensures var (db', q) := Advanced(layout, retention, db, p, now, root);
            StepsWell(layout, retention, db, p, now, db', q)
  {
    if EffectOf(layout, retention, db, p.pc, now) == S.Idle {
      QuietTrip(layout, retention, db, p, now, root);
      var (db', q) := Advanced(layout, retention, db, p, now, root);
    } else if p.pc.UpdReady? {
      var UpdReady(patch, w, view, entries, flips, some) := p.pc;
      var db' := ExecUpdate(layout, db, patch, view, entries, flips, some);
      assert Knows(layout, db, p.pc);
      assert ReadCurrent(layout, db.base, db.preds, patch, view, entries, flips);
      UpdateRefines(layout, db, patch, view, entries, flips, some);
      UpdateKeepsIndex(layout, db, patch, view, entries, flips, some);
      IdleIsOk(layout, db, db', p);
    } else if p.pc.RegReady? {
      ExecRegisterStep(layout, retention, db, p, now, Advanced(layout, retention, db, p, now, root).0);
    } else {
      assert (var (db', q) := Advanced(layout, retention, db, p, now, root);
              StepsWell(layout, retention, db, p, now, db', q)) by {
        RetireRefines(layout, db, p.pc.expr);
        RetireKeepsIndex(layout, db, p.pc.expr);
        IdleIsOk(layout, db, ExecRetire(db, p.pc.expr), p);
      }
    }
  }

  // ---------------------------------------------------------------- the whole system

  lemma AllProcesses(s: System, pid: Pid, db': Db, q: Process)
    requires Inv(s) && pid in s.procs && Fits(s.layout, db'.base) && Indexed(s.layout, db')
    requires Evolves(s.layout, s.db, db') && ProcessOk(s.layout, db', q)
    ensures Inv(s.(db := db', procs := s.procs[pid := q]))
  {
    var t := s.(db := db', procs := s.procs[pid := q]);
    forall other | other in t.procs ensures ProcessOk(s.layout, db', t.procs[other]) {
      if other != pid {
        OthersKeepKnowledge(s.layout, s.db, db', s.procs[other]);
      }
    }
  }

  /** The log and the committed ids are not watched by anyone. */
  lemma LogIsUnwatched(s: System, log: seq<S.Record>, committed: set<S.Id>)
    requires Inv(s)
    ensures Inv(s.(db := s.db.(log := log, committed := committed)))
  {
    var db' := s.db.(log := log, committed := committed);
    assert Evolves(s.layout, s.db, db') by {
      forall r ensures Count(db', r) == Count(s.db, r) && Members(db', r) == Members(s.db, r) {
      }
    }
    assert Indexed(s.layout, db') by {
      forall r ensures Members(db', r) == Members(s.db, r) {
      }
    }
    forall pid | pid in s.procs ensures ProcessOk(s.layout, db', s.procs[pid]) {
      OthersKeepKnowledge(s.layout, s.db, db', s.procs[pid]);
    }
  }

  lemma CommitScriptRefines(s: System, pid: Pid, req: S.CommitRequest)
    requires Fits(s.layout, s.db.base) && pid in s.procs
    ensures Act(s, pid, RunCommit(req)).layout == s.layout && Fits(s.layout, Act(s, pid, RunCommit(req)).db.base)
    ensures Abs(Act(s, pid, RunCommit(req)).db) == S.Apply(Abs(s.db), S.Commit(req))
  {
    CommitAgrees(s.db.base, s.db.preds, req);
    var log := s.db.log + [S.Authorization(req.id, s.db.base.version, req.now, req.Age())];
    var committed := s.db.committed + {req.id};
    assert Abs(s.db.(log := log, committed := committed)) == Abs(s.db).(log := log, committed := committed);
  }

  lemma StartKeeps(s: System, pid: Pid, a: Action)
    requires Inv(s) && pid in s.procs
    requires !a.Advance? && !a.RunCommit? && !a.RunAppend?
    ensures var s' := Act(s, pid, a); Inv(s') && s'.db == s.db
  {
    match a
    case StartUpdate(patch) =>
      assert ProcessOk(s.layout, s.db, s.procs[pid].(pc := UpdWatched(patch, Watching(s.db))));
      assert Evolves(s.layout, s.db, s.db);
      AllProcesses(s, pid, s.db, s.procs[pid].(pc := UpdWatched(patch, Watching(s.db))));
    case StartRegister(exprs) =>
      assert ProcessOk(s.layout, s.db, s.procs[pid].(pc := RegWatched(exprs, Watching(s.db))));
      assert Evolves(s.layout, s.db, s.db);
      AllProcesses(s, pid, s.db, s.procs[pid].(pc := RegWatched(exprs, Watching(s.db))));
    case StartRetire(expr, horizon) =>
      if !s.layout.Document? {
        assert ProcessOk(s.layout, s.db, s.procs[pid].(pc := GcWatched(expr, horizon, Watching(s.db))));
        assert Evolves(s.layout, s.db, s.db);
        AllProcesses(s, pid, s.db, s.procs[pid].(pc := GcWatched(expr, horizon, Watching(s.db))));
      }
    case ReadRegistered(_, _) =>
    case Abandon =>
      assert ProcessOk(s.layout, s.db, s.procs[pid].(pc := Idle));
      assert Evolves(s.layout, s.db, s.db);
      AllProcesses(s, pid, s.db, s.procs[pid].(pc := Idle));
    case Restart =>
      assert Evolves(s.layout, s.db, s.db);
      AllProcesses(s, pid, s.db, Process(Idle, map[]));
  }

  /** Refinement, one action: whatever process acts and however far others got, the action is a step of
      the atomic store. */
  lemma ActRefines(s: System, pid: Pid, a: Action)
    requires Inv(s)
    ensures Inv(Act(s, pid, a))
    ensures Abs(Act(s, pid, a).db) == S.Apply(Abs(s.db), Effect(s, pid, a))
  {
    if pid in s.procs {
      if a.Advance? {
        RoundTrip(s.layout, s.retention, s.db, s.procs[pid], a.now, a.root);
        var (db', q) := Advanced(s.layout, s.retention, s.db, s.procs[pid], a.now, a.root);
        AllProcesses(s, pid, db', q);
      } else if a.RunCommit? {
        var log := s.db.log + [S.Authorization(a.req.id, s.db.base.version, a.req.now, a.req.Age())];
        LogIsUnwatched(s, log, s.db.committed + {a.req.id});
        CommitScriptRefines(s, pid, a.req);
      } else if a.RunAppend? {
        LogIsUnwatched(s, s.db.log + [a.note], s.db.committed);
      } else {
        StartKeeps(s, pid, a);
      }
    }
  }

  // ---------------------------------------------------------------- answers

  /** An answer agrees with the store before and after its step: the version is the new one; the document is the
      store's, with an entry for every predicate asked for; the status is that of the atomic commit, and the
      record is where it says. */
  ghost predicate Agrees(layout: Layout, ans: Answer, before: S.Store, st: S.Store) {
    match ans
    case Updated(version) => version == st.version
    case Registered(exprs, doc) => doc == DocOf(layout, st, exprs) && forall e :: e in exprs ==> e in doc.preds
    case Decided(req, status, position) =>
      && status == S.CommitStatus(before, req) && position == (if status == S.Committed then Some(|st.log|) else None)
      && st == if status == S.Committed then S.Authorize(before, req) else before
  }

  lemma ReadAgrees(layout: Layout, db: Db, exprs: set<Expr>)
    requires Fits(layout, db.base) && forall e :: e in exprs ==> e in db.preds
    ensures forall before :: Agrees(layout, Registered(exprs, Doc(ReadBase(db.base, RootsRead(exprs)), Restrict(db.preds, exprs))), before, Abs(db))
  {
    ReadIsDoc(layout, db.base, db.preds, db.log, db.committed, exprs);
  }

  /** After the EXEC of a registration the entries asked for are those that were read, updated by those that
      were written. */
  lemma WrittenEntries(layout: Layout, db: Db, exprs: set<Expr>, view: View, cur: Registry, written: set<Expr>, now: real)
    requires cur == Restrict(db.preds, exprs) && written <= exprs && exprs <= cur.Keys + written
    ensures var preds := db.preds + NewEntries(view, cur, written, now);
            Restrict(preds, exprs) == cur + NewEntries(view, cur, written, now) && forall e :: e in exprs ==> e in preds
  {
  }

  lemma AdvanceAnswerAgrees(layout: Layout, retention: real, db: Db, p: Process, now: real, root: Key)
    requires Fits(layout, db.base) && ProcessOk(layout, db, p) && AnswerOf(layout, retention, db, p.pc, now).Some?
    ensures var db' := Advanced(layout, retention, db, p, now, root).0;
            Fits(layout, db'.base) ==> Agrees(layout, AnswerOf(layout, retention, db, p.pc, now).value, Abs(db), Abs(db'))
  {
    match p.pc
    case UpdReady(patch, w, view, entries, flips, some) => assert Knows(layout, db, p.pc);
    case RegWatched(exprs, w) =>
      assert forall e :: e in exprs && e !in db.preds ==> e in ToWrite(layout, retention, exprs, Restrict(db.preds, exprs), now);
      ReadAgrees(layout, db, exprs);
    case RegReady(exprs, w, view, cur) =>
      assert Knows(layout, db, p.pc);
      var written := ToWrite(layout, retention, exprs, cur, now);
      var db' := ExecRegister(layout, db, view, cur, written, now);
      WrittenEntries(layout, db, exprs, view, cur, written, now);
      ReadAgrees(layout, db', exprs);
  }

  lemma CommitAnswerAgrees(s: System, pid: Pid, req: S.CommitRequest)
    requires Fits(s.layout, s.db.base) && pid in s.procs && Fits(s.layout, Act(s, pid, RunCommit(req)).db.base)
    ensures Agrees(s.layout, Script(s.db, req), Abs(s.db), Abs(Act(s, pid, RunCommit(req)).db))
  {
    CommitAgrees(s.db.base, s.db.preds, req);
    CommitScriptRefines(s, pid, req);
  }

  /** Every answer is atomic: it agrees with the store as the answering round trip leaves it. */
  lemma AnswersAreAtomic(s: System, pid: Pid, a: Action)
    requires Inv(s) && Answered(s, pid, a).Some?
    ensures var s' := Act(s, pid, a);
            Inv(s') && s'.layout == s.layout && Agrees(s.layout, Answered(s, pid, a).value, Abs(s.db), Abs(s'.db))
  {
    ActRefines(s, pid, a);
    match a
    case ReadRegistered(exprs, now) => ReadAgrees(s.layout, s.db, exprs);
    case Advance(now, root) => AdvanceAnswerAgrees(s.layout, s.retention, s.db, s.procs[pid], now, root);
    case RunCommit(req) => CommitAnswerAgrees(s, pid, req);
  }

  /** The step behind the answer of a registration is a registration: the answered document is the one that
      registering some predicates and reading the store in one step gives. */
  lemma RegistrationIsOneStep(s: System, pid: Pid, a: Action)
    requires Inv(s) && Answered(s, pid, a).Some? && Answered(s, pid, a).value.Registered?
    ensures Inv(Act(s, pid, a)) && exists stamps :: Abs(Act(s, pid, a).db) == S.RegisterAll(Abs(s.db), stamps)
  {
    ActRefines(s, pid, a);
    var step := Effect(s, pid, a);
    if step.Idle? {
      assert Abs(Act(s, pid, a).db) == S.RegisterAll(Abs(s.db), map[]);
    } else {
      assert Abs(Act(s, pid, a).db) == S.RegisterAll(Abs(s.db), step.stamps);
    }
  }

  // ---------------------------------------------------------------- runs

  datatype Event = Event(pid: Pid, action: Action)

  ghost function RunAll(s: System, events: seq<Event>): System
    requires Inv(s)
    ensures Inv(RunAll(s, events)) && RunAll(s, events).layout == s.layout
    decreases |events|
  {
    if events == [] then s
    else
      var before := RunAll(s, events[..|events| - 1]);
      var last := events[|events| - 1];
      ActRefines(before, last.pid, last.action);
      Act(before, last.pid, last.action)
  }

  /** The atomic steps a run amounts to, in the order of its successful EXECs and scripts. */
  ghost function Effects(s: System, events: seq<Event>): seq<S.Step>
    requires Inv(s)
    decreases |events|
  {
    if events == [] then []
    else
      var init := events[..|events| - 1];
      var last := events[|events| - 1];
      Effects(s, init) + [Effect(RunAll(s, init), last.pid, last.action)]
  }

  /** A fresh database with any set of idle processes. */
  function Boot(layout: Layout, retention: real, pids: set<Pid>): System {
    System(layout, retention,
           Db(if layout.Shard? then Sharded(0, map[]) else Whole(0, EMPTY, map[]), map[], map[], map[], [], {}, 0, 0),
           map pid | pid in pids :: Process(Idle, map[]))
  }

  /** The shared database is where the atomic store is. */
  ghost predicate Matches(s: System, w: S.World) { Inv(s) && Abs(s.db) == w.store }

  /** Optimistic-transaction refinement: for any layout, any number of processes and any interleaving of
      their round trips, retries, crashes and commits, the store is the one a sequential run of the
      atomic operations produces, in the order of the successful EXECs. */
  lemma {:induction false} RunRefines(s: System, w: S.World, events: seq<Event>)
    requires Matches(s, w)
    ensures Matches(RunAll(s, events), S.Run(w, Effects(s, events)))
    decreases |events|
  {
    if events != [] {
      var init := events[..|events| - 1];
      var last := events[|events| - 1];
      RunRefines(s, w, init);
      ActRefines(RunAll(s, init), last.pid, last.action);
      S.RunSnoc(w, Effects(s, init), Effect(RunAll(s, init), last.pid, last.action));
    }
  }

  /** The state after any run from an empty database. */
  ghost function Reached(layout: Layout, retention: real, pids: set<Pid>, events: seq<Event>): (s: System)
    ensures Inv(s) && s.layout == layout
  {
    RunAll(Boot(layout, retention, pids), events)
  }

  /** The atomic steps of any run from an empty database. */
  ghost function ReachedBy(layout: Layout, retention: real, pids: set<Pid>, events: seq<Event>): seq<S.Step> {
    Effects(Boot(layout, retention, pids), events)
  }

  lemma ReachedRefines(layout: Layout, retention: real, pids: set<Pid>, events: seq<Event>)
    ensures Abs(Reached(layout, retention, pids, events).db) == S.Run(S.INITIAL, ReachedBy(layout, retention, pids, events)).store
  {
    RunRefines(Boot(layout, retention, pids), S.INITIAL, events);
  }

  /** Linearization of the answers: in any run, the answer given at an event agrees with the stores that the
      sequential run of the atomic steps up to that event produces, before and after it. */
  lemma AnswersLinearize(layout: Layout, retention: real, pids: set<Pid>, events: seq<Event>, n: nat, s: System)
    requires n < |events| && s == Reached(layout, retention, pids, events[..n])
    requires Answered(s, events[n].pid, events[n].action).Some?
    ensures Agrees(layout, Answered(s, events[n].pid, events[n].action).value,
                   S.Run(S.INITIAL, ReachedBy(layout, retention, pids, events[..n])).store,
                   S.Run(S.INITIAL, ReachedBy(layout, retention, pids, events[..n + 1])).store)
  {
    var before := S.Run(S.INITIAL, ReachedBy(layout, retention, pids, events[..n])).store;
    var after := S.Run(S.INITIAL, ReachedBy(layout, retention, pids, events[..n + 1])).store;
    assert before == Abs(s.db) by {
      ReachedRefines(layout, retention, pids, events[..n]);
    }
    assert after == Abs(Reached(layout, retention, pids, events[..n + 1]).db) by {
      ReachedRefines(layout, retention, pids, events[..n + 1]);
    }
    assert events[..n + 1][..n] == events[..n] && events[..n + 1][n] == events[n];
    AnswersAreAtomic(s, events[n].pid, events[n].action);
  }

  /** No update is lost: the version counts the updates that went through. */
  lemma VersionCountsUpdates(layout: Layout, retention: real, pids: set<Pid>, events: seq<Event>)
    ensures Reached(layout, retention, pids, events).db.base.version
            == S.CountUpdates(ReachedBy(layout, retention, pids, events))
  {
    ReachedRefines(layout, retention, pids, events);
    S.RunCountsUpdates(S.INITIAL, ReachedBy(layout, retention, pids, events));
  }

  /** No truth flip is lost: in every reachable state of every layout each registered predicate's stored
      bit is its current truth. */
  lemma SharedTruthIsCurrent(layout: Layout, retention: real, pids: set<Pid>, events: seq<Event>, e: Expr)
    requires e in Reached(layout, retention, pids, events).db.preds
    ensures var db := Reached(layout, retention, pids, events).db;
            db.preds[e].truth == Truth(e, CtxOf(db.base))
  {
    ReachedRefines(layout, retention, pids, events);
    S.TruthBitsAreCurrent(ReachedBy(layout, retention, pids, events), e);
  }

  /** Index-cache coherence: a cached line whose counter is current lists exactly the registered
      predicates of its root, although counter and members were fetched in separate round trips. */
  lemma CacheIsCoherent(layout: Layout, retention: real, pids: set<Pid>, events: seq<Event>, pid: Pid, r: Key)
    requires !layout.Document?
    requires var s := Reached(layout, retention, pids, events);
             pid in s.procs && r in s.procs[pid].cache && s.procs[pid].cache[r].count == Count(s.db, r)
    ensures var s := Reached(layout, retention, pids, events);
            s.procs[pid].cache[r].list == UnderRoot(s.db.preds, r)
  {
  }
}
