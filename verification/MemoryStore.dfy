/** The in-memory context store: fields updated in place under one process lock.
    Models the in-memory paths of `RedisContextStore` (xair/core/context_store.py). Every method is one
    step of the atomic store machine, so all its invariants and theorems hold of the object. */
module MemoryStore {
  import opened Wrappers
  import opened ContextTree
  import opened Predicates
  import opened Versioning
  import S = Store

  /** Registrations an update keeps: those not older than its retention horizon. */
  function Kept(preds: Registry, horizon: real): set<Expr> {
    set e | e in preds && preds[e].registeredAt >= horizon
  }

  /** Registrations a call at time `now` writes: the missing ones and those older than half the retention. */
  function Stamps(preds: Registry, es: seq<Expr>, now: real, retention: real): map<Expr, real> {
    map e | e in es && (e !in preds || preds[e].registeredAt < now - retention / 2.0) :: now
  }

  class MemoryStore {
    const retention: real
    var memory: Tree
    var version: nat
    var pathVersions: PathVersions
    var preds: Registry
    var actuations: seq<S.Record>
    var committed: set<S.Id>
    ghost var trace: seq<S.Step>

    function View(): S.Store
      reads this
    {
      S.Store(memory, version, pathVersions, preds, actuations, committed)
    }

    /** The object is where the atomic machine is after the steps taken so far. */
    ghost predicate Valid()
      reads this
    {
      View() == S.Run(S.INITIAL, trace).store
    }

    constructor (retention: real)
      ensures Valid() && trace == [] && this.retention == retention
    {
      this.retention := retention;
      memory, version, pathVersions, preds, actuations, committed := EMPTY, 0, map[], map[], [], {};
      trace := [];
    }

    ghost method Took(before: S.Store, step: S.Step)
      requires before == S.Run(S.INITIAL, trace).store && View() == S.Apply(before, step)
      modifies this`trace
      ensures Valid() && trace == old(trace) + [step]
    {
      S.RunSnoc(S.INITIAL, trace, step);
      trace := trace + [step];
    }

    /** Merge a patch, stamp the paths it changes, retire old registrations and re-evaluate the others. */
    method Update(patch: Tree, now: real) returns (v: nat)
      requires Valid()
      modifies this
      ensures Valid() && v == version == old(version) + 1
      ensures trace == old(trace) + [S.Update(patch, Kept(old(preds), now - retention))]
      ensures forall e :: e in preds <==> e in old(preds) && old(preds)[e].registeredAt >= now - retention
    {
      ghost var before := View();
      ghost var kept := Kept(preds, now - retention);
      memory, version, pathVersions, preds := ApplyPatch(memory, version, pathVersions, patch, preds, now - retention, before);
      Took(before, S.Update(patch, kept));
      v := version;
    }

    /** Register predicates and return the snapshot read in the same step. */
    method RegisterAndSnapshot(es: seq<Expr>, now: real) returns (doc: S.Snapshot)
      requires Valid()
      modifies this
      ensures Valid() && doc == S.SnapshotOf(View())
      ensures trace == old(trace) + [S.Register(Stamps(old(preds), es, now, retention))]
      ensures forall i :: 0 <= i < |es| ==> es[i] in doc.preds
    {
      ghost var before := View();
      preds := RegisterLoop(preds, memory, version, es, now, retention);
      ghost var stamps := Stamps(before.preds, es, now, retention);
      assert preds == S.RegisterAll(before, stamps).preds;
      Took(before, S.Register(stamps));
      doc := S.Snapshot(memory, version, pathVersions, preds);
    }

    method Observe(req: S.CommitRequest) returns (observed: int)
      ensures observed == S.Observed(pathVersions, preds, req)
    {
      if req.scope.TruthScope? {
        observed := ComputePredicateVersion(preds, req.exprs);
      } else {
        observed := ComputeReadSetVersion(pathVersions, req.paths);
      }
    }

    /** Commit an authorization iff the observed version is the expected one and the age is in bounds. */
    method CommitAuthorization(req: S.CommitRequest) returns (status: S.Status)
      requires Valid()
      modifies this
      ensures Valid() && trace == old(trace) + [S.Commit(req)]
      ensures status == S.CommitStatus(old(View()), req)
      ensures View() == if status == S.Committed then S.Authorize(old(View()), req) else old(View())
    {
      ghost var before := View();
      var age := req.now - req.decision;
      var observed := Observe(req);
      if req.id in committed {
        status := S.Duplicate;
      } else if req.maxAhead.Some? && age < -req.maxAhead.value {
        status := S.FutureSkew;
      } else if req.bound.Some? && age > req.bound.value {
        status := S.Expired;
      } else if observed < 0 || req.expected < 0 || observed != req.expected {
        status := S.Changed;
      } else {
        actuations := actuations + [S.Authorization(req.id, version, req.now, age)];
        committed := committed + {req.id};
        status := S.Committed;
      }
      Took(before, S.Commit(req));
    }

    /** Append a record that authorizes nothing. */
    method AppendActuation(note: S.Record)
      requires Valid() && !note.Authorization?
      modifies this
      ensures Valid() && trace == old(trace) + [S.Append(note)]
      ensures actuations == old(actuations) + [note]
    {
      ghost var before := View();
      actuations := actuations + [note];
      Took(before, S.Append(note));
    }
  }

  /** What registering makes of an entry. */
  function Registered(preds: Registry, e: Expr, ctx: Tree, version: nat, now: real, retention: real): Entry {
    if e !in preds then Entry(version, Truth(e, ctx), now)
    else if preds[e].registeredAt < now - retention / 2.0 then preds[e].(registeredAt := now)
    else preds[e]
  }

  /** Register the missing predicates at the current version and truth; refresh the old ones. */
  method RegisterLoop(preds: Registry, ctx: Tree, version: nat, es: seq<Expr>, now: real, retention: real)
    returns (out: Registry)
    ensures out == S.RegisterAll(S.Store(ctx, version, map[], preds, [], {}), Stamps(preds, es, now, retention)).preds
  {
    out := preds;
    for i := 0 to |es|
      invariant preds.Keys <= out.Keys && forall e :: e in out ==> e in preds || e in es
      invariant forall j :: 0 <= j < i ==> es[j] in out
      invariant forall e :: e in out && e !in es ==> out[e] == preds[e]
      invariant forall e :: e in out ==>
                  || out[e] == Registered(preds, e, ctx, version, now, retention)
                  || (e in preds && out[e] == preds[e] && forall j :: 0 <= j < i ==> es[j] != e)
    {
      var e := es[i];
      if e !in out {
        out := out[e := Entry(version, Truth(e, ctx), now)];
      } else if out[e].registeredAt < now - retention / 2.0 {
        out := out[e := out[e].(registeredAt := now)];
      }
    }
    RegisteredIs(preds, ctx, version, es, now, retention, out);
  }

  lemma RegisteredIs(preds: Registry, ctx: Tree, version: nat, es: seq<Expr>, now: real, retention: real, out: Registry)
    requires preds.Keys <= out.Keys && (forall e :: e in out ==> e in preds || e in es) && forall e :: e in es ==> e in out
    requires forall e :: e in out ==>
               || out[e] == Registered(preds, e, ctx, version, now, retention)
               || (e in preds && out[e] == preds[e] && e !in es)
    requires forall e :: e in out && e !in es ==> e in preds && out[e] == preds[e]
    ensures out == S.RegisterAll(S.Store(ctx, version, map[], preds, [], {}), Stamps(preds, es, now, retention)).preds
  {
  }

  /** `_apply`: merge a patch into a context, stamp the changed paths, refresh the registrations. */
  method ApplyPatch(ctx: Tree, version: nat, pv: PathVersions, patch: Tree, preds: Registry, horizon: real, ghost s: S.Store)
    returns (merged: Tree, version': nat, pv': PathVersions, preds': Registry)
    requires s.ctx == ctx && s.version == version && s.pv == pv && s.preds == preds
    ensures S.UpdateStore(s, patch, Kept(preds, horizon))
            == s.(ctx := merged, version := version', pv := pv', preds := preds')
  {
    version' := version + 1;
    var changed := ComputeChangedPaths(ctx, patch);
    pv' := StampLoop(pv, changed, version');
    merged := DeepMerge(ctx, patch);
    preds' := ReevaluateLoop(preds, changed, merged, version', horizon);
    assert preds' == S.UpdateStore(s, patch, Kept(preds, horizon)).preds;
  }

  /** Write the new version into every changed path. */
  method StampLoop(pv: PathVersions, changed: set<Path>, version: nat) returns (out: PathVersions)
    ensures out == S.Stamp(pv, changed, version)
  {
    out := pv;
    var todo := changed;
    while todo != {}
      invariant todo <= changed
      invariant out.Keys == pv.Keys + (changed - todo)
      invariant forall p :: p in out ==> out[p] == if p in changed - todo then version else pv[p]
      decreases todo
    {
      var p :| p in todo;
      out := out[p := version];
      todo := todo - {p};
    }
    assert out == S.Stamp(pv, changed, version);
  }

  /** Drop the registrations older than `horizon`, and re-evaluate those whose first segment a change
      shares and whose path a change is related to. */
  method ReevaluateLoop(preds: Registry, changed: set<Path>, merged: Tree, version: nat, horizon: real)
    returns (out: Registry)
    ensures out == S.ReevaluateAll(preds, Kept(preds, horizon), changed, merged, version)
  {
    var roots := set c | c in changed && c != [] :: c[0];
    out := map e | e in preds && preds[e].registeredAt >= horizon :: preds[e];
    ghost var kept := out;
    var todo := out.Keys;
    while todo != {}
      invariant todo <= out.Keys == kept.Keys
      invariant forall e :: e in kept && e in todo ==> out[e] == preds[e]
      invariant forall e :: e in kept && e !in todo ==> out[e] == S.Reevaluated(e, preds[e], changed, merged, version)
      decreases todo
    {
      var e :| e in todo;
      assert Touches(changed, e.path) ==> e.path != [] && e.path[0] in roots;
      if e.path != [] && e.path[0] in roots && Touches(changed, e.path) {
        var truth := Truth(e, merged);
        if truth != out[e].truth {
          out := out[e := Entry(version, truth, out[e].registeredAt)];
        }
      }
      todo := todo - {e};
    }
  }

  // ---------------------------------------------------------------- how long a registration lasts

  datatype Call = UpdateCall(patch: Tree, now: real) | RegisterCall(es: seq<Expr>, now: real)

  ghost function Called(s: S.Store, call: Call, retention: real): S.Store {
    match call
    case UpdateCall(patch, now) => S.UpdateStore(s, patch, Kept(s.preds, now - retention))
    case RegisterCall(es, now) => S.RegisterAll(s, Stamps(s.preds, es, now, retention))
  }

  ghost function After(s: S.Store, calls: seq<Call>, retention: real): S.Store
    decreases |calls|
  {
    if calls == [] then s else Called(After(s, calls[..|calls| - 1], retention), calls[|calls| - 1], retention)
  }

  /** A registration lasts at least half the retention: whatever is updated and registered meanwhile, a predicate
      registered at time t is still registered after any calls made from t to t + retention / 2. */
  lemma {:induction false} RegistrationLasts(s: S.Store, es: seq<Expr>, t: real, calls: seq<Call>, retention: real, e: Expr)
    requires e in es && retention >= 0.0 && forall k :: 0 <= k < |calls| ==> t <= calls[k].now <= t + retention / 2.0
    ensures var preds := After(Called(s, RegisterCall(es, t), retention), calls, retention).preds;
            e in preds && preds[e].registeredAt >= t - retention / 2.0
    decreases |calls|
  {
    if calls != [] {
      RegistrationLasts(s, es, t, calls[..|calls| - 1], retention, e);
    }
  }

  /** And at most the retention: the first update later than that after the last stamp drops it. */
  lemma RegistrationEnds(s: S.Store, patch: Tree, now: real, retention: real, e: Expr)
    requires e in s.preds
    ensures e !in Called(s, UpdateCall(patch, now), retention).preds <==> now > s.preds[e].registeredAt + retention
  {
  }
}
