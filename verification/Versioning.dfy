/** Read-sets and the two versions an authorization is checked against.
    Models the version half of xair/core/versioning.py. */
module Versioning {
  import opened Wrappers
  import opened ContextTree
  import opened Predicates

  /** A registered predicate: the version its truth last changed (or it was registered at), its truth,
      and when it was last registered. */
  datatype Entry = Entry(version: nat, truth: bool, registeredAt: real)

  type PathVersions = map<Path, nat>
  type Registry = map<Expr, Entry>

  /** The paths a list of predicates references. */
  function ReadSetOf(es: seq<Expr>): set<Path> {
    set i | 0 <= i < |es| && es[i].path != [] :: es[i].path
  }

  /** The read-set as it is collected: in order of first mention, without repetition. */
  method ReadSet(es: seq<Expr>) returns (out: seq<Path>)
    ensures (set p | p in out) == ReadSetOf(es)
    ensures forall i, j :: 0 <= i < j < |out| ==> out[i] != out[j]
  {
    out := [];
    for i := 0 to |es|
      invariant (set p | p in out) == ReadSetOf(es[..i])
      invariant forall j, k :: 0 <= j < k < |out| ==> out[j] != out[k]
    {
      ReadSetStep(es, i);
      if es[i].path != [] && es[i].path !in out {
        out := out + [es[i].path];
      }
    }
    assert es[..|es|] == es;
  }

  lemma ReadSetStep(es: seq<Expr>, i: nat)
    requires i < |es|
    ensures ReadSetOf(es[..i + 1]) == ReadSetOf(es[..i]) + if es[i].path != [] then {es[i].path} else {}
  {
  }

  predicate RelatedToAny(p: Path, paths: set<Path>) {
    exists r {:trigger Related(p, r)} :: r in paths && Related(p, r)
  }

  /** Some path of `changed` is related to one of `paths`. */
  predicate TouchesAny(changed: set<Path>, paths: set<Path>) {
    exists q {:trigger RelatedToAny(q, paths)} :: q in changed && RelatedToAny(q, paths)
  }

  /** The latest value change on a path related to the read-set (0 if there is none). */
  ghost function ReadSetVersion(pv: PathVersions, paths: set<Path>): nat {
    MaxOf(set p | p in pv && RelatedToAny(p, paths) :: pv[p])
  }

  /** The maximum as it is computed, path by path. */
  method ComputeReadSetVersion(pv: PathVersions, paths: set<Path>) returns (v: nat)
    ensures v == ReadSetVersion(pv, paths)
  {
    v := 0;
    var todo := pv.Keys;
    while todo != {}
      invariant todo <= pv.Keys
      invariant v == 0 || exists p :: p in pv && RelatedToAny(p, paths) && pv[p] == v
      invariant forall p :: p in pv && p !in todo && RelatedToAny(p, paths) ==> pv[p] <= v
      decreases todo
    {
      var p :| p in todo;
      if RelatedToAny(p, paths) && pv[p] > v {
        v := pv[p];
      }
      todo := todo - {p};
    }
    MaxOfIs(set p | p in pv && RelatedToAny(p, paths) :: pv[p], v);
  }

  predicate AllRegistered(preds: Registry, es: seq<Expr>) {
    forall i | 0 <= i < |es| :: es[i] in preds
  }

  /** The latest truth change among `es`; -1 if one of them is not registered. */
  ghost function PredicateVersion(preds: Registry, es: seq<Expr>): int {
    if AllRegistered(preds, es) then MaxOf(set i | 0 <= i < |es| :: preds[es[i]].version) else -1
  }

  /** The maximum as it is computed, giving up at the first predicate that is not registered. */
  method ComputePredicateVersion(preds: Registry, es: seq<Expr>) returns (v: int)
    ensures v == PredicateVersion(preds, es)
  {
    var m: nat := 0;
    for i := 0 to |es|
      invariant forall j :: 0 <= j < i ==> es[j] in preds && preds[es[j]].version <= m
      invariant m == 0 || exists j :: 0 <= j < i && preds[es[j]].version == m
    {
      if es[i] !in preds {
        return -1;
      }
      if preds[es[i]].version > m {
        m := preds[es[i]].version;
      }
    }
    MaxOfIs(set i | 0 <= i < |es| :: preds[es[i]].version, m);
    return m;
  }
}
