/** The audit trail of the life cycle, and what any legal trail conserves.
    Models `_audit`, `register`, `transition` and `note` of `LifecycleTracker` (xair/core/lifecycle.py). */
module Audit {
  import opened Wrappers
  import opened Lifecycle

  /** A state entered, or a remark that changes nothing (a refused report). */
  datatype Entry = Entered(id: Id, state: State) | Noted(id: Id)

  type Trail = seq<Entry>

  /** The latest state of every intent the trail mentions, whether or not its record still exists. */
  function Latest(t: Trail): map<Id, State> {
    if t == [] then map[]
    else
      var before := Latest(t[..|t| - 1]);
      match t[|t| - 1]
      case Entered(id, s) => before[id := s]
      case Noted(_) => before
  }

  /** A registration is always accepted; any other entry follows the transition table. */
  predicate Legal(t: Trail) {
    t == [] || (Legal(t[..|t| - 1]) && LegalNext(Latest(t[..|t| - 1]), t[|t| - 1]))
  }

  predicate LegalNext(latest: map<Id, State>, e: Entry) {
    e.Entered? && e.state != Created ==> e.id in latest && e.state in Allowed(latest[e.id])
  }

  /** The states entered since the last registration of `id`. */
  function Since(t: Trail, id: Id): seq<State> {
    if t == [] then []
    else
      var before := Since(t[..|t| - 1], id);
      match t[|t| - 1]
      case Entered(i, s) => if i != id then before else if s == Created then [Created] else before + [s]
      case Noted(_) => before
  }

  /** How often a state was entered. */
  function Entries(t: Trail, s: State): nat {
    if t == [] then 0
    else Entries(t[..|t| - 1], s) + (if t[|t| - 1].Entered? && t[|t| - 1].state == s then 1 else 0)
  }

  /** The intents that entered a state, in order. */
  function Entrants(t: Trail, s: State): seq<Id> {
    if t == [] then []
    else Entrants(t[..|t| - 1], s) + (if t[|t| - 1].Entered? && t[|t| - 1].state == s then [t[|t| - 1].id] else [])
  }

  /** How often an intent went from a state of `from` straight to `to`. */
  function Edges(t: Trail, from: set<State>, to: State): nat {
    if t == [] then 0
    else
      var e, latest := t[|t| - 1], Latest(t[..|t| - 1]);
      Edges(t[..|t| - 1], from, to)
      + (if e.Entered? && e.state == to && e.id in latest && latest[e.id] in from then 1 else 0)
  }

  function In(latest: map<Id, State>, states: set<State>): set<Id> {
    set id | id in latest && latest[id] in states
  }

  /** How many intents are in one of the given states. */
  function Count(latest: map<Id, State>, states: set<State>): nat { |In(latest, states)| }

  lemma CountStep(latest: map<Id, State>, id: Id, s: State, states: set<State>)
    ensures Count(latest[id := s], states)
            == Count(latest, states) - (if id in latest && latest[id] in states then 1 else 0)
               + (if s in states then 1 else 0)
  {
    var after := latest[id := s];
    var others := In(latest, states) - {id};
    assert forall i :: i in after && i != id ==> i in latest && after[i] == latest[i];
    if s in states {
      assert In(after, states) == others + {id};
    } else {
      assert In(after, states) == others;
    }
    if id in latest && latest[id] in states {
      assert In(latest, states) == others + {id};
    } else {
      assert In(latest, states) == others;
    }
  }

  lemma CountSame(a: map<Id, State>, b: map<Id, State>, states: set<State>)
    requires forall id :: id in a && a[id] in states ==> id in b && b[id] == a[id]
    requires forall id :: id in b && b[id] in states ==> id in a && a[id] == b[id]
    ensures Count(a, states) == Count(b, states)
  {
    assert In(a, states) == In(b, states);
  }

  const OPEN: set<State> := {Authorized, Committed}

  /** Conservation of authorizations, over any legal trail: each one is still open, or was released,
      withheld, revoked before its commit, or replaced by a new registration of its id. */
  lemma {:induction false} AuthorizationsBalance(t: Trail)
    requires Legal(t)
    ensures Entries(t, Authorized)
            == Count(Latest(t), OPEN) + Entries(t, Released) + Entries(t, Withheld)
               + Edges(t, {Authorized}, Revoked) + Edges(t, OPEN, Created)
    decreases |t|
  {
    if t != [] {
      var e, latest := t[|t| - 1], Latest(t[..|t| - 1]);
      AuthorizationsBalance(t[..|t| - 1]);
      if e.Entered? {
        CountStep(latest, e.id, e.state, OPEN);
      }
    }
  }

  /** A release or a withholding stays on record until its id is registered again. */
  lemma {:induction false} OutcomesBalance(t: Trail)
    requires Legal(t)
    ensures Entries(t, Released) == Count(Latest(t), RELEASED_STATES) + Edges(t, RELEASED_STATES, Created)
    ensures Entries(t, Withheld) == Count(Latest(t), {Withheld}) + Edges(t, {Withheld}, Created)
    decreases |t|
  {
    if t != [] {
      var e, latest := t[|t| - 1], Latest(t[..|t| - 1]);
      OutcomesBalance(t[..|t| - 1]);
      if e.Entered? {
        CountStep(latest, e.id, e.state, RELEASED_STATES);
        CountStep(latest, e.id, e.state, {Withheld});
      }
    }
  }

  /** Since its registration every intent walked the transition table to its latest state. */
  lemma {:induction false} SinceIsWalk(t: Trail, id: Id)
    requires Legal(t) && id in Latest(t)
    ensures var p := Since(t, id);
            p != [] && p[0] == Created && p[|p| - 1] == Latest(t)[id] && Walk(p)
    decreases |t|
  {
    var e := t[|t| - 1];
    if id in Latest(t[..|t| - 1]) {
      SinceIsWalk(t[..|t| - 1], id);
    }
  }

  /** No state on the way to an outcome is entered twice by one registration. */
  predicate Once(p: seq<State>, s: State) {
    forall i, j :: 0 <= i < j < |p| ==> !(p[i] == s && p[j] == s)
  }

  /** States that are only left for each other, and from which `s` cannot be entered. */
  predicate Final(after: set<State>, s: State) {
    s in after && Created !in after && forall x :: x in after ==> Allowed(x) <= after - {s}
  }

  /** Such a state is entered at most once on a walk, and not before the first of them. */
  lemma {:induction false} EnteredOnce(p: seq<State>, s: State, after: set<State>)
    requires Walk(p) && |p| > 0 && p[0] == Created && Final(after, s)
    ensures Once(p, s) && (p[|p| - 1] !in after ==> s !in p)
    decreases |p|
  {
    var n := |p| - 1;
    if n > 0 {
      var before := p[..n];
      assert Walk(before);
      EnteredOnce(before, s, after);
      assert p == before + [p[n]] && before[n - 1] == p[n - 1];
      assert p[n] in Allowed(p[n - 1]);
    }
  }

  lemma WalkOnce(p: seq<State>)
    requires Walk(p) && |p| > 0 && p[0] == Created
    ensures Once(p, Authorized) && Once(p, Committed) && Once(p, Released)
    ensures p[|p| - 1] !in RELEASED_STATES ==> Released !in p
  {
    EnteredOnce(p, Authorized, {Authorized, Committed, Withheld, Revoked} + RELEASED_STATES);
    EnteredOnce(p, Committed, {Committed, Withheld} + RELEASED_STATES);
    EnteredOnce(p, Released, RELEASED_STATES);
  }

  /** Under any interleaving of reports and replays one registration is authorized, committed and
      released at most once, and an effect is recorded only after its release. */
  lemma AtMostOnce(t: Trail, id: Id)
    requires Legal(t) && id in Latest(t)
    ensures var p := Since(t, id);
            && Once(p, Authorized) && Once(p, Committed) && Once(p, Released)
            && (Latest(t)[id] in {EffectConfirmed, Failed, UnknownEffect} ==> Released in p)
            && (Released in p ==> Authorized in p && Withheld !in p && Revoked !in p)
  {
    SinceIsWalk(t, id);
    WalkOnce(Since(t, id));
    EffectsFollowRelease(Since(t, id));
  }
}
