/** The actuator-side consumer of the actuation log: at-least-once delivery to an idempotent actuator.
    Models xair/adapters/actuation_consumer.py. */
module Consumer {
  import opened Wrappers
  import S = Store

  type Id = S.Id
  type Log = seq<S.Record>

  // ---------------------------------------------------------------- specification

  /** The ids of the authorizations among the first k records of a log, in commit order. */
  function Ids(log: Log, k: nat): seq<Id>
    requires k <= |log|
  {
    if k == 0 then []
    else Ids(log, k - 1) + if log[k - 1].Authorization? then [log[k - 1].id] else []
  }

  function Authorizing(log: Log): seq<Id> { Ids(log, |log|) }

  /** The actuator's effects after the records from `lo` to `hi`, where `hold` says which ones a recheck
      withholds. */
  ghost function Effects(effects: seq<Id>, log: Log, lo: nat, hi: nat, hold: nat -> bool): seq<Id>
    requires hi <= |log|
  {
    if hi <= lo then effects
    else
      var before := Effects(effects, log, lo, hi - 1, hold);
      var r := log[hi - 1];
      if r.Authorization? && !hold(hi - 1) && r.id !in before then before + [r.id] else before
  }

  /** What survives a crash: the offset and the actuator's memory; and the withheld ids, for the record. */
  datatype State = State(offset: nat, effects: seq<Id>, withheld: set<Id>)

  /** How a poll ends at record `n`: the record is applied but its offset not yet written, or not even
      that. A completed poll ends at the end of the log. */
  datatype End = End(n: nat, applied: bool)

  predicate Ends(s: State, log: Log, end: End) {
    s.offset <= end.n <= |log| && (end.applied ==> end.n < |log|)
  }

  ghost function Polled(s: State, log: Log, hold: nat -> bool, end: End): State
    requires Ends(s, log, end)
  {
    var last := if end.applied then end.n + 1 else end.n;
    State(end.n, Effects(s.effects, log, s.offset, last, hold), s.withheld + Held(log, s.offset, last, hold))
  }

  ghost function Held(log: Log, lo: nat, hi: nat, hold: nat -> bool): set<Id>
    requires hi <= |log|
  {
    set i | lo <= i < hi && log[i].Authorization? && hold(i) :: log[i].id
  }

  /** With the recheck on, a record whose version moved or whose deadline passed is withheld. */
  function Withholding(recheck: bool, stale: nat -> bool): nat -> bool {
    (i: nat) => recheck && stale(i)
  }

  // ---------------------------------------------------------------- implementation

  /** An actuator that remembers which intents it acted on. */
  class IdempotentActuator {
    var effects: seq<Id>
    var done: set<Id>
    var suppressed: nat

    predicate Valid()
      reads this
    {
      done == set id | id in effects
    }

    constructor ()
      ensures Valid() && effects == []
    {
      effects, done, suppressed := [], {}, 0;
    }

    method Apply(id: Id) returns (performed: bool)
      requires Valid()
      modifies this
      ensures Valid() && (performed <==> id !in old(effects))
      ensures effects == if performed then old(effects) + [id] else old(effects)
      ensures suppressed == if performed then old(suppressed) else old(suppressed) + 1
    {
      if id in done {
        suppressed := suppressed + 1;
        return false;
      }
      done := done + {id};
      effects := effects + [id];
      return true;
    }
  }

  /** Where a fault may strike while record i is handled. */
  datatype Fault = NoFault | BeforeApply | AfterApply

  class ActuationConsumer {
    const actuator: IdempotentActuator
    const recheck: bool
    var offset: nat
    var withheld: set<Id>

    predicate Valid()
      reads this, actuator
    {
      actuator.Valid()
    }

    function View(): State
      reads this, actuator
    {
      State(offset, actuator.effects, withheld)
    }

    constructor (actuator: IdempotentActuator, recheck: bool)
      requires actuator.Valid()
      ensures Valid() && View() == State(0, actuator.effects, {})
      ensures this.actuator == actuator && this.recheck == recheck
    {
      this.actuator, this.recheck, offset, withheld := actuator, recheck, 0, {};
    }

    /** Apply every record after the durable offset. `stale(i)` says that the version recorded with
        record i moved or its deadline passed; `fault` injects a crash. */
    method Poll(log: Log, stale: nat -> bool, fault: nat -> Fault) returns (completed: bool, ghost end: End)
      requires Valid() && offset <= |log|
      modifies this, actuator
      ensures Valid() && Ends(old(View()), log, end)
      ensures View() == Polled(old(View()), log, Withholding(recheck, stale), end)
      ensures completed ==> end == End(|log|, false)
      ensures (forall i :: fault(i) == NoFault) ==> completed
    {
      ghost var before := View();
      ghost var hold := Withholding(recheck, stale);
      var i := offset;
      while i < |log|
        invariant Valid() && before.offset <= i == offset <= |log|
        invariant View() == Polled(before, log, hold, End(i, false))
      {
        var record := log[i];
        if fault(i) == BeforeApply {
          return false, End(i, false);
        }
        HeldStep(log, before.offset, i, hold);
        if record.Authorization? {
          if recheck && stale(i) {
            withheld := withheld + {record.id};
          } else {
            var _ := actuator.Apply(record.id);
          }
          if fault(i) == AfterApply {
            return false, End(i, true);
          }
        }
        offset := i + 1;
        i := i + 1;
      }
      return true, End(i, false);
    }
  }

  lemma HeldStep(log: Log, lo: nat, i: nat, hold: nat -> bool)
    requires lo <= i < |log|
    ensures Held(log, lo, i + 1, hold)
            == Held(log, lo, i, hold) + if log[i].Authorization? && hold(i) then {log[i].id} else {}
  {
  }

  // ---------------------------------------------------------------- exactly once, in order

  /** No two authorizations of the log share an id. */
  predicate Distinct(log: Log) {
    forall i, j :: 0 <= i < j < |log| && log[i].Authorization? && log[j].Authorization? ==> log[i].id != log[j].id
  }

  predicate NoRepeats(ids: seq<Id>) {
    forall i, j :: 0 <= i < j < |ids| ==> ids[i] != ids[j]
  }

  lemma {:induction false} AuthorizingMember(log: Log, k: nat, id: Id)
    requires k <= |log|
    ensures id in Ids(log, k) <==> exists i :: 0 <= i < k && log[i].Authorization? && log[i].id == id
    decreases k
  {
    if k > 0 {
      AuthorizingMember(log, k - 1, id);
    }
  }

  lemma {:induction false} AuthorizingHasNoRepeats(log: Log, k: nat)
    requires Distinct(log) && k <= |log|
    ensures NoRepeats(Ids(log, k))
    decreases k
  {
    if k > 0 {
      AuthorizingHasNoRepeats(log, k - 1);
      AuthorizingMember(log, k - 1, log[k - 1].id);
    }
  }

  /** The effects of applying every record from `lo` to `hi`. */
  function Replay(effects: seq<Id>, log: Log, lo: nat, hi: nat): seq<Id>
    requires hi <= |log|
  {
    if hi <= lo then effects else Applied(Replay(effects, log, lo, hi - 1), log[hi - 1])
  }

  function Applied(effects: seq<Id>, r: S.Record): seq<Id> {
    if r.Authorization? && r.id !in effects then effects + [r.id] else effects
  }

  /** Replaying records that already took effect changes nothing; new ones are appended in order. */
  lemma {:induction false} ReplayIsIdempotent(log: Log, k: nat, lo: nat, hi: nat)
    requires Distinct(log) && lo <= k <= |log| && lo <= hi <= |log|
    ensures Replay(Ids(log, k), log, lo, hi) == Ids(log, if k < hi then hi else k)
    decreases hi
  {
    if lo < hi {
      ReplayIsIdempotent(log, k, lo, hi - 1);
      ReplayStep(log, if k < hi - 1 then hi - 1 else k, hi - 1);
    }
  }

  /** One record: it changes nothing if the prefix reaches past it, and is appended if it is the next one. */
  lemma ReplayStep(log: Log, reached: nat, i: nat)
    requires Distinct(log) && i < |log| && i <= reached <= |log|
    ensures Applied(Ids(log, reached), log[i]) == Ids(log, if reached < i + 1 then i + 1 else reached)
  {
    if log[i].Authorization? {
      AuthorizingMember(log, reached, log[i].id);
    }
  }

  /** A poll that withholds nothing applies every record. */
  lemma {:induction false} NothingHeld(effects: seq<Id>, log: Log, lo: nat, hi: nat, hold: nat -> bool)
    requires hi <= |log| && forall i :: !hold(i)
    ensures Effects(effects, log, lo, hi, hold) == Replay(effects, log, lo, hi)
    decreases hi
  {
    if lo < hi {
      NothingHeld(effects, log, lo, hi - 1, hold);
    }
  }

  /** The effects are the authorizations of a prefix of the log that reaches at least to the offset. */
  ghost predicate InOrder(s: State, log: Log) {
    exists k :: s.offset <= k <= |log| && s.effects == Ids(log, k)
  }

  lemma PollInOrder(s: State, log: Log, hold: nat -> bool, end: End)
    requires Distinct(log) && InOrder(s, log) && Ends(s, log, end) && forall i :: !hold(i)
    ensures InOrder(Polled(s, log, hold, end), log)
    ensures end.n == |log| ==> Polled(s, log, hold, end).effects == Authorizing(log)
  {
    var k :| s.offset <= k <= |log| && s.effects == Ids(log, k);
    var last := if end.applied then end.n + 1 else end.n;
    NothingHeld(s.effects, log, s.offset, last, hold);
    ReplayIsIdempotent(log, k, s.offset, last);
  }

  lemma {:induction false} SameIds(log: Log, more: Log, k: nat)
    requires log <= more && k <= |log|
    ensures Ids(log, k) == Ids(more, k)
    decreases k
  {
    if k > 0 {
      SameIds(log, more, k - 1);
    }
  }

  /** Store operations (commits, tombstones, stop records and all the rest) interleaved with polls that
      end or crash anywhere. */
  datatype Event = StoreEvent(step: S.Step) | PollEvent(stale: nat -> bool, end: End)

  ghost predicate Possible(recheck: bool, events: seq<Event>)
    decreases |events|, 0
  {
    events == [] ||
    (Possible(recheck, events[..|events| - 1])
     && (events[|events| - 1].PollEvent? ==>
           var (w, s) := After(recheck, events[..|events| - 1]); Ends(s, w.store.log, events[|events| - 1].end)))
  }

  ghost function After(recheck: bool, events: seq<Event>): (S.World, State)
    requires Possible(recheck, events)
    decreases |events|, 1
  {
    if events == [] then (S.INITIAL, State(0, [], {}))
    else
      var (w, s) := After(recheck, events[..|events| - 1]);
      match events[|events| - 1]
      case StoreEvent(step) => (S.Do(w, step), s)
      case PollEvent(stale, end) => (w, Polled(s, w.store.log, Withholding(recheck, stale), end))
  }

  lemma LogOnlyGrows(w: S.World, step: S.Step)
    ensures w.store.log <= S.Do(w, step).store.log
  {
  }

  lemma {:induction false} AlwaysInOrder(events: seq<Event>)
    requires Possible(false, events)
    ensures var (w, s) := After(false, events); S.Inv(w) && InOrder(s, w.store.log)
    decreases |events|
  {
    if events == [] {
      S.ReachableInv([]);
      var (w, s) := After(false, events);
      assert s.effects == Ids(w.store.log, 0);
    } else {
      var before := events[..|events| - 1];
      AlwaysInOrder(before);
      var (w, s) := After(false, before);
      match events[|events| - 1]
      case StoreEvent(step) =>
        S.StepKeepsInv(w, step);
        LogOnlyGrows(w, step);
        var k :| s.offset <= k <= |w.store.log| && s.effects == Ids(w.store.log, k);
        SameIds(w.store.log, S.Do(w, step).store.log, k);
      case PollEvent(stale, end) => PollInOrder(s, w.store.log, Withholding(false, stale), end);
    }
  }

  /** Exactly once, in order: in every run the effects are a duplicate-free prefix of the log's authorizing
      ids in commit order, and every authorization below the durable offset has had its effect. */
  lemma ExactlyOnceInOrder(events: seq<Event>)
    requires Possible(false, events)
    ensures var (w, s) := After(false, events);
            && s.effects <= Authorizing(w.store.log) && NoRepeats(s.effects)
            && s.offset <= |w.store.log|
            && forall i :: 0 <= i < s.offset && w.store.log[i].Authorization? ==> w.store.log[i].id in s.effects
  {
    AlwaysInOrder(events);
    var (w, s) := After(false, events);
    var log := w.store.log;
    var k :| s.offset <= k <= |log| && s.effects == Ids(log, k);
    AuthorizingHasNoRepeats(log, k);
    AuthorizingPrefix(log, k);
    forall i | 0 <= i < s.offset && log[i].Authorization? ensures log[i].id in s.effects {
      AuthorizingMember(log, k, log[i].id);
    }
  }

  lemma {:induction false} AuthorizingPrefix(log: Log, k: nat)
    requires k <= |log|
    ensures Ids(log, k) <= Authorizing(log)
    decreases |log| - k
  {
    if k < |log| {
      AuthorizingPrefix(log, k + 1);
    }
  }

  /** A completed poll covers everything it read: the effects are then all the authorizations there are. */
  lemma CompletedPollCoversAll(events: seq<Event>)
    requires Possible(false, events) && events != [] && events[|events| - 1].PollEvent?
    requires events[|events| - 1].end.n == |After(false, events).0.store.log|
    ensures var (w, s) := After(false, events); s.effects == Authorizing(w.store.log)
  {
    var before, last := events[..|events| - 1], events[|events| - 1];
    AlwaysInOrder(before);
    var (w, s) := After(false, before);
    PollInOrder(s, w.store.log, Withholding(false, last.stale), last.end);
  }

  // ---------------------------------------------------------------- recheck at apply

  /** One pass: effects still never repeat, */
  lemma {:induction false} PassHasNoRepeats(effects: seq<Id>, log: Log, lo: nat, hi: nat, hold: nat -> bool)
    requires NoRepeats(effects) && lo <= hi <= |log|
    ensures NoRepeats(Effects(effects, log, lo, hi, hold)) && effects <= Effects(effects, log, lo, hi, hold)
    decreases hi
  {
    if lo < hi {
      PassHasNoRepeats(effects, log, lo, hi - 1, hold);
    }
  }

  predicate IsAuthorized(log: Log, id: Id) { exists i :: 0 <= i < |log| && log[i].Authorization? && log[i].id == id }

  /** ... come from authorizations that were not withheld, */
  lemma {:induction false} PassIsAuthorized(effects: seq<Id>, log: Log, lo: nat, hi: nat, hold: nat -> bool, id: Id)
    requires lo <= hi <= |log| && id in Effects(effects, log, lo, hi, hold) && id !in effects
    ensures exists i :: lo <= i < hi && log[i].Authorization? && log[i].id == id && !hold(i)
    decreases hi
  {
    if lo < hi && id in Effects(effects, log, lo, hi - 1, hold) {
      PassIsAuthorized(effects, log, lo, hi - 1, hold, id);
    }
  }

  /** ... and every authorization passed over was either applied or withheld. */
  lemma {:induction false} PassCovers(effects: seq<Id>, log: Log, lo: nat, hi: nat, hold: nat -> bool, i: nat)
    requires lo <= i < hi <= |log| && log[i].Authorization?
    ensures log[i].id in Effects(effects, log, lo, hi, hold) || log[i].id in Held(log, lo, hi, hold)
    decreases hi
  {
    if i < hi - 1 {
      PassCovers(effects, log, lo, hi - 1, hold, i);
    }
  }

  /** Effects do not repeat and are authorized, and every authorization below the offset was applied or
      withheld. */
  predicate Settled(s: State, log: Log) {
    && NoRepeats(s.effects) && s.offset <= |log|
    && (forall id :: id in s.effects ==> IsAuthorized(log, id))
    && forall i :: 0 <= i < s.offset && log[i].Authorization? ==> log[i].id in s.effects || log[i].id in s.withheld
  }

  lemma PollSettles(s: State, log: Log, hold: nat -> bool, end: End)
    requires Settled(s, log) && Ends(s, log, end)
    ensures Settled(Polled(s, log, hold, end), log)
  {
    var last := if end.applied then end.n + 1 else end.n;
    var out := Polled(s, log, hold, end);
    PassHasNoRepeats(s.effects, log, s.offset, last, hold);
    forall id | id in out.effects ensures IsAuthorized(log, id) {
      if id !in s.effects {
        PassIsAuthorized(s.effects, log, s.offset, last, hold, id);
      }
    }
    forall i | 0 <= i < end.n && log[i].Authorization? ensures log[i].id in out.effects || log[i].id in out.withheld {
      if s.offset <= i {
        PassCovers(s.effects, log, s.offset, last, hold, i);
      }
    }
  }

  /** With or without the recheck, over every run of store operations, polls and crashes: no effect is
      repeated, none is without an authorization, and none is skipped silently. */
  lemma {:induction false} RecheckCovers(recheck: bool, events: seq<Event>)
    requires Possible(recheck, events)
    ensures var (w, s) := After(recheck, events); Settled(s, w.store.log)
    decreases |events|
  {
    if events != [] {
      var before := events[..|events| - 1];
      RecheckCovers(recheck, before);
      var (w, s) := After(recheck, before);
      match events[|events| - 1]
      case StoreEvent(step) =>
        LogOnlyGrows(w, step);
        forall id | id in s.effects ensures IsAuthorized(S.Do(w, step).store.log, id) {
          var i :| 0 <= i < |w.store.log| && w.store.log[i].Authorization? && w.store.log[i].id == id;
          assert S.Do(w, step).store.log[i].Authorization? && S.Do(w, step).store.log[i].id == id;
        }
      case PollEvent(stale, end) => PollSettles(s, w.store.log, Withholding(recheck, stale), end);
    }
  }
}
