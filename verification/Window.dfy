/** The idempotency window: what oldest-first eviction keeps, and what it costs.
    Models `_expire_seen` and `admit` (xair/core/runtime.py) over whole runs. */
module Window {
  import opened Wrappers
  import opened Lifecycle
  import opened Audit
  import opened Runtime

  // ---------------------------------------------------------------- eviction

  /** How many admissions an eviction drops from the front. */
  function Stale(seen: seq<Admission>, horizon: real): (k: nat)
    ensures k <= |seen|
    ensures forall i :: 0 <= i < k ==> seen[i].at < horizon
    ensures k < |seen| ==> seen[k].at >= horizon
  {
    if seen == [] || seen[0].at >= horizon then 0 else 1 + Stale(seen[1..], horizon)
  }

  lemma {:induction false} ExpireSuffix(rt: Tables, horizon: real)
    ensures ExpireSeen(rt, horizon).seen == rt.seen[Stale(rt.seen, horizon)..]
    decreases |rt.seen|
  {
    if rt.seen != [] && rt.seen[0].at < horizon {
      ExpireSuffix(PopOldest(rt), horizon);
      var k := Stale(rt.seen, horizon);
      assert rt.seen[1..][k - 1..] == rt.seen[k..];
    }
  }

  lemma {:induction false} ExpireRecords(rt: Tables, horizon: real, id: Id)
    ensures var out, k := ExpireSeen(rt, horizon), Stale(rt.seen, horizon);
            && (id in out.records <==> id in rt.records && !(Settled(rt.records[id].state) && IsSeen(rt.seen[..k], id)))
            && (id in out.records ==> out.records[id] == rt.records[id])
    decreases |rt.seen|
  {
    if rt.seen != [] && rt.seen[0].at < horizon {
      ExpireRecords(PopOldest(rt), horizon, id);
      DroppedSplit(rt.seen, Stale(rt.seen, horizon));
    }
  }

  lemma {:induction false} ExpireIsQuiet(rt: Tables, horizon: real)
    ensures var out := ExpireSeen(rt, horizon); out == rt.(seen := out.seen, records := out.records)
    decreases |rt.seen|
  {
    if rt.seen != [] && rt.seen[0].at < horizon {
      ExpireIsQuiet(PopOldest(rt), horizon);
    }
  }

  /** The effect of an eviction: a suffix of the table stays, exactly the settled records of the dropped
      ids are forgotten, nothing else changes. */
  lemma ExpireIs(rt: Tables, horizon: real)
    ensures var out, k := ExpireSeen(rt, horizon), Stale(rt.seen, horizon);
            && out.seen == rt.seen[k..]
            && out == rt.(seen := out.seen, records := out.records)
            && (forall id :: id in out.records <==>
                  id in rt.records && !(Settled(rt.records[id].state) && IsSeen(rt.seen[..k], id)))
            && (forall id :: id in out.records ==> out.records[id] == rt.records[id])
  {
    ExpireSuffix(rt, horizon);
    ExpireIsQuiet(rt, horizon);
    forall id {
      ExpireRecords(rt, horizon, id);
    }
  }

  lemma DroppedSplit(seen: seq<Admission>, k: nat)
    requires 0 < k <= |seen|
    ensures forall id :: IsSeen(seen[..k], id) <==> seen[0].id == id || IsSeen(seen[1..][..k - 1], id)
  {
    assert seen[..k][1..] == seen[1..][..k - 1];
    forall id ensures IsSeen(seen[..k], id) <==> seen[0].id == id || IsSeen(seen[1..][..k - 1], id) {
      assert IsSeen(seen[..k], id) <==> seen[..k][0].id == id || IsSeen(seen[..k][1..], id);
    }
  }

  /** An unsettled record is never forgotten. */
  lemma UnsettledSurvives(rt: Tables, horizon: real, id: Id)
    requires id in rt.records && rt.records[id].state !in {Revoked, Expired, Withheld, EffectConfirmed, Failed, UnknownEffect}
    ensures var out := ExpireSeen(rt, horizon); id in out.records && out.records[id] == rt.records[id]
  {
    ExpireRecords(rt, horizon, id);
  }

  lemma {:induction false} PutNew(seen: seq<Admission>, id: Id, at: real)
    requires !IsSeen(seen, id)
    ensures Put(seen, id, at) == seen + [Admission(id, at)]
    decreases |seen|
  {
    if seen != [] {
      assert IsSeen(seen, id) <==> seen[0].id == id || IsSeen(seen[1..], id);
      PutNew(seen[1..], id, at);
      assert seen == [seen[0]] + seen[1..];
    }
  }

  // ---------------------------------------------------------------- runs under a monotonic clock

  /** The tables, the time each id was last admitted, and the last clock reading. */
  datatype Book = Book(rt: Tables, admitted: map<Id, real>, clock: real)

  predicate IsDuplicate(cfg: Config, rt: Tables, id: Id, now: real) {
    var e := ExpireSeen(rt, now - cfg.retention);
    IsSeen(e.seen, id) && id in e.records
  }

  predicate Ticks(clock: real, step: Step) {
    && (step.AdmitStep? ==> clock <= step.now <= step.stamp)
    && (step.ExpireStep? ==> clock <= step.now)
  }

  ghost function Keep(cfg: Config, b: Book, step: Step): Book {
    Book(Do(cfg, b.rt, step),
         if step.AdmitStep? && !IsDuplicate(cfg, b.rt, step.intent.id, step.now)
         then b.admitted[step.intent.id := step.stamp] else b.admitted,
         if step.AdmitStep? then step.stamp else if step.ExpireStep? then step.now else b.clock)
  }

  predicate Sorted(seen: seq<Admission>) {
    forall i, j :: 0 <= i < j < |seen| ==> seen[i].at <= seen[j].at && seen[i].id != seen[j].id
  }

  /** Every admission in the table is the true one, and not in the future. */
  predicate Grounded(seen: seq<Admission>, admitted: map<Id, real>, clock: real) {
    forall i :: 0 <= i < |seen| ==> seen[i].id in admitted && admitted[seen[i].id] == seen[i].at <= clock
  }

  predicate HasRecords(seen: seq<Admission>, ids: set<Id>) {
    forall i :: 0 <= i < |seen| ==> seen[i].id in ids
  }

  /** Every admitted id that is not in the table left the horizon. */
  predicate Left(seen: seq<Admission>, admitted: map<Id, real>, horizon: real) {
    forall id :: id in admitted && !IsSeen(seen, id) ==> admitted[id] < horizon
  }

  /** The table is sorted by admission; every id in it has a record and its true admission time; every
      admitted id that is not in it left the horizon. */
  predicate Exact(cfg: Config, b: Book) {
    && Sorted(b.rt.seen) && HasRecords(b.rt.seen, b.rt.records.Keys)
    && Grounded(b.rt.seen, b.admitted, b.clock)
    && Left(b.rt.seen, b.admitted, b.clock - cfg.retention)
  }

  lemma SuffixSorted(seen: seq<Admission>, k: nat, admitted: map<Id, real>, clock: real)
    requires Sorted(seen) && Grounded(seen, admitted, clock) && k <= |seen|
    ensures Sorted(seen[k..]) && Grounded(seen[k..], admitted, clock)
  {
  }

  /** In a sorted table the ids left by an eviction are those admitted within the horizon. */
  lemma SuffixExact(seen: seq<Admission>, admitted: map<Id, real>, clock: real, horizon: real, id: Id)
    requires Sorted(seen) && Grounded(seen, admitted, clock) && Left(seen, admitted, horizon)
    ensures IsSeen(seen[Stale(seen, horizon)..], id) <==> id in admitted && admitted[id] >= horizon
  {
  }

  lemma SuffixHasRecords(rt: Tables, horizon: real)
    requires Sorted(rt.seen) && HasRecords(rt.seen, rt.records.Keys)
    ensures var out := ExpireSeen(rt, horizon); HasRecords(out.seen, out.records.Keys)
  {
    var out, k := ExpireSeen(rt, horizon), Stale(rt.seen, horizon);
    ExpireIs(rt, horizon);
    forall i | 0 <= i < |out.seen| ensures out.seen[i].id in out.records {
      assert out.seen[i] == rt.seen[i + k];
      assert forall j :: 0 <= j < k ==> rt.seen[..k][j].id != out.seen[i].id;
    }
  }

  /** After an eviction the table holds precisely the ids admitted within the horizon. */
  lemma ExpireHolds(cfg: Config, b: Book, now: real, id: Id)
    requires Exact(cfg, b) && b.clock <= now
    ensures IsSeen(ExpireSeen(b.rt, now - cfg.retention).seen, id)
            <==> id in b.admitted && b.admitted[id] >= now - cfg.retention
  {
    var horizon, seen := now - cfg.retention, b.rt.seen;
    LeftLater(seen, b.admitted, b.clock - cfg.retention, horizon);
    ExpireSuffix(b.rt, horizon);
    SuffixExact(seen, b.admitted, b.clock, horizon, id);
  }

  lemma LeftLater(seen: seq<Admission>, admitted: map<Id, real>, was: real, horizon: real)
    requires Left(seen, admitted, was) && was <= horizon
    ensures Left(seen, admitted, horizon)
  {
  }

  /** Evicting keeps the table exact. */
  lemma ExpireExact(cfg: Config, b: Book, now: real)
    requires Exact(cfg, b) && b.clock <= now
    ensures Exact(cfg, Book(ExpireSeen(b.rt, now - cfg.retention), b.admitted, now))
  {
    var horizon, seen := now - cfg.retention, b.rt.seen;
    ExpireSuffix(b.rt, horizon);
    SuffixSorted(seen, Stale(seen, horizon), b.admitted, b.clock);
    assert Grounded(seen[Stale(seen, horizon)..], b.admitted, now);
    SuffixHasRecords(b.rt, horizon);
    LeftLater(seen, b.admitted, b.clock - cfg.retention, horizon);
    assert Left(seen[Stale(seen, horizon)..], b.admitted, horizon);
  }

  lemma SnocExact(seen: seq<Admission>, admitted: map<Id, real>, now: real, horizon: real, id: Id, stamp: real, bound: real)
    requires Sorted(seen) && Grounded(seen, admitted, now) && Left(seen, admitted, horizon)
    requires !IsSeen(seen, id) && now <= stamp && horizon <= bound
    ensures var s, m := seen + [Admission(id, stamp)], admitted[id := stamp];
            Sorted(s) && Grounded(s, m, stamp) && Left(s, m, bound)
  {
    SeenSnoc(seen, Admission(id, stamp));
  }

  lemma AdmitExact(cfg: Config, b: Book, intent: Intent, now: real, stamp: real)
    requires Exact(cfg, b) && b.clock <= now <= stamp
    ensures Exact(cfg, Keep(cfg, b, AdmitStep(intent, now, stamp)))
  {
    var e := ExpireSeen(b.rt, now - cfg.retention);
    ExpireExact(cfg, b, now);
    ExactAfterAdmit(cfg, b, e, intent, now, stamp);
  }

  /** A new admission goes last. */
  lemma ExactWithNew(cfg: Config, e: Tables, out: Tables, admitted: map<Id, real>, now: real, id: Id, stamp: real)
    requires Exact(cfg, Book(e, admitted, now)) && now <= stamp && !IsSeen(e.seen, id)
    requires out.seen == e.seen + [Admission(id, stamp)] && out.records.Keys == e.records.Keys + {id}
    ensures Exact(cfg, Book(out, admitted[id := stamp], stamp))
  {
    SnocExact(e.seen, admitted, now, now - cfg.retention, id, stamp, stamp - cfg.retention);
    assert HasRecords(out.seen, out.records.Keys);
  }

  /** A later clock reading keeps an exact table exact. */
  lemma ExactLater(cfg: Config, rt: Tables, admitted: map<Id, real>, now: real, later: real)
    requires Exact(cfg, Book(rt, admitted, now)) && now <= later
    ensures Exact(cfg, Book(rt, admitted, later))
  {
    LeftLater(rt.seen, admitted, now - cfg.retention, later - cfg.retention);
  }

  lemma ExactAfterAdmit(cfg: Config, b: Book, e: Tables, intent: Intent, now: real, stamp: real)
    requires e == ExpireSeen(b.rt, now - cfg.retention) && now <= stamp
    requires Exact(cfg, Book(e, b.admitted, now))
    ensures Exact(cfg, Keep(cfg, b, AdmitStep(intent, now, stamp)))
  {
    var after := Keep(cfg, b, AdmitStep(intent, now, stamp));
    if IsSeen(e.seen, intent.id) {
      ExactLater(cfg, e, b.admitted, now, stamp);
    } else {
      AdmittedParts(e, intent, stamp);
      ExactWithNew(cfg, e, after.rt, b.admitted, now, intent.id, stamp);
    }
  }

  lemma SeenSnoc(seen: seq<Admission>, a: Admission)
    ensures forall id :: IsSeen(seen + [a], id) <==> IsSeen(seen, id) || id == a.id
  {
    forall id ensures IsSeen(seen + [a], id) <==> IsSeen(seen, id) || id == a.id {
      assert (seen + [a])[|seen|] == a;
      if IsSeen(seen, id) {
        var i :| 0 <= i < |seen| && seen[i].id == id;
        assert (seen + [a])[i].id == id;
      }
    }
  }

  lemma OtherKeys(cfg: Config, rt: Tables, step: Step)
    requires !step.AdmitStep? && !step.ExpireStep?
    ensures var out := Do(cfg, rt, step); out.seen == rt.seen && rt.records.Keys <= out.records.Keys
  {
  }

  lemma StepExact(cfg: Config, b: Book, step: Step)
    requires Exact(cfg, b) && Ticks(b.clock, step)
    ensures Exact(cfg, Keep(cfg, b, step))
  {
    match step
    case AdmitStep(intent, now, stamp) => AdmitExact(cfg, b, intent, now, stamp);
    case ExpireStep(now) => ExpireExact(cfg, b, now);
    case _ => OtherKeys(cfg, b.rt, step);
  }

  ghost function Log(cfg: Config, start: real, steps: seq<Step>): Book
    decreases |steps|
  {
    if steps == [] then Book(NO_TABLES, map[], start)
    else Keep(cfg, Log(cfg, start, steps[..|steps| - 1]), steps[|steps| - 1])
  }

  ghost predicate Monotonic(cfg: Config, start: real, steps: seq<Step>)
    decreases |steps|
  {
    steps == [] || (Monotonic(cfg, start, steps[..|steps| - 1])
                    && Ticks(Log(cfg, start, steps[..|steps| - 1]).clock, steps[|steps| - 1]))
  }

  /** For every admission sequence under a monotonic clock the table stays sorted, holds only ids that
      have a record, and after an eviction at `now` is exactly the set of ids admitted within the horizon. */
  lemma {:induction false} WindowIsExact(cfg: Config, start: real, steps: seq<Step>, now: real)
    requires Monotonic(cfg, start, steps) && Log(cfg, start, steps).clock <= now
    ensures var b := Log(cfg, start, steps);
            && b.rt == Run(cfg, steps) && Exact(cfg, b)
            && forall id :: IsSeen(ExpireSeen(b.rt, now - cfg.retention).seen, id)
                            <==> id in b.admitted && b.admitted[id] >= now - cfg.retention
    decreases |steps|
  {
    if steps != [] {
      var before := steps[..|steps| - 1];
      WindowIsExact(cfg, start, before, Log(cfg, start, before).clock);
      StepExact(cfg, Log(cfg, start, before), steps[|steps| - 1]);
    }
    forall id ensures IsSeen(ExpireSeen(Log(cfg, start, steps).rt, now - cfg.retention).seen, id)
                      <==> id in Log(cfg, start, steps).admitted && Log(cfg, start, steps).admitted[id] >= now - cfg.retention {
      ExpireHolds(cfg, Log(cfg, start, steps), now, id);
    }
  }

  /** A second submission of an id whose record is unsettled is recognized as a duplicate if and only if
      the id was admitted within the horizon; otherwise its record is replaced. */
  lemma ReplacesUnsettled(cfg: Config, b: Book, intent: Intent, now: real, stamp: real)
    requires Exact(cfg, b) && b.clock <= now <= stamp
    requires intent.id in b.rt.records && !Settled(b.rt.records[intent.id].state)
    ensures var out := Admit(cfg, b.rt, intent, now, stamp);
            var within := intent.id in b.admitted && b.admitted[intent.id] >= now - cfg.retention;
            && intent.id in out.records
            && (within ==> out.records[intent.id] == b.rt.records[intent.id] && out.audit == b.rt.audit)
            && (!within ==> out.records[intent.id] == Fresh(intent) && out.audit == b.rt.audit + [Entered(intent.id, Created)])
  {
    var e := ExpireSeen(b.rt, now - cfg.retention);
    ExpireHolds(cfg, b, now, intent.id);
    UnsettledSurvives(b.rt, now - cfg.retention, intent.id);
    ExpireIsQuiet(b.rt, now - cfg.retention);
  }

  // ---------------------------------------------------------------- runs within one window

  /** No id is registered twice. */
  predicate FirstOnly(t: Trail) {
    t == [] || (FirstOnly(t[..|t| - 1])
                && (t[|t| - 1].Entered? && t[|t| - 1].state == Created ==> t[|t| - 1].id !in Latest(t[..|t| - 1])))
  }

  lemma {:induction false} FirstOnlyHasNoReplacement(t: Trail, from: set<State>)
    requires FirstOnly(t)
    ensures Edges(t, from, Created) == 0
    decreases |t|
  {
    if t != [] {
      FirstOnlyHasNoReplacement(t[..|t| - 1], from);
    }
  }

  /** Every id in the table was admitted since `start` and has a record. */
  predicate Matched(seen: seq<Admission>, ids: set<Id>, start: real) {
    forall i :: 0 <= i < |seen| ==> seen[i].at >= start && seen[i].id in ids
  }

  /** Every record ever registered is still there. */
  predicate Complete(rt: Tables, start: real) {
    && FirstOnly(rt.audit)
    && rt.records.Keys == Latest(rt.audit).Keys
    && Matched(rt.seen, rt.records.Keys, start)
  }

  /** The step belongs to the retention window that opened at `start`. */
  predicate Timed(cfg: Config, start: real, step: Step) {
    match step
    case AdmitStep(_, now, stamp) => start <= stamp && now <= start + cfg.retention
    case ExpireStep(now) => now <= start + cfg.retention
    case _ => true
  }

  /** ... and does not admit an id whose record was registered by a validation instead of an admission: such
      a record is not in the table, so the admission replaces it. */
  predicate InWindow(cfg: Config, rt: Tables, start: real, step: Step) {
    Timed(cfg, start, step)
    && (step.AdmitStep? ==> step.intent.id in rt.records ==> IsSeen(rt.seen, step.intent.id))
  }

  /** Entries that do not register anything. */
  predicate Moves(rt: Tables, out: Tables) {
    && (FirstOnly(rt.audit) ==> FirstOnly(out.audit))
    && out.seen == rt.seen
    && out.records.Keys == rt.records.Keys
    && (rt.records.Keys == Latest(rt.audit).Keys ==> Latest(out.audit).Keys == Latest(rt.audit).Keys)
  }

  lemma EnterMoves(rt: Tables, id: Id, rec: Rec)
    requires id in rt.records && rec.state != Created
    ensures Moves(rt, Enter(rt, id, rec)) && Moves(rt, Advance(rt, id, rec))
  {
  }

  lemma CheckingMoves(rt: Tables, id: Id, rec: Rec)
    requires id in rt.records
    ensures Moves(rt, Checking(rt, id, rec)) && id in Checking(rt, id, rec).records
  {
  }

  lemma ProcessMoves(cfg: Config, rt: Tables, intent: Intent, v: Validation)
    requires intent.id in rt.records
    ensures Moves(rt, Process(cfg, rt, intent, v))
  {
    var id, rec := intent.id, rt.records[intent.id];
    if Validatable(rec.state) {
      var out := Validated(cfg, rt, rec, intent, v);
      var mid := Checking(rt, id, rec).(held := Locking(rt.held, out));
      CheckingMoves(rt, id, rec);
      ValidatedCases(cfg, rt, rec, intent, v);
      EnterMoves(mid, id, out);
      assert Moves(rt, Advance(mid, id, out));
    }
  }

  lemma ReleaseMoves(rt: Tables, id: Id, released: bool, cv: Option<int>, rv: Option<int>)
    ensures Moves(rt, ReportRelease(rt, id, released, cv, rv).0)
  {
    ReleaseIs(rt, id, released, cv, rv);
    if id in rt.records && rt.records[id].state in OPEN && rt.records[id].release.None? {
      var rec := rt.records[id];
    } else {
      assert Moves(rt, Reject(rt, id));
    }
  }

  lemma RejectMoves(rt: Tables, id: Id)
    ensures Moves(rt, Reject(rt, id))
  {
  }

  lemma SettleMoves(rt: Tables, id: Id, rec: Rec)
    requires id in rt.records && rec.state != Created
    ensures Moves(rt, Advance(Unlock(rt, id), id, rec)) && Moves(rt, Enter(Unlock(rt, id), id, rec))
  {
  }

  lemma CommitMoves(rt: Tables, id: Id, committed: bool, seqNo: Option<nat>)
    ensures Moves(rt, RecordCommit(rt, id, committed, seqNo).0)
  {
  }

  lemma OtherMoves(cfg: Config, rt: Tables, step: Step)
    requires !step.AdmitStep? && !step.ExpireStep? && !step.ProcessStep?
    ensures Moves(rt, Do(cfg, rt, step))
  {
    match step
    case InstallStep(_, _, _) =>
    case CommitStep(id, committed, seqNo) => CommitMoves(rt, id, committed, seqNo);
    case ReleaseStep(id, released, cv, rv) => ReleaseMoves(rt, id, released, cv, rv);
    case EffectStep(id, effect) =>
      RejectMoves(rt, id);
      if id in rt.records {
        EnterMoves(rt, id, rt.records[id].(state := EffectState(effect)));
      }
    case RevokeStep(id) =>
      if id in rt.records {
        SettleMoves(rt, id, rt.records[id].(state := Revoked));
      }
    case DiscardStep(id) =>
      if id in rt.records {
        EnterMoves(rt, id, rt.records[id].(state := Revoked));
      }
  }

  lemma AdmittedParts(rt: Tables, intent: Intent, stamp: real)
    requires !IsSeen(rt.seen, intent.id)
    ensures var out := Admitted(rt, intent, stamp);
            && out.seen == rt.seen + [Admission(intent.id, stamp)]
            && out.audit == rt.audit + [Entered(intent.id, Created)]
            && out.records.Keys == rt.records.Keys + {intent.id}
  {
    PutNew(rt.seen, intent.id, stamp);
  }

  lemma AdmitComplete(cfg: Config, rt: Tables, start: real, intent: Intent, now: real, stamp: real)
    requires Complete(rt, start) && InWindow(cfg, rt, start, AdmitStep(intent, now, stamp))
    ensures Complete(Admit(cfg, rt, intent, now, stamp), start)
  {
    if intent.id !in rt.records {
      AdmittedParts(rt, intent, stamp);
      assert Matched(rt.seen + [Admission(intent.id, stamp)], rt.records.Keys + {intent.id}, start);
    }
  }

  /** Within the window an admission replaces a record if and only if the id has one and is not in the table. */
  lemma AdmitReplacesIff(cfg: Config, rt: Tables, start: real, intent: Intent, now: real, stamp: real)
    requires Complete(rt, start) && Timed(cfg, start, AdmitStep(intent, now, stamp))
    ensures FirstOnly(Admit(cfg, rt, intent, now, stamp).audit) <==> InWindow(cfg, rt, start, AdmitStep(intent, now, stamp))
  {
    if InWindow(cfg, rt, start, AdmitStep(intent, now, stamp)) {
      AdmitComplete(cfg, rt, start, intent, now, stamp);
    } else {
      var out := Admit(cfg, rt, intent, now, stamp).audit;
      assert out == rt.audit + [Entered(intent.id, Created)];
      assert out[..|out| - 1] == rt.audit && out[|out| - 1] == Entered(intent.id, Created);
    }
  }

  lemma ProcessComplete(cfg: Config, rt: Tables, start: real, intent: Intent, v: Validation)
    requires Complete(rt, start)
    ensures Complete(Process(cfg, rt, intent, v), start)
  {
    var known := Begin(rt, intent);
    assert Complete(Begin(rt, intent), start) && intent.id in Begin(rt, intent).records by {
    }
    assert (var known := Begin(rt, intent);
            Process(cfg, rt, intent, v) == Process(cfg, known, intent, v) || intent.id in rt.records) by {
      var known := Begin(rt, intent);
      if intent.id !in rt.records {
        ValidatedSame(cfg, rt, known, Fresh(intent), intent, v);
      }
    }
    ProcessMoves(cfg, known, intent, v);
  }

  ghost predicate RunInWindow(cfg: Config, start: real, steps: seq<Step>)
    decreases |steps|
  {
    steps == [] || (RunInWindow(cfg, start, steps[..|steps| - 1])
                    && InWindow(cfg, Run(cfg, steps[..|steps| - 1]), start, steps[|steps| - 1]))
  }

  lemma {:induction false} RunComplete(cfg: Config, start: real, steps: seq<Step>)
    requires RunInWindow(cfg, start, steps)
    ensures Complete(Run(cfg, steps), start)
    decreases |steps|
  {
    if steps != [] {
      RunComplete(cfg, start, steps[..|steps| - 1]);
      match steps[|steps| - 1]
      case AdmitStep(intent, now, stamp) => AdmitComplete(cfg, Run(cfg, steps[..|steps| - 1]), start, intent, now, stamp);
      case ExpireStep(now) =>
      case ProcessStep(intent, v) => ProcessComplete(cfg, Run(cfg, steps[..|steps| - 1]), start, intent, v);
      case _ =>
        OtherMoves(cfg, Run(cfg, steps[..|steps| - 1]), steps[|steps| - 1]);
    }
  }

  lemma CountOpen(states: map<Id, State>)
    ensures Count(states, OPEN) == Count(states, {Authorized}) + Count(states, {Committed})
  {
    var a, c := In(states, {Authorized}), In(states, {Committed});
    assert In(states, OPEN) == a + c && a !! c;
  }

  // ---------------------------------------------------------------- the callback is called at most once

  predicate NoRepeats(ids: seq<Id>) {
    forall i, j :: 0 <= i < j < |ids| ==> ids[i] != ids[j]
  }

  /** Without a second registration, whatever an intent entered is on its walk. */
  lemma {:induction false} EntrantWalked(t: Trail, s: State, id: Id)
    requires FirstOnly(t) && Legal(t) && id in Entrants(t, s)
    ensures id in Latest(t) && s in Since(t, id)
    decreases |t|
  {
    var before, e := t[..|t| - 1], t[|t| - 1];
    if id in Entrants(before, s) {
      EntrantWalked(before, s, id);
    }
  }

  lemma {:induction false} ReleasedOnce(t: Trail)
    requires FirstOnly(t) && Legal(t)
    ensures NoRepeats(Entrants(t, Released))
    decreases |t|
  {
    if t != [] {
      var before, e := t[..|t| - 1], t[|t| - 1];
      ReleasedOnce(before);
      if e.Entered? && e.state == Released {
        SinceIsWalk(before, e.id);
        WalkOutcome(Since(before, e.id));
        if e.id in Entrants(before, Released) {
          EntrantWalked(before, Released, e.id);
        }
      }
    }
  }

  /** Within one retention window no intent is handed to the actuation callback twice. */
  lemma ActuatedOnce(cfg: Config, start: real, steps: seq<Step>)
    requires RunInWindow(cfg, start, steps)
    ensures NoRepeats(Run(cfg, steps).actuated)
  {
    RunSound(cfg, steps);
    RunComplete(cfg, start, steps);
    ReleasedOnce(Run(cfg, steps).audit);
  }

  /** Conservation within one retention window, in terms of the counters and the records alone. */
  lemma WindowConservation(cfg: Config, start: real, steps: seq<Step>)
    requires RunInWindow(cfg, start, steps)
    ensures var rt := Run(cfg, steps);
            && rt.metrics.authorized
               == Count(States(rt), {Authorized}) + Count(States(rt), {Committed})
                  + rt.metrics.released + rt.metrics.withheld + Edges(rt.audit, {Authorized}, Revoked)
            && rt.metrics.released == Count(States(rt), RELEASED_STATES) == |rt.actuated|
            && rt.metrics.withheld == Count(States(rt), {Withheld})
  {
    var rt := Run(cfg, steps);
    Conservation(cfg, steps);
    RunSound(cfg, steps);
    RunComplete(cfg, start, steps);
    FirstOnlyHasNoReplacement(rt.audit, OPEN);
    FirstOnlyHasNoReplacement(rt.audit, RELEASED_STATES);
    FirstOnlyHasNoReplacement(rt.audit, {Withheld});
    assert States(rt) == Latest(rt.audit);
    CountOpen(States(rt));
  }
}
