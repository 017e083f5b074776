/** The runtime as an object: tables updated in place under one lock.
    Models `XAIRRuntime` (xair/core/runtime.py). Every method is one step of module Runtime, so
    conservation, the idempotency window and the lock theorems hold of the object. */
module RuntimeObject {
  import opened Wrappers
  import opened ContextTree
  import opened Predicates
  import opened Versioning
  import opened Lifecycle
  import opened Audit
  import opened Runtime
  import S = Store

  class XAIRRuntime {
    const cfg: Config
    var records: map<Id, Rec>
    var seen: seq<Admission>
    var held: set<Target>
    var context: Tree
    var installed: nat
    var metrics: Metrics
    var audit: Trail
    var actuated: seq<Id>
    ghost var trace: seq<Step>

    function View(): Tables
      reads this
    {
      Tables(records, seen, held, context, installed, metrics, audit, actuated)
    }

    /** The object is where the state machine is after the calls made so far. */
    ghost predicate Valid()
      reads this
    {
      View() == Run(cfg, trace)
    }

    constructor (cfg: Config)
      ensures Valid() && trace == [] && this.cfg == cfg
    {
      this.cfg := cfg;
      records, seen, held, context, installed := map[], [], {}, EMPTY, 0;
      metrics, audit, actuated := Metrics(0, 0, 0, 0, 0, 0, 0, 0, 0, 0, 0), [], [];
      trace := [];
    }

    ghost method Took(before: Tables, step: Step)
      requires before == Run(cfg, trace) && View() == Do(cfg, before, step)
      modifies this`trace
      ensures Valid() && trace == old(trace) + [step]
    {
      RunSnoc(cfg, trace, step);
      trace := trace + [step];
    }

    /** Move a record to a state the caller knows to be admissible. */
    method Transition(id: Id, rec: Rec)
      modifies this`records, this`audit
      ensures View() == Enter(old(View()), id, rec)
    {
      records := records[id := rec];
      audit := audit + [Entered(id, rec.state)];
    }

    /** Evict from the front of the table until the oldest admission is within the horizon. */
    method Expire(horizon: real)
      modifies this`records, this`seen
      ensures View() == ExpireSeen(old(View()), horizon)
    {
      ghost var before := View();
      while seen != []
        invariant View() == before.(records := records, seen := seen)
        invariant ExpireSeen(View(), horizon) == ExpireSeen(before, horizon)
        decreases |seen|
      {
        var oldest := seen[0];
        if oldest.at >= horizon {
          break;
        }
        seen := seen[1..];
        if oldest.id in records && Settled(records[oldest.id].state) {
          records := records - {oldest.id};
        }
      }
    }

    method Enroll(intent: Intent, now: real, stamp: real) returns (rec: Rec, duplicate: bool)
      modifies this`records, this`seen, this`audit, this`metrics
      ensures View() == Admit(cfg, old(View()), intent, now, stamp)
      ensures intent.id in records && rec == records[intent.id]
      ensures duplicate <==> audit == old(audit)
    {
      ghost var before := View();
      Expire(now - cfg.retention);
      ExpireKeepsAudit(before, now - cfg.retention);
      if IsSeen(seen, intent.id) && intent.id in records {
        rec, duplicate := records[intent.id], true;
      } else {
        seen := Put(seen, intent.id, stamp);
        metrics := metrics.(received := metrics.received + 1);
        rec, duplicate := Fresh(intent), false;
        Transition(intent.id, rec);
      }
    }

    /** Admission: the answer is a duplicate exactly if nothing new was registered. */
    method AdmitIntent(intent: Intent, now: real, stamp: real) returns (rec: Rec, duplicate: bool)
      requires Valid()
      modifies this
      ensures Valid() && trace == old(trace) + [AdmitStep(intent, now, stamp)]
      ensures View() == Admit(cfg, old(View()), intent, now, stamp)
      ensures intent.id in records && rec == records[intent.id]
      ensures duplicate <==> audit == old(audit)
    {
      ghost var before := View();
      rec, duplicate := Enroll(intent, now, stamp);
      Took(before, AdmitStep(intent, now, stamp));
    }

    /** The record of an intent, registered if there is none. */
    method RecordOf(intent: Intent) returns (rec: Rec)
      modifies this`records, this`audit
      ensures View() == Begin(old(View()), intent)
      ensures rec == Begin(old(View()), intent).records[intent.id]
    {
      if intent.id !in records {
        Transition(intent.id, Fresh(intent));
      }
      rec := records[intent.id];
    }

    /** The passage through PENDING and VALIDATING to the verdict. */
    method Check(rec: Rec, intent: Intent, v: Validation, expired: nat -> bool)
      requires v.timely <==> var it := ApplyPolicy(v.policy, intent); forall k :: 0 <= k < |it.All()| ==> !expired(k)
      modifies this`held, this`records, this`audit, this`metrics
      ensures var out := Validated(cfg, old(View()), rec, intent, v);
              View() == Advance(Checking(old(View()), intent.id, rec).(held := Locking(old(held), out)), intent.id, out)
    {
      ghost var before := View();
      Transition(intent.id, rec.(state := Pending));
      Transition(intent.id, rec.(state := Validating));
      ghost var checking := View();
      var out := Validate(rec, intent, v, expired);
      ValidatedSame(cfg, checking, before, rec, intent, v);
      Conclude(intent.id, out);
    }

    method Pass(intent: Intent, v: Validation, expired: nat -> bool)
      requires v.timely <==> var it := ApplyPolicy(v.policy, intent); forall k :: 0 <= k < |it.All()| ==> !expired(k)
      modifies this`held, this`records, this`audit, this`metrics
      ensures View() == Process(cfg, old(View()), intent, v)
    {
      ghost var before := View();
      var rec := RecordOf(intent);
      ghost var known := View();
      if Validatable(rec.state) {
        Check(rec, intent, v, expired);
      }
      ProcessIs(cfg, before, known, rec, intent, v);
    }

    /** One validation pass over an intent, on the snapshot it is given. */
    method ProcessIntent(intent: Intent, v: Validation, expired: nat -> bool)
      requires Valid()
      requires v.timely <==> var it := ApplyPolicy(v.policy, intent); forall k :: 0 <= k < |it.All()| ==> !expired(k)
      modifies this
      ensures Valid() && trace == old(trace) + [ProcessStep(intent, v)]
      ensures View() == Process(cfg, old(View()), intent, v)
    {
      ghost var before := View();
      Pass(intent, v, expired);
      Took(before, ProcessStep(intent, v));
    }

    /** Install the verdict: an authorization takes its lock. */
    method Conclude(id: Id, out: Rec)
      requires out.state != Released
      modifies this`held, this`records, this`audit, this`metrics
      ensures View() == Advance(old(View()).(held := Locking(old(held), out)), id, out)
    {
      if out.state == Authorized && out.cls != Stop {
        held := held + {out.intent.target};
      }
      Transition(id, out);
      metrics := Bumped(metrics, out.state);
    }

    /** The record a validation ends with. */
    method Validate(rec: Rec, intent: Intent, v: Validation, expired: nat -> bool) returns (out: Rec)
      requires v.timely <==> var it := ApplyPolicy(v.policy, intent); forall k :: 0 <= k < |it.All()| ==> !expired(k)
      ensures out == Validated(cfg, View(), rec, intent, v) && out.state in Allowed(Validating)
    {
      var cls := ClassOf(v.policy, intent.action);
      if cls == Stop {
        out := rec.(intent := intent.(policyAdded := Some([])), state := Authorized, cls := cls,
                    contextVersion := installed, readSet := {}, readVersion := 0, predicates := []);
        return;
      }
      if v.doc.Some? && v.doc.value.version < installed {
        out := rec.(intent := intent, state := Revoked, cls := cls, contextVersion := installed);
        return;
      }
      var it := ApplyPolicy(v.policy, intent);
      var snapshot, version := context, installed;
      if v.doc.Some? {
        snapshot, version := v.doc.value.ctx, v.doc.value.version;
      }
      var contextOk := EvaluatePredicates(it.safety, it.preconditions, snapshot, expired);
      var verdict := Lifecycle.Decide(ValidateTime(cfg.clock, it, v.now), contextOk, it.target in held, it.degradable);
      var paths := ReadSetOf(it.All());
      var readVersion: int, predicateVersion := version, -1;
      if v.doc.Some? {
        readVersion := ComputeReadSetVersion(v.doc.value.pv, paths);
        predicateVersion := ComputePredicateVersion(v.doc.value.preds, Registered(it.All()));
      }
      out := rec.(intent := it, cls := cls, contextVersion := version, readSet := paths, readVersion := readVersion,
                  predicates := Registered(it.All()), predicateVersion := predicateVersion);
      match verdict
      case Degrade => out := out.(intent := it.(degradable := false), state := Degraded);
      case Execute => out := out.(state := Authorized);
      case Delay => out := out.(state := Delayed);
      case Revoke(late) => out := out.(state := if late then Expired else Revoked);
    }

    /** Drop the lock and settle the commit one way or the other. */
    method SettleCommit(id: Id, committed: bool, seqNo: Option<nat>)
      requires id in records
      modifies this`held, this`records, this`audit, this`metrics
      ensures View() == Advance(Unlock(old(View()), id), id,
                                if committed then old(records)[id].(state := Committed, commitSeq := seqNo)
                                else old(records)[id].(state := Withheld, release := Some(Withhold)))
    {
      var rec := records[id];
      held := held - {rec.intent.target};
      if committed {
        Transition(id, rec.(state := Committed, commitSeq := seqNo));
        metrics := metrics.(committed := metrics.committed + 1);
      } else {
        Transition(id, rec.(state := Withheld, release := Some(Withhold)));
        metrics := metrics.(withheld := metrics.withheld + 1);
      }
    }

    method NoteCommit(id: Id, committed: bool, seqNo: Option<nat>) returns (reply: Reply)
      modifies this`held, this`records, this`audit, this`metrics
      ensures (View(), reply) == RecordCommit(old(View()), id, committed, seqNo)
    {
      if id !in records {
        reply := NotFound;
      } else {
        var rec := records[id];
        if rec.state == (if committed then Committed else Withheld) && (committed || rec.release == Some(Withhold)) {
          reply := Done;
        } else if rec.state != Authorized {
          audit := audit + [Noted(id)];
          reply := Refused;
        } else {
          SettleCommit(id, committed, seqNo);
          reply := Done;
        }
      }
    }

    /** Record the outcome of the atomic commit; the target lock is dropped here. */
    method CommitOutcome(id: Id, committed: bool, seqNo: Option<nat>) returns (reply: Reply)
      requires Valid()
      modifies this
      ensures Valid() && trace == old(trace) + [CommitStep(id, committed, seqNo)]
      ensures (View(), reply) == RecordCommit(old(View()), id, committed, seqNo)
    {
      ghost var before := View();
      reply := NoteCommit(id, committed, seqNo);
      Took(before, CommitStep(id, committed, seqNo));
    }

    /** Drop the lock and settle the release one way or the other. */
    method SettleRelease(id: Id, released: bool)
      requires id in records
      modifies this`held, this`records, this`audit, this`metrics, this`actuated
      ensures View() == Advance(Unlock(old(View()), id), id,
                                if released then old(records)[id].(state := Released, release := Some(Release))
                                else old(records)[id].(state := Withheld, release := Some(Withhold)))
    {
      var rec := records[id];
      held := held - {rec.intent.target};
      if released {
        Transition(id, rec.(state := Released, release := Some(Release)));
        metrics := metrics.(released := metrics.released + 1);
        actuated := actuated + [id];
      } else {
        Transition(id, rec.(state := Withheld, release := Some(Withhold)));
        metrics := metrics.(withheld := metrics.withheld + 1);
      }
    }

    method Settle(id: Id, reported: bool, contextVersion: Option<int>, readVersion: Option<int>) returns (reply: Reply)
      modifies this`held, this`records, this`audit, this`metrics, this`actuated
      ensures (View(), reply) == ReportRelease(old(View()), id, reported, contextVersion, readVersion)
    {
      if id !in records {
        reply := NotFound;
      } else {
        var rec := records[id];
        var wanted := if reported then Release else Withhold;
        if !reported && rec.state == Revoked {
          reply := Done;
        } else if rec.release.Some? && rec.release.value == wanted {
          reply := Done;
        } else if rec.release.Some? || (rec.state != Authorized && rec.state != Committed) {
          audit := audit + [Noted(id)];
          reply := Refused;
        } else {
          var released := reported;
          if rec.state == Authorized && released {
            if readVersion.Some? && readVersion.value != rec.readVersion {
              released := false;
            } else if readVersion.None? && contextVersion.Some? && contextVersion.value != rec.contextVersion {
              released := false;
            }
          }
          SettleRelease(id, released);
          reply := Done;
        }
      }
    }

    /** Record the gateway's release decision; a version that moved turns a release into a withholding. */
    method GatewayReport(id: Id, reported: bool, contextVersion: Option<int>, readVersion: Option<int>) returns (reply: Reply)
      requires Valid()
      modifies this
      ensures Valid() && trace == old(trace) + [ReleaseStep(id, reported, contextVersion, readVersion)]
      ensures (View(), reply) == ReportRelease(old(View()), id, reported, contextVersion, readVersion)
    {
      ghost var before := View();
      reply := Settle(id, reported, contextVersion, readVersion);
      Took(before, ReleaseStep(id, reported, contextVersion, readVersion));
    }

    method NoteEffect(id: Id, effect: Effect) returns (reply: Reply)
      modifies this`records, this`audit, this`metrics
      ensures (View(), reply) == ReportEffect(old(View()), id, effect)
    {
      if id !in records {
        reply := NotFound;
      } else {
        var rec, target := records[id], EffectState(effect);
        if rec.state == target {
          reply := Done;
        } else if target !in Allowed(rec.state) {
          audit := audit + [Noted(id)];
          reply := Refused;
        } else {
          Transition(id, rec.(state := target));
          metrics := Bumped(metrics, target);
          reply := Done;
        }
      }
    }

    /** Record what the actuator reported about the effect of a released intent. */
    method EffectReport(id: Id, effect: Effect) returns (reply: Reply)
      requires Valid()
      modifies this
      ensures Valid() && trace == old(trace) + [EffectStep(id, effect)]
      ensures (View(), reply) == ReportEffect(old(View()), id, effect)
    {
      ghost var before := View();
      reply := NoteEffect(id, effect);
      Took(before, EffectStep(id, effect));
    }

    /** A supervisor's revoke, refused once the intent is committed or released. */
    method RevokeIntent(id: Id) returns (reply: Reply)
      requires Valid()
      modifies this
      ensures Valid() && trace == old(trace) + [RevokeStep(id)]
      ensures (View(), reply) == SupervisoryRevoke(old(View()), id)
    {
      ghost var before := View();
      if id !in records {
        reply := NotFound;
      } else if Revoked !in Allowed(records[id].state) {
        reply := Refused;
      } else {
        var target := records[id].intent.target;
        Transition(id, records[id].(state := Revoked));
        held := held - {target};
        reply := Done;
      }
      Took(before, RevokeStep(id));
    }
  }

  /** Whatever calls were made to it, the object's tables are sound: its trail is legal, its counters count
      the trail, and the callback got exactly the released intents. */
  lemma ObjectIsSound(o: XAIRRuntime)
    requires o.Valid()
    ensures Sound(o.View()) && |o.actuated| == o.metrics.released
  {
    RunSound(o.cfg, o.trace);
    CountersAre(o.metrics, o.audit, o.actuated);
  }

  lemma ProcessIs(cfg: Config, rt: Tables, known: Tables, rec: Rec, intent: Intent, v: Validation)
    requires known == Begin(rt, intent) && rec == known.records[intent.id]
    ensures Process(cfg, rt, intent, v)
            == if Validatable(rec.state) then
                 var out := Validated(cfg, known, rec, intent, v);
                 Advance(Checking(known, intent.id, rec).(held := Locking(known.held, out)), intent.id, out)
               else known
  {
    ValidatedSame(cfg, known, rt, rec, intent, v);
  }

  lemma ExpireKeepsAudit(rt: Tables, horizon: real)
    ensures ExpireSeen(rt, horizon).audit == rt.audit
    decreases |rt.seen|
  {
    if rt.seen != [] && rt.seen[0].at < horizon {
      ExpireKeepsAudit(PopOldest(rt), horizon);
    }
  }
}
