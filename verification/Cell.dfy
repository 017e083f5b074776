/** The cell controller, its version-conditional commands, and the replication of its state.
    Models `Cell` of scripts/cell_controller.py and the witness the gateway sends with a command
    (scripts/actuator_gateway.py). */
module Cell {
  import opened Wrappers
  import opened ContextTree
  import P = Predicates
  import S = Store

  const RUN := "RUN"

  /** A line state under one version; the controller goes from one episode to the next. */
  datatype Episode = Episode(state: string, version: int)

  datatype Command = Command(id: string, expected: Option<int>, deadline: Option<real>, needsRun: bool)

  datatype Result = VersionChanged | PredicateFalse | DeadlinePassed | Executed

  /** What one scan does with a command. */
  function Judge(now: Episode, time: real, c: Command): Result {
    if c.expected.Some? && c.expected.value != now.version then VersionChanged
    else if c.needsRun && now.state != RUN then PredicateFalse
    else if c.deadline.Some? && time > c.deadline.value then DeadlinePassed
    else Executed
  }

  /** The controller; `file` is the persisted version, if a state file is in use. */
  datatype Controller = Controller(
    state: string,
    version: int,
    running: bool,
    pending: seq<Command>,
    effects: nat,
    usesFile: bool,
    file: Option<int>)
  {
    function Now(): Episode { Episode(state, version) }
  }

  function Persisted(c: Controller): Controller {
    if c.usesFile then c.(file := Some(c.version)) else c
  }

  /** The version a restart begins with: the seed, else the version after the persisted one, else the
      boot clock in microseconds. */
  function BootVersion(usesFile: bool, file: Option<int>, seed: Option<int>, micros: int): int {
    if seed.Some? then seed.value
    else if usesFile && file.Some? then file.value + 1
    else micros
  }

  function Boot(usesFile: bool, file: Option<int>, seed: Option<int>, micros: int): Controller {
    Persisted(Controller(RUN, BootVersion(usesFile, file, seed, micros), false, [], 0, usesFile, file))
  }

  /** Operator write: a change advances the version; leaving RUN stops the conveyor. */
  function SetState(c: Controller, value: string): Controller {
    var moved := if value != c.state then Persisted(c.(state := value, version := c.version + 1)) else c;
    if value != RUN then moved.(running := false) else moved
  }

  function CountExecuted(now: Episode, time: real, batch: seq<Command>): nat {
    if batch == [] then 0
    else CountExecuted(now, time, batch[..|batch| - 1]) + if Judge(now, time, batch[|batch| - 1]) == Executed then 1 else 0
  }

  /** One scan: every queued command is judged against the state as it is now. */
  function Scan(c: Controller, time: real): Controller {
    Counted(c, CountExecuted(c.Now(), time, c.pending))
  }

  /** After n executions; the effect of a command is that the conveyor runs. */
  function Counted(c: Controller, n: nat): Controller {
    c.(pending := [], effects := c.effects + n, running := c.running || n > 0)
  }

  // ---------------------------------------------------------------- the object

  class CellObject {
    var state: string
    var version: int
    var conveyor: string
    var pending: seq<Command>
    var effects: nat
    const usesFile: bool
    var file: Option<int>

    function View(): Controller
      reads this
    {
      Controller(state, version, conveyor == "RUNNING", pending, effects, usesFile, file)
    }

    constructor (usesFile: bool, file: Option<int>, seed: Option<int>, micros: int)
      ensures View() == Boot(usesFile, file, seed, micros) && conveyor == "STOPPED"
    {
      var start;
      if seed.Some? {
        start := seed.value;
      } else if usesFile && file.Some? {
        start := file.value + 1;
      } else {
        start := micros;
      }
      this.usesFile, state, version := usesFile, RUN, start;
      this.file := if usesFile then Some(start) else file;
      conveyor, pending, effects := "STOPPED", [], 0;
    }

    /** Write the version to the state file before it is used. */
    method Persist()
      modifies this`file
      ensures View() == Persisted(old(View()))
    {
      if !usesFile {
        return;
      }
      file := Some(version);
    }

    method SetLineState(value: string) returns (v: int)
      modifies this
      ensures View() == SetState(old(View()), value) && v == version
    {
      if value != state {
        state := value;
        version := version + 1;
        Persist();
      }
      if value != RUN {
        conveyor := "STOPPED";
      }
      return version;
    }

    /** One queued command, executed or refused in this scan. */
    method Execute(c: Command, time: real) returns (r: Result)
      modifies this`effects, this`conveyor
      ensures r == Judge(old(View()).Now(), time, c)
      ensures View() == if r == Executed then old(View()).(effects := old(effects) + 1, running := true) else old(View())
    {
      if c.expected.Some? && c.expected.value != version {
        return VersionChanged;
      } else if c.needsRun && state != RUN {
        return PredicateFalse;
      } else if c.deadline.Some? && time > c.deadline.value {
        return DeadlinePassed;
      }
      effects := effects + 1;
      conveyor := "RUNNING";
      return Executed;
    }

    method ScanOnce(time: real) returns (results: seq<Result>)
      modifies this
      ensures View() == Scan(old(View()), time)
      ensures |results| == |old(pending)|
      ensures forall i :: 0 <= i < |results| ==> results[i] == Judge(old(View()).Now(), time, old(pending)[i])
      ensures forall i :: 0 <= i < |results| ==>
                (results[i] == Executed <==>
                   && (old(pending)[i].expected.Some? ==> old(pending)[i].expected.value == old(version))
                   && (old(pending)[i].needsRun ==> old(state) == "RUN")
                   && (old(pending)[i].deadline.Some? ==> time <= old(pending)[i].deadline.value))
    {
      var batch := pending;
      pending, results := [], [];
      ghost var before := old(View());
      for i := 0 to |batch|
        invariant |results| == i
        invariant forall k :: 0 <= k < i ==> results[k] == Judge(before.Now(), time, batch[k])
        invariant View() == Counted(before, CountExecuted(before.Now(), time, batch[..i]))
      {
        assert batch[..i + 1][..i] == batch[..i];
        var r := Execute(batch[i], time);
        results := results + [r];
      }
      assert batch[..|batch|] == batch;
    }
  }

  // ---------------------------------------------------------------- runs with restarts and replication

  /** An executed command and the episode it was executed in (its index among all episodes). */
  datatype Effect = Effect(command: Command, index: nat)

  /** The controller across restarts, every episode it was ever in, what it executed, and XAIR's store. */
  datatype Plant = Plant(cell: Controller, episodes: seq<Episode>, executed: seq<Effect>, world: S.World)

  datatype Event =
    | Restart(seed: Option<int>, micros: int)
    | Write(value: string)
    | CrashInWrite(value: string, seed: Option<int>, micros: int)
    | Queue(command: Command)
    | Tick(time: real)
    | Publish(index: nat, kept: set<P.Expr>)
    | StoreStep(step: S.Step)

  const LINE: Key := "line"

  function LineValue(e: Episode): Value { Obj(map["state" := Str(e.state), "version" := Int(e.version)]) }

  function LinePatch(e: Episode): Tree { Obj(map[LINE := LineValue(e)]) }

  /** The bridge may publish any past episode, any number of times or never, in any order; nobody else
      writes the line root. */
  predicate Enabled(p: Plant, e: Event) {
    match e
    case Publish(index, _) => index < |p.episodes|
    case StoreStep(step) => step.Update? ==> LINE !in step.patch.fields
    case _ => true
  }

  function NewEffects(now: Episode, time: real, batch: seq<Command>, index: nat): seq<Effect> {
    if batch == [] then []
    else
      NewEffects(now, time, batch[..|batch| - 1], index)
      + if Judge(now, time, batch[|batch| - 1]) == Executed then [Effect(batch[|batch| - 1], index)] else []
  }

  /** A controller and the episodes it went through. */
  datatype Track = Track(cell: Controller, episodes: seq<Episode>)

  function WriteTo(t: Track, value: string): Track {
    var c := SetState(t.cell, value);
    Track(c, if c.Now() == t.cell.Now() then t.episodes else t.episodes + [c.Now()])
  }

  function Rebooted(p: Plant, seed: Option<int>, micros: int): Plant {
    var c := Boot(p.cell.usesFile, p.cell.file, seed, micros);
    p.(cell := c, episodes := p.episodes + [c.Now()])
  }

  ghost function Next(p: Plant, e: Event): Plant
    requires Enabled(p, e) && p.episodes != []
  {
    match e
    case Restart(seed, micros) => Rebooted(p, seed, micros)
    case Write(value) =>
      var t := WriteTo(Track(p.cell, p.episodes), value);
      p.(cell := t.cell, episodes := t.episodes)
    // a crash before the new version is persisted: nobody saw it
    case CrashInWrite(_, seed, micros) => Rebooted(p, seed, micros)
    case Queue(command) => p.(cell := p.cell.(pending := p.cell.pending + [command]))
    case Tick(time) =>
      p.(cell := Scan(p.cell, time),
         executed := p.executed + NewEffects(p.cell.Now(), time, p.cell.pending, |p.episodes| - 1))
    case Publish(index, kept) => p.(world := S.Do(p.world, S.Update(LinePatch(p.episodes[index]), kept)))
    case StoreStep(step) => p.(world := S.Do(p.world, step))
  }

  function Installed(usesFile: bool, micros: int): Plant {
    var c := Boot(usesFile, None, None, micros);
    Plant(c, [c.Now()], [], S.INITIAL)
  }

  /** Versions strictly increase from episode to episode, across restarts. */
  predicate Rising(episodes: seq<Episode>) {
    forall i, j :: 0 <= i < j < |episodes| ==> episodes[i].version < episodes[j].version
  }

  predicate Tracked(p: Plant) {
    && p.episodes != [] && p.episodes[|p.episodes| - 1] == p.cell.Now()
    && (p.cell.usesFile ==> p.cell.file == Some(p.cell.version))
  }

  /** A restart keeps the versions rising if and only if it starts above the last version. */
  lemma RestartRisesIff(p: Plant, seed: Option<int>, micros: int)
    requires Tracked(p) && Rising(p.episodes)
    ensures Rising(Rebooted(p, seed, micros).episodes)
            <==> BootVersion(p.cell.usesFile, p.cell.file, seed, micros) > p.cell.version
    ensures p.cell.usesFile && seed.None? ==> Rising(Rebooted(p, seed, micros).episodes)
  {
    var n := |p.episodes|;
    var after := Rebooted(p, seed, micros).episodes;
    assert after[n - 1] == p.cell.Now() && after[n].version == BootVersion(p.cell.usesFile, p.cell.file, seed, micros);
    assert forall i :: 0 <= i < n ==> after[i] == p.episodes[i] && after[i].version <= p.cell.version;
  }

  /** The event does not reuse a version: every restart starts above the last one. */
  predicate Fresh(p: Plant, e: Event) {
    match e
    case Restart(seed, micros) => BootVersion(p.cell.usesFile, p.cell.file, seed, micros) > p.cell.version
    case CrashInWrite(_, seed, micros) => BootVersion(p.cell.usesFile, p.cell.file, seed, micros) > p.cell.version
    case _ => true
  }

  lemma StepRises(p: Plant, e: Event)
    requires Tracked(p) && Rising(p.episodes) && Enabled(p, e) && Fresh(p, e)
    ensures Rising(Next(p, e).episodes)
  {
  }

  // ---------------------------------------------------------------- the replica

  /** The line root of a context is a past episode, or absent. */
  predicate IsReplica(ctx: Tree, episodes: seq<Episode>) {
    LINE in ctx.fields ==> exists i :: 0 <= i < |episodes| && ctx.fields[LINE] == LineValue(episodes[i])
  }

  predicate Replicated(p: Plant) {
    forall v :: 0 <= v < |p.world.hist| ==> IsReplica(p.world.hist[v], p.episodes)
  }

  lemma MergeSameShape(a: Episode, b: Episode)
    ensures Merge(LineValue(a), LineValue(b)) == LineValue(b)
  {
  }

  lemma MoreEpisodes(ctx: Tree, episodes: seq<Episode>, more: seq<Episode>)
    requires IsReplica(ctx, episodes) && episodes <= more
    ensures IsReplica(ctx, more)
  {
  }

  lemma StepReplicated(p: Plant, e: Event)
    requires Tracked(p) && S.Inv(p.world) && Replicated(p) && Enabled(p, e)
    ensures S.Inv(Next(p, e).world) && Replicated(Next(p, e))
  {
    match e
    case Publish(index, kept) =>
      var step := S.Update(LinePatch(p.episodes[index]), kept);
      S.StepKeepsInv(p.world, step);
      assert IsReplica(p.world.hist[p.world.store.version], p.episodes);
      var value := LineValue(p.episodes[index]);
      var m: Tree := Merge(p.world.store.ctx, LinePatch(p.episodes[index]));
      if LINE in p.world.store.ctx.fields {
        var i :| 0 <= i < |p.episodes| && p.world.store.ctx.fields[LINE] == LineValue(p.episodes[i]);
        MergeSameShape(p.episodes[i], p.episodes[index]);
        assert m.fields[LINE] == Merge(LineValue(p.episodes[i]), value);
      }
      assert m.fields[LINE] == value;
    case StoreStep(step) =>
      S.StepKeepsInv(p.world, step);
      assert IsReplica(p.world.hist[p.world.store.version], p.episodes);
    case _ =>
      forall v | 0 <= v < |p.world.hist| ensures IsReplica(p.world.hist[v], Next(p, e).episodes) {
        MoreEpisodes(p.world.hist[v], p.episodes, Next(p, e).episodes);
      }
  }

  // ---------------------------------------------------------------- conditional commands

  /** Every executed command was admissible in its episode. */
  predicate Admissible(c: Command, e: Episode) {
    (c.expected.Some? ==> c.expected.value == e.version) && (c.needsRun ==> e.state == RUN)
  }

  predicate EffectsOk(p: Plant) {
    forall i :: 0 <= i < |p.executed| ==>
      p.executed[i].index < |p.episodes| && Admissible(p.executed[i].command, p.episodes[p.executed[i].index])
  }

  lemma {:induction false} NewEffectsOk(now: Episode, time: real, batch: seq<Command>, index: nat)
    ensures forall e :: e in NewEffects(now, time, batch, index) ==> e.index == index && Admissible(e.command, now)
    decreases |batch|
  {
    if batch != [] {
      NewEffectsOk(now, time, batch[..|batch| - 1], index);
    }
  }

  lemma StepEffectsOk(p: Plant, e: Event)
    requires Tracked(p) && EffectsOk(p) && Enabled(p, e)
    ensures EffectsOk(Next(p, e))
  {
    if e.Tick? {
      NewEffectsOk(p.cell.Now(), e.time, p.cell.pending, |p.episodes| - 1);
      var more := NewEffects(p.cell.Now(), e.time, p.cell.pending, |p.episodes| - 1);
      forall i | 0 <= i < |p.executed + more|
        ensures (p.executed + more)[i].index < |p.episodes|
                && Admissible((p.executed + more)[i].command, p.episodes[(p.executed + more)[i].index])
      {
        if i >= |p.executed| {
          assert (p.executed + more)[i] in more;
        }
      }
    }
  }

  ghost predicate Possible(usesFile: bool, micros: int, events: seq<Event>)
    decreases |events|, 0
  {
    events == [] ||
    (Possible(usesFile, micros, events[..|events| - 1])
     && Reached(usesFile, micros, events[..|events| - 1]).episodes != []
     && Enabled(Reached(usesFile, micros, events[..|events| - 1]), events[|events| - 1]))
  }

  ghost function Reached(usesFile: bool, micros: int, events: seq<Event>): Plant
    requires Possible(usesFile, micros, events)
    decreases |events|, 1
  {
    if events == [] then Installed(usesFile, micros)
    else Next(Reached(usesFile, micros, events[..|events| - 1]), events[|events| - 1])
  }

  /** No restart reused a version. */
  ghost predicate AlwaysFresh(usesFile: bool, micros: int, events: seq<Event>)
    requires Possible(usesFile, micros, events)
    decreases |events|
  {
    events == [] || (AlwaysFresh(usesFile, micros, events[..|events| - 1])
                     && Fresh(Reached(usesFile, micros, events[..|events| - 1]), events[|events| - 1]))
  }

  ghost predicate Inv(p: Plant) { Tracked(p) && S.Inv(p.world) && Replicated(p) && EffectsOk(p) }

  lemma StepKeepsInv(p: Plant, e: Event)
    requires Inv(p) && Enabled(p, e)
    ensures Inv(Next(p, e))
  {
    StepReplicated(p, e);
    StepEffectsOk(p, e);
  }

  lemma {:induction false} ReachedInv(usesFile: bool, micros: int, events: seq<Event>)
    requires Possible(usesFile, micros, events)
    ensures Inv(Reached(usesFile, micros, events))
    ensures AlwaysFresh(usesFile, micros, events) ==> Rising(Reached(usesFile, micros, events).episodes)
    decreases |events|
  {
    if events == [] {
    } else {
      var before, e := events[..|events| - 1], events[|events| - 1];
      ReachedInv(usesFile, micros, before);
      StepKeepsInv(Reached(usesFile, micros, before), e);
      if AlwaysFresh(usesFile, micros, events) {
        StepRises(Reached(usesFile, micros, before), e);
      }
    }
  }

  predicate Seedless(events: seq<Event>) {
    forall i :: 0 <= i < |events| ==>
      (events[i].Restart? ==> events[i].seed.None?) && (events[i].CrashInWrite? ==> events[i].seed.None?)
  }

  lemma {:induction false} FileKeepsFresh(micros: int, events: seq<Event>)
    requires Possible(true, micros, events) && Seedless(events)
    ensures AlwaysFresh(true, micros, events) && Reached(true, micros, events).cell.usesFile
    decreases |events|
  {
    if events != [] {
      var before := events[..|events| - 1];
      assert Seedless(before) by { assert forall i :: 0 <= i < |before| ==> before[i] == events[i]; }
      FileKeepsFresh(micros, before);
      ReachedInv(true, micros, before);
    }
  }

  /** With a state file and no seed, versions strictly increase over every run of changes, crashes and
      restarts: no version is ever paired with two states. */
  lemma VersionsNeverReused(micros: int, events: seq<Event>, i: nat, j: nat)
    requires Possible(true, micros, events) && Seedless(events)
    requires var es := Reached(true, micros, events).episodes;
             i < |es| && j < |es| && es[i].version == es[j].version
    ensures i == j
  {
    FileKeepsFresh(micros, events);
    ReachedInv(true, micros, events);
  }

  /** What the gateway reads as a witness in a context: the replicated version, next to state RUN. */
  predicate WitnessesRun(ctx: Tree, version: int) {
    Look(ctx, [LINE, "state"]) == Some(Str(RUN)) && Look(ctx, [LINE, "version"]) == Some(Int(version))
  }

  /** Version-conditional actuation. Whatever the bridge lost, delayed, repeated or coalesced, a command
      whose witness was read next to RUN in any context XAIR ever held, and which the version check let
      through, was executed in RUN, in the very episode of its witness: nothing changed in between. */
  lemma ConditionalCommandIsSafe(usesFile: bool, micros: int, events: seq<Event>, at: nat, n: nat, version: int)
    requires Possible(usesFile, micros, events) && AlwaysFresh(usesFile, micros, events)
    requires var p := Reached(usesFile, micros, events);
             && at < |p.world.hist| && WitnessesRun(p.world.hist[at], version)
             && n < |p.executed| && p.executed[n].command.expected == Some(version)
    ensures var p := Reached(usesFile, micros, events);
            && p.executed[n].index < |p.episodes|
            && p.episodes[p.executed[n].index] == Episode(RUN, version)
            && forall i :: 0 <= i < |p.episodes| && p.episodes[i].version == version ==> i == p.executed[n].index
  {
    ReachedInv(usesFile, micros, events);
    ExecutedInWitness(Reached(usesFile, micros, events), at, n, version);
  }

  lemma ExecutedInWitness(p: Plant, at: nat, n: nat, version: int)
    requires Replicated(p) && EffectsOk(p) && Rising(p.episodes)
    requires at < |p.world.hist| && WitnessesRun(p.world.hist[at], version)
    requires n < |p.executed| && p.executed[n].command.expected == Some(version)
    ensures p.executed[n].index < |p.episodes| && p.episodes[p.executed[n].index] == Episode(RUN, version)
    ensures forall i :: 0 <= i < |p.episodes| && p.episodes[i].version == version ==> i == p.executed[n].index
  {
    assert exists i :: 0 <= i < |p.episodes| && p.episodes[i] == Episode(RUN, version) by {
      assert [LINE, "state"][1..] == ["state"] && ["state"][1..] == [];
      assert Look(p.world.hist[at], [LINE, "state"]) == Look(p.world.hist[at].fields[LINE], ["state"]);
      assert Look(p.world.hist[at].fields[LINE], ["state"]) == Look(p.world.hist[at].fields[LINE].fields["state"], []);
      assert [LINE, "version"][1..] == ["version"] && ["version"][1..] == [];
      assert Look(p.world.hist[at], [LINE, "version"]) == Look(p.world.hist[at].fields[LINE], ["version"]);
      assert Look(p.world.hist[at].fields[LINE], ["version"]) == Look(p.world.hist[at].fields[LINE].fields["version"], []);
      var i :| 0 <= i < |p.episodes| && p.world.hist[at].fields[LINE] == LineValue(p.episodes[i]);
      assert p.episodes[i] == Episode(RUN, version);
    }
    var i :| 0 <= i < |p.episodes| && p.episodes[i] == Episode(RUN, version);
    assert Admissible(p.executed[n].command, p.episodes[p.executed[n].index]);
  }

  /** Seeds and boot clocks are not negative. */
  predicate NonNegative(e: Event) {
    (e.Restart? || e.CrashInWrite?) ==> (e.seed.Some? ==> e.seed.value >= 0) && e.micros >= 0
  }

  predicate AllNonNegative(p: Plant) {
    && (forall i :: 0 <= i < |p.episodes| ==> p.episodes[i].version >= 0)
    && p.cell.version >= 0 && (p.cell.file.Some? ==> p.cell.file.value >= 0)
  }

  lemma StepNonNegative(p: Plant, e: Event)
    requires Tracked(p) && Enabled(p, e) && AllNonNegative(p) && NonNegative(e)
    ensures AllNonNegative(Next(p, e))
  {
  }

  lemma {:induction false} ReachedNonNegative(usesFile: bool, micros: int, events: seq<Event>)
    requires Possible(usesFile, micros, events) && micros >= 0 && forall e :: e in events ==> NonNegative(e)
    ensures AllNonNegative(Reached(usesFile, micros, events))
    decreases |events|
  {
    if events != [] {
      ReachedNonNegative(usesFile, micros, events[..|events| - 1]);
      ReachedInv(usesFile, micros, events[..|events| - 1]);
      StepNonNegative(Reached(usesFile, micros, events[..|events| - 1]), events[|events| - 1]);
    }
  }

  /** Without a witness the gateway sends -1: in no run whose seeds and clocks are not negative is such a
      command ever executed. */
  lemma NoWitnessIsRefused(usesFile: bool, micros: int, events: seq<Event>, n: nat)
    requires Possible(usesFile, micros, events) && micros >= 0 && forall e :: e in events ==> NonNegative(e)
    requires n < |Reached(usesFile, micros, events).executed|
    ensures Reached(usesFile, micros, events).executed[n].command.expected != Some(-1)
  {
    ReachedInv(usesFile, micros, events);
    ReachedNonNegative(usesFile, micros, events);
    var p := Reached(usesFile, micros, events);
    assert Admissible(p.executed[n].command, p.episodes[p.executed[n].index]);
  }

  // ---------------------------------------------------------------- why versions must not be reused

  /** No version is paired with two states. */
  predicate Functional(episodes: seq<Episode>) {
    forall i, j :: 0 <= i < j < |episodes| && episodes[i].version == episodes[j].version ==> episodes[i].state == episodes[j].state
  }

  /** The controller after the operator wrote some states. */
  function Written(t: Track, values: seq<string>): Track
    decreases |values|
  {
    if values == [] then t else WriteTo(Written(t, values[..|values| - 1]), values[|values| - 1])
  }

  predicate OnTrack(t: Track) { t.episodes != [] && t.episodes[|t.episodes| - 1] == t.cell.Now() }

  lemma WriteOnTrack(t: Track, value: string)
    requires OnTrack(t)
    ensures var u := WriteTo(t, value);
            && OnTrack(u) && t.episodes <= u.episodes
            && (value == t.cell.state ==> u.episodes == t.episodes)
            && (value != t.cell.state ==> u.cell.Now() == Episode(value, t.cell.version + 1) && u.episodes == t.episodes + [u.cell.Now()])
  {
  }

  lemma {:induction false} WritingKeepsRising(t: Track, values: seq<string>)
    requires OnTrack(t) && Rising(t.episodes)
    ensures OnTrack(Written(t, values)) && Rising(Written(t, values).episodes)
    decreases |values|
  {
    if values != [] {
      WritingKeepsRising(t, values[..|values| - 1]);
      WriteOnTrack(Written(t, values[..|values| - 1]), values[|values| - 1]);
    }
  }

  /** Rising but for episode n, which repeats the one before it. */
  predicate RisingBut(episodes: seq<Episode>, n: nat) {
    && 0 < n < |episodes| && episodes[n] == episodes[n - 1]
    && forall i, j :: 0 <= i < j < |episodes| && i != n && j != n ==> episodes[i].version < episodes[j].version
  }

  lemma {:induction false} WritingKeepsRisingBut(t: Track, values: seq<string>, n: nat)
    requires OnTrack(t) && RisingBut(t.episodes, n)
    ensures OnTrack(Written(t, values)) && RisingBut(Written(t, values).episodes, n)
    decreases |values|
  {
    if values != [] {
      WritingKeepsRisingBut(t, values[..|values| - 1], n);
      var es := Written(t, values[..|values| - 1]).episodes;
      assert forall i :: 0 <= i < |es| ==> es[i].version <= es[|es| - 1].version;
      WriteOnTrack(Written(t, values[..|values| - 1]), values[|values| - 1]);
    }
  }

  /** k states, alternately x and y, the last one x. */
  function Alternating(x: string, y: string, k: nat): seq<string>
    decreases k
  {
    if k == 0 then [] else Alternating(y, x, k - 1) + [x]
  }

  /** Writing k alternating states advances the version by k. */
  lemma {:induction false} AlternatingClimbs(t: Track, x: string, y: string, k: nat)
    requires OnTrack(t) && x != y && x != t.cell.state && y != t.cell.state
    ensures var u := Written(t, Alternating(x, y, k));
            && OnTrack(u) && t.episodes <= u.episodes && u.cell.version == t.cell.version + k
            && u.cell.state == (if k == 0 then t.cell.state else x) && (k > 0 ==> |u.episodes| > |t.episodes|)
    decreases k
  {
    if k > 0 {
      AlternatingClimbs(t, y, x, k - 1);
      assert (Alternating(y, x, k - 1) + [x])[..|Alternating(y, x, k - 1)|] == Alternating(y, x, k - 1);
      WriteOnTrack(Written(t, Alternating(y, x, k - 1)), x);
    }
  }

  /** Where a restart leaves the controller. */
  function Restarted(p: Plant, seed: Option<int>, micros: int): Track {
    var q := Rebooted(p, seed, micros);
    Track(q.cell, q.episodes)
  }

  /** A restart below the last version: the operator can bring the controller to that version in another state. */
  lemma ClimbsBack(p: Plant, seed: Option<int>, micros: int) returns (values: seq<string>)
    requires Tracked(p) && BootVersion(p.cell.usesFile, p.cell.file, seed, micros) < p.cell.version
    ensures !Functional(Written(Restarted(p, seed, micros), values).episodes)
  {
    var t := Restarted(p, seed, micros);
    var x, y := OtherStates(p.cell.state);
    var k := p.cell.version - t.cell.version;
    AlternatingClimbs(t, x, y, k);
    values := Alternating(x, y, k);
    assert (Written(t, values).episodes)[|p.episodes| - 1] == p.cell.Now();
  }

  /** Two states different from each other, from a given one and from RUN. */
  lemma OtherStates(state: string) returns (x: string, y: string)
    ensures x != y && x != state && y != state && x != RUN && y != RUN
  {
    x, y := RUN + state + "x", RUN + state + "xx";
    assert |x| == |RUN| + |state| + 1 && |y| == |RUN| + |state| + 2;
  }

  /** What a restart must do, exactly: whatever the operator writes afterwards, no version is paired with two
      states, if and only if the restart begins above the last version, or at it in the same state. */
  lemma RestartPairsIff(p: Plant, seed: Option<int>, micros: int)
    requires Tracked(p) && Rising(p.episodes)
    ensures var b := BootVersion(p.cell.usesFile, p.cell.file, seed, micros);
            (forall values :: Functional(Written(Restarted(p, seed, micros), values).episodes))
            <==> b > p.cell.version || (b == p.cell.version && p.cell.state == RUN)
  {
    var t, n, b := Restarted(p, seed, micros), |p.episodes|, BootVersion(p.cell.usesFile, p.cell.file, seed, micros);
    if b > p.cell.version || (b == p.cell.version && p.cell.state == RUN) {
      forall values ensures Functional(Written(t, values).episodes) {
        var t, n, b := Restarted(p, seed, micros), |p.episodes|, BootVersion(p.cell.usesFile, p.cell.file, seed, micros);
        if b > p.cell.version {
          RestartRisesIff(p, seed, micros);
          WritingKeepsRising(t, values);
        } else {
          assert RisingBut(t.episodes, n);
          WritingKeepsRisingBut(t, values, n);
        }
      }
    } else {
      var values;
      if b < p.cell.version {
        values := ClimbsBack(p, seed, micros);
      } else {
        values := [];
        assert t.episodes[n - 1].version == t.episodes[n].version;
      }
      assert !Functional(Written(t, values).episodes);
    }
  }

  const RESUME := Command("i", Some(7), None, false)

  /** From version 5: paused, resumed at version 7 and replicated; restarted with seed 6, paused at version 7;
      then the command witnessed at version 7 arrives. */
  const SEEDED: seq<Event> := [
    Write("PAUSED"), Write(RUN), Publish(2, {}), Restart(Some(6), 0), Write("PAUSED"), Queue(RESUME), Tick(0.0)]

  lemma GoesOn(usesFile: bool, micros: int, events: seq<Event>, k: nat)
    requires k < |events| && Possible(usesFile, micros, events[..k])
    requires Enabled(Reached(usesFile, micros, events[..k]), events[k])
    ensures Possible(usesFile, micros, events[..k + 1])
    ensures Reached(usesFile, micros, events[..k]).episodes != []
    ensures Reached(usesFile, micros, events[..k + 1]) == Next(Reached(usesFile, micros, events[..k]), events[k])
  {
    assert events[..k + 1][..k] == events[..k] && events[..k + 1][k] == events[k];
    ReachedInv(usesFile, micros, events[..k]);
  }

  lemma SeededStart(usesFile: bool)
    ensures Possible(usesFile, 5, SEEDED[..2])
    ensures var p := Reached(usesFile, 5, SEEDED[..2]);
            && p.episodes == [Episode(RUN, 5), Episode("PAUSED", 6), Episode(RUN, 7)]
            && p.executed == [] && p.cell.Now() == Episode(RUN, 7) && p.cell.usesFile == usesFile && p.world == S.INITIAL
  {
    assert SEEDED[..0] == [];
    GoesOn(usesFile, 5, SEEDED, 0);
    var p := Reached(usesFile, 5, SEEDED[..1]);
    assert p.episodes == [Episode(RUN, 5), Episode("PAUSED", 6)];
    GoesOn(usesFile, 5, SEEDED, 1);
  }

  lemma FirstPublish(e: Episode)
    ensures var w := S.Do(S.INITIAL, S.Update(LinePatch(e), {})); |w.hist| == 2 && w.hist[1] == LinePatch(e)
  {
    assert Merge(EMPTY, LinePatch(e)).fields == LinePatch(e).fields;
  }

  lemma PatchWitnesses(version: int)
    ensures WitnessesRun(LinePatch(Episode(RUN, version)), version)
  {
    var ctx := LinePatch(Episode(RUN, version));
    assert [LINE, "state"][1..] == ["state"] && ["state"][1..] == [];
    assert Look(ctx, [LINE, "state"]) == Look(ctx.fields[LINE], ["state"]);
    assert Look(ctx.fields[LINE], ["state"]) == Look(ctx.fields[LINE].fields["state"], []);
    assert [LINE, "version"][1..] == ["version"] && ["version"][1..] == [];
    assert Look(ctx, [LINE, "version"]) == Look(ctx.fields[LINE], ["version"]);
    assert Look(ctx.fields[LINE], ["version"]) == Look(ctx.fields[LINE].fields["version"], []);
  }

  lemma SeededBoot(usesFile: bool)
    ensures Possible(usesFile, 5, SEEDED[..4])
    ensures var p := Reached(usesFile, 5, SEEDED[..4]);
            && |p.episodes| == 4 && p.executed == [] && p.cell.Now() == Episode(RUN, 6) && p.cell.pending == []
            && |p.world.hist| == 2 && p.world.hist[1] == LinePatch(Episode(RUN, 7))
  {
    SeededStart(usesFile);
    GoesOn(usesFile, 5, SEEDED, 2);
    var p := Reached(usesFile, 5, SEEDED[..3]);
    assert p.executed == [] && p.cell.Now() == Episode(RUN, 7)
           && |p.world.hist| == 2 && p.world.hist[1] == LinePatch(Episode(RUN, 7)) by {
      FirstPublish(Episode(RUN, 7));
    }
    GoesOn(usesFile, 5, SEEDED, 3);
  }

  lemma SeededRestart(usesFile: bool)
    ensures Possible(usesFile, 5, SEEDED[..5])
    ensures var p := Reached(usesFile, 5, SEEDED[..5]);
            && |p.episodes| == 5 && p.episodes[4] == Episode("PAUSED", 7)
            && p.executed == [] && p.cell.Now() == Episode("PAUSED", 7) && p.cell.pending == []
            && |p.world.hist| == 2 && p.world.hist[1] == LinePatch(Episode(RUN, 7))
  {
    SeededBoot(usesFile);
    GoesOn(usesFile, 5, SEEDED, 4);
  }

  /** A scan with only the command in the queue. */
  lemma ResumeExecutes(c: Controller)
    requires c.Now() == Episode("PAUSED", 7) && c.pending == [RESUME]
    ensures NewEffects(c.Now(), 0.0, c.pending, 4) == [Effect(RESUME, 4)]
    ensures Scan(c, 0.0).running && Scan(c, 0.0).state == "PAUSED"
  {
    assert [RESUME][..0] == [];
    assert Judge(c.Now(), 0.0, RESUME) == Executed;
    assert CountExecuted(c.Now(), 0.0, [RESUME]) == 1;
  }

  lemma SeededQueue(usesFile: bool)
    ensures Possible(usesFile, 5, SEEDED[..6])
    ensures var p := Reached(usesFile, 5, SEEDED[..6]);
            && |p.episodes| == 5 && p.episodes[4] == Episode("PAUSED", 7)
            && p.executed == [] && p.cell.Now() == Episode("PAUSED", 7) && p.cell.pending == [RESUME]
            && |p.world.hist| == 2 && p.world.hist[1] == LinePatch(Episode(RUN, 7))
  {
    SeededRestart(usesFile);
    GoesOn(usesFile, 5, SEEDED, 5);
  }

  /** A run in which a command whose witness was read next to RUN in XAIR's context is executed on a paused
      line, and starts the conveyor there: the restart reused a version. */
  lemma SeedBreaksIt(usesFile: bool)
    ensures Possible(usesFile, 5, SEEDED)
    ensures var p := Reached(usesFile, 5, SEEDED);
            && |p.world.hist| == 2 && WitnessesRun(p.world.hist[1], 7)
            && p.executed == [Effect(RESUME, 4)] && |p.episodes| == 5 && p.episodes[4] == Episode("PAUSED", 7)
            && p.cell.running && p.cell.state == "PAUSED"
  {
    SeededQueue(usesFile);
    GoesOn(usesFile, 5, SEEDED, 6);
    assert SEEDED[..7] == SEEDED;
    ResumeExecutes(Reached(usesFile, 5, SEEDED[..6]).cell);
    PatchWitnesses(7);
  }

  // ---------------------------------------------------------------- the conveyor

  /** A command that can only be executed in RUN: it is interlocked, or carries a version of a RUN episode. */
  predicate Guarded(c: Command, episodes: seq<Episode>) {
    c.needsRun || (c.expected.Some? && exists i :: 0 <= i < |episodes| && episodes[i] == Episode(RUN, c.expected.value))
  }

  /** The conveyor runs only on a line in RUN, and every queued command is guarded. */
  predicate NoStaleEffect(p: Plant) {
    && (p.cell.running ==> p.cell.state == RUN)
    && forall i :: 0 <= i < |p.cell.pending| ==> Guarded(p.cell.pending[i], p.episodes)
  }

  lemma GuardedGrows(c: Command, episodes: seq<Episode>, more: seq<Episode>)
    requires Guarded(c, episodes) && episodes <= more
    ensures Guarded(c, more)
  {
  }

  lemma {:induction false} SomeExecuted(now: Episode, time: real, batch: seq<Command>)
    requires CountExecuted(now, time, batch) > 0
    ensures exists i :: 0 <= i < |batch| && Judge(now, time, batch[i]) == Executed
    decreases |batch|
  {
    var last := |batch| - 1;
    if Judge(now, time, batch[last]) != Executed {
      SomeExecuted(now, time, batch[..last]);
      var i :| 0 <= i < last && Judge(now, time, batch[..last][i]) == Executed;
      assert Judge(now, time, batch[i]) == Executed;
    }
  }

  lemma StepHasNoStaleEffect(p: Plant, e: Event)
    requires Tracked(p) && Rising(p.episodes) && NoStaleEffect(p) && Enabled(p, e)
    requires e.Queue? ==> Guarded(e.command, p.episodes)
    ensures NoStaleEffect(Next(p, e))
  {
    var after := Next(p, e);
    forall i | 0 <= i < |after.cell.pending| ensures Guarded(after.cell.pending[i], after.episodes) {
      if i < |p.cell.pending| {
        GuardedGrows(p.cell.pending[i], p.episodes, after.episodes);
      }
    }
    if e.Tick? && CountExecuted(p.cell.Now(), e.time, p.cell.pending) > 0 {
      SomeExecuted(p.cell.Now(), e.time, p.cell.pending);
      var i :| 0 <= i < |p.cell.pending| && Judge(p.cell.Now(), e.time, p.cell.pending[i]) == Executed;
      assert p.cell.state == RUN;
    }
  }

  ghost predicate OnlyGuarded(usesFile: bool, micros: int, events: seq<Event>)
    requires Possible(usesFile, micros, events)
    decreases |events|
  {
    events == [] ||
    (var p := Reached(usesFile, micros, events[..|events| - 1]);
     OnlyGuarded(usesFile, micros, events[..|events| - 1])
     && (events[|events| - 1].Queue? ==> Guarded(events[|events| - 1].command, p.episodes)))
  }

  /** As long as versions are not reused and only guarded commands are queued, the conveyor never runs on
      a line the operator has paused. */
  lemma {:induction false} ConveyorStaysSafe(usesFile: bool, micros: int, events: seq<Event>)
    requires Possible(usesFile, micros, events)
    requires AlwaysFresh(usesFile, micros, events) && OnlyGuarded(usesFile, micros, events)
    ensures NoStaleEffect(Reached(usesFile, micros, events))
    decreases |events|
  {
    if events != [] {
      var before := events[..|events| - 1];
      ConveyorStaysSafe(usesFile, micros, before);
      ReachedInv(usesFile, micros, before);
      StepHasNoStaleEffect(Reached(usesFile, micros, before), events[|events| - 1]);
    }
  }
}
