/** The scan engine as values: what every operation does to the engine's state
    (crates/plc-scan/src/engine.rs). The machine behind a program is abstracted to its
    retain memory and the outcome of an invocation; clock readings, driver results and
    input qualities are parameters. */
module Scan {
  import opened Ir
  import opened Vm
  import opened RetainLayout
  import opened RetainBlit
  import opened Mode

  datatype TaskPlan = TaskPlan(name: Name, period: nat, priority: nat)

  /** Fixed configuration. `order` is the schedule order, highest priority first. */
  datatype Config = Config(
    tasks: seq<TaskPlan>, order: seq<nat>, overrunLimit: nat, stopSafe: bool, faultOnBad: bool,
    outputs: nat, safe: seq<PlcValue>, onBad: BadQualityPolicy, minInstallUs: nat)

  /** Schedule order: by falling priority, then by name. */
  predicate Before(a: TaskPlan, b: TaskPlan)
  {
    a.priority > b.priority || (a.priority == b.priority && NameLe(a.name, b.name))
  }

  /** The order lists every task once, first things first; periods are positive. */
  ghost predicate ConfigOk(c: Config)
  {
    && c.tasks != [] && (forall i :: 0 <= i < |c.tasks| ==> c.tasks[i].period > 0)
    && |c.order| == |c.tasks|
    && (forall k :: 0 <= k < |c.order| ==> c.order[k] < |c.tasks|)
    && (forall j, k :: 0 <= j < k < |c.order| ==> c.order[j] != c.order[k])
    && (forall i :: 0 <= i < |c.tasks| ==> i in c.order)
    && (forall j, k :: 0 <= j < k < |c.order| ==> Before(c.tasks[c.order[j]], c.tasks[c.order[k]]))
  }

  /** A loaded program: an identity for what was loaded, and its retain memory. */
  datatype Program = Program(build: nat, retain: Segment)

  datatype Armed = Armed(program: Program, id: string, hash: string, entries: seq<string>, bumpless: bool, copies: seq<Copy>)

  datatype OutSlot = OutSlot(value: PlcValue, written: bool)

  /** One write to the driver, with the circumstances that matter for safety. */
  datatype DriverWrite = DriverWrite(mode: OperatingMode, everRan: bool, values: seq<PlcValue>, forceSafe: bool)

  /** How an invocation's logic ended, and what it did to retain memory. */
  datatype Logic =
    | LogicOk(outputs: seq<OutSlot>, effect: Segment -> Segment, dirty: bool)
    | LogicFailed(effect: Segment -> Segment)

  /** Everything the outside contributes to one invocation. */
  datatype Tick = Tick(
    pollOk: bool, worst: Quality, logic: Logic, durationUs: nat, perSlot: Option<seq<(Quality, BadQualityPolicy)>>, driverOk: bool)

  /** When each task is due next, its watchdog count, and how often it ran or was skipped. */
  datatype Sched = Sched(due: seq<nat>, consecutive: seq<nat>, overruns: seq<nat>, runs: seq<nat>, skips: seq<nat>, lastRan: Option<nat>)

  /** The program running now and the one waiting. */
  datatype Buffers = Buffers(
    entries: seq<string>, program: Option<Program>, armed: Option<Armed>, id: Option<string>, hash: Option<string>,
    bumplessHold: bool, deferrals: nat, lastDeferred: bool)

  /** Outputs, forces, and everything written to the driver so far. */
  datatype Field = Field(
    outputs: seq<OutSlot>, forces: map<nat, PlcValue>, quality: Quality, everRan: bool, retainSeq: nat, writes: seq<DriverWrite>)

  datatype Engine = Engine(cfg: Config, modes: ModeState, hooks: HookState, sched: Sched, buf: Buffers, io: Field)

  predicate Sizes(c: Config, hooks: HookState, s: Sched, entries: seq<string>, outputs: seq<OutSlot>)
  {
    var n := |c.tasks|;
    && |s.due| == n && |s.consecutive| == n && |s.overruns| == n && |s.runs| == n && |s.skips| == n
    && |entries| == n && |hooks.firstScan| == n && |outputs| == c.outputs
    && (forall k :: 0 <= k < |c.order| ==> c.order[k] < n) && c.order != []
  }

  predicate Shaped(e: Engine) { Sizes(e.cfg, e.hooks, e.sched, e.buf.entries, e.io.outputs) }

  predicate RetainsValid(b: Buffers)
  {
    (b.armed.Some? ==> b.armed.value.program.retain.Valid()) && (b.program.Some? ==> b.program.value.retain.Valid())
  }

  // ----- scheduling -----

  /** First task of the order, from position `k`, that is due. */
  function PickFrom(c: Config, due: seq<nat>, now: nat, k: nat): Option<nat>
    requires k <= |c.order| && forall j :: 0 <= j < |c.order| ==> c.order[j] < |due|
    decreases |c.order| - k
  {
    if k == |c.order| then None
    else if due[c.order[k]] <= now then Some(c.order[k])
    else PickFrom(c, due, now, k + 1)
  }

  function PickDue(e: Engine, now: nat): Option<nat>
    requires Shaped(e)
  {
    PickFrom(e.cfg, e.sched.due, now, 0)
  }

  // ----- modes -----

  function Ask(e: Engine, req: ModeRequest): Engine { e.(modes := e.modes.(pending := Some(req))) }

  function EnterFault(e: Engine): Engine
  {
    e.(modes := e.modes.(mode := Fault), io := e.io.(forces := map[]))
  }

  /** A pending request is dropped while swapping and applied otherwise. */
  function ModeBoundary(e: Engine): Engine
  {
    if e.hooks.phase.Swapping? then
      e.(modes := ModeState(e.modes.mode, None, e.modes.rejected + if e.modes.pending.Some? then 1 else 0))
    else
      var (m, clear) := ApplyPending(e.modes);
      e.(modes := m, io := if clear then e.io.(forces := map[]) else e.io)
  }

  // ----- buffer B -----

  /** Replaces buffer B; refused while swapping and when the program does not fit. */
  function Arm(e: Engine, a: Armed, imageFits: bool): Option<Engine>
  {
    if e.hooks.phase.Swapping? || |a.entries| != |e.cfg.tasks| || !imageFits then None
    else Some(e.(buf := e.buf.(armed := Some(a)), hooks := e.hooks.(phase := Phase.Armed, activate := false)))
  }

  function DropArmed(e: Engine): Engine
  {
    e.(buf := e.buf.(armed := None), hooks := e.hooks.(phase := Idle, activate := false))
  }

  function Disarm(e: Engine): Option<Engine>
  {
    if e.hooks.phase.Swapping? then None else Some(DropArmed(e))
  }

  datatype ActivateRequest = NoOp | Pending

  predicate IsCurrent(b: Buffers, a: Armed) { b.id == Some(a.id) && b.hash == Some(a.hash) }

  /** Requests a swap; the program that already runs is dropped from buffer B instead. */
  function RequestActivate(e: Engine): Option<(Engine, ActivateRequest)>
  {
    if e.hooks.phase.Swapping? || e.buf.armed.None? then None
    else if IsCurrent(e.buf, e.buf.armed.value) then Some((DropArmed(e), NoOp))
    else Some((e.(hooks := e.hooks.(activate := true)), Pending))
  }

  // ----- the epoch install -----

  datatype InstallOutcome = NotNow | Installed | Deferred | Faulted

  function MinPeriod(tasks: seq<TaskPlan>): nat
  {
    if tasks == [] then 1
    else if |tasks| == 1 then tasks[0].period
    else var m := MinPeriod(tasks[..|tasks| - 1]); var p := tasks[|tasks| - 1].period; if p < m then p else m
  }

  /** Buffer B with the live retain bytes copied in, and whether every copy fitted. */
  function Blitted(a: Armed, current: Option<Program>): (r: (Armed, bool))
    requires a.program.retain.Valid() && (current.Some? ==> current.value.retain.Valid())
    ensures r.0.program.retain.Valid() && r.0.entries == a.entries
  {
    if current.None? then (a, true)
    else
      var (seg, ok) := CopyUntil(a.program.retain, current.value.retain, a.copies);
      (a.(program := a.program.(retain := seg)), ok)
  }

  predicate Skipped(c: Config, due: seq<nat>, now: nat, i: nat)
    requires i < |due| && c.order != []
  {
    i != c.order[0] && due[i] <= now
  }

  /** One run is skipped for every other due task. */
  function SkipDue(c: Config, s: Sched, now: nat): (r: Sched)
    requires |s.due| == |c.tasks| == |s.skips| && c.order != []
    ensures |r.due| == |s.due| && |r.skips| == |s.skips|
  {
    s.(due := seq(|s.due|, i requires 0 <= i < |s.due| =>
                if Skipped(c, s.due, now, i) then s.due[i] + c.tasks[i].period else s.due[i]),
       skips := seq(|s.due|, i requires 0 <= i < |s.due| => s.skips[i] + if Skipped(c, s.due, now, i) then 1 else 0))
  }

  function SafeValue(c: Config, i: nat): PlcValue { if i < |c.safe| then c.safe[i] else PBool(false) }

  function SafeVector(c: Config): (s: seq<PlcValue>)
    ensures |s| == c.outputs
  {
    seq(c.outputs, i requires i >= 0 => SafeValue(c, i))
  }

  function SafeOutputs(c: Config): (s: seq<OutSlot>)
    ensures |s| == c.outputs
  {
    seq(c.outputs, i requires i >= 0 => OutSlot(SafeValue(c, i), true))
  }

  /** Buffer B becomes current. Its `now` is read after the timed part. */
  function CommitInstall(e: Engine, a: Armed, now: nat): (r: Engine)
    requires Shaped(e) && |a.entries| == |e.cfg.tasks|
    ensures Shaped(r) && r.cfg == e.cfg
  {
    Engine(e.cfg, e.modes, HookState(Idle, false, seq(|e.hooks.firstScan|, i => true), e.hooks.inInvocation),
           SkipDue(e.cfg, e.sched, now),
           Buffers(a.entries, Some(a.program), None, Some(a.id), Some(a.hash), a.bumpless, e.buf.deferrals, false),
           if a.bumpless then e.io else e.io.(outputs := SafeOutputs(e.cfg)))
  }

  /** The install is attempted at a quiet boundary when the top-priority task is due. */
  predicate InstallReady(e: Engine, now: nat)
    requires Shaped(e)
  {
    e.hooks.activate && e.buf.armed.Some? && !e.hooks.inInvocation && PickDue(e, now) == Some(e.cfg.order[0])
  }

  function InstallUs(c: Config, measuredUs: nat): nat
  {
    if c.minInstallUs > measuredUs then c.minInstallUs else measuredUs
  }

  predicate BuffersFit(e: Engine)
  {
    RetainsValid(e.buf) && (e.buf.armed.Some? ==> |e.buf.armed.value.entries| == |e.cfg.tasks|)
  }

  /** The clock as one scheduling round reads it: when an install is considered, how long
      preparing it took, when it commits, and when the next task is picked. */
  datatype Readings = Readings(ready: nat, elapsedUs: nat, commit: nat, pick: nat)

  function TryInstall(e: Engine, c: Readings): (r: (Engine, InstallOutcome))
    requires Shaped(e) && BuffersFit(e)
    ensures Shaped(r.0) && r.0.cfg == e.cfg
  {
    if !InstallReady(e, c.ready) then (e, NotNow)
    else
      var (b, ok) := Blitted(e.buf.armed.value, e.buf.program);
      if !ok then
        var f := EnterFault(e);
        (f.(buf := e.buf.(armed := Some(b)), hooks := e.hooks.(activate := false, phase := Idle)), Faulted)
      else if InstallUs(e.cfg, c.elapsedUs) >= MinPeriod(e.cfg.tasks) * 1000 then
        (e.(buf := e.buf.(armed := Some(b), lastDeferred := true, deferrals := e.buf.deferrals + 1),
            hooks := e.hooks.(phase := Phase.Armed, activate := false)), Deferred)
      else (CommitInstall(e, b, c.commit), Installed)
  }

  // ----- one invocation -----

  function SampleInputs(e: Engine, t: Tick): Engine
  {
    var e1 := if !t.pollOk && e.cfg.faultOnBad then EnterFault(e) else e;
    var e2 := e1.(io := e1.io.(quality := t.worst));
    if t.worst.Bad? && e.cfg.faultOnBad then EnterFault(e2) else e2
  }

  /** Outputs after a successful run: while holding, only slots the run wrote. */
  function TakeOutputs(hold: bool, was: seq<OutSlot>, outs: seq<OutSlot>): (s: seq<OutSlot>)
    ensures |s| == |was|
  {
    seq(|was|, i requires 0 <= i < |was| =>
      if i < |outs| && (!hold || outs[i].written) then OutSlot(outs[i].value, true) else was[i])
  }

  function RunLogic(e: Engine, t: Tick): (r: (Engine, bool))
  {
    if e.buf.program.None? then (e, false)
    else
      var b := e.buf.(program := Some(e.buf.program.value.(retain := t.logic.effect(e.buf.program.value.retain))));
      match t.logic
      case LogicFailed(_) => (e.(buf := b), false)
      case LogicOk(outs, _, dirty) =>
        (e.(buf := b, io := e.io.(outputs := TakeOutputs(e.buf.bumplessHold, e.io.outputs, outs),
                                  retainSeq := e.io.retainSeq + if dirty then 1 else 0)), true)
  }

  /** The watchdog: consecutive overruns of one task trip FAULT. */
  function NoteDuration(c: Config, s: Sched, task: nat, durationUs: nat): (r: (Sched, bool))
    requires task < |c.tasks| == |s.consecutive| == |s.overruns|
  {
    var limit := if c.overrunLimit < 1 then 1 else c.overrunLimit;
    if durationUs >= c.tasks[task].period * 1000 then
      var n := s.consecutive[task] + 1;
      (s.(consecutive := s.consecutive[task := n], overruns := s.overruns[task := s.overruns[task] + 1]), n >= limit)
    else (s.(consecutive := s.consecutive[task := 0]), false)
  }

  predicate GlobalForceSafe(e: Engine, ranOk: bool)
  {
    e.modes.mode.Fault? || (e.modes.mode.Stop? && e.cfg.stopSafe) || (!e.io.everRan && !ranOk)
  }

  function OutputOf(e: Engine, ranOk: bool, t: Tick, i: nat): PlcValue
    requires i < |e.io.outputs|
  {
    var (q, p) := if t.perSlot.Some? && i < |t.perSlot.value| then t.perSlot.value[i] else (e.io.quality, e.cfg.onBad);
    ResolveOutput(OutputInput(e.modes.mode, GlobalForceSafe(e, ranOk), q, p,
                              if i in e.io.forces then Some(e.io.forces[i]) else None,
                              e.io.outputs[i].value, e.io.outputs[i].written, SafeValue(e.cfg, i))).0
  }

  function WriteOf(e: Engine, ranOk: bool, t: Tick): DriverWrite
  {
    DriverWrite(e.modes.mode, e.io.everRan || ranOk,
                seq(|e.io.outputs|, i requires 0 <= i < |e.io.outputs| => OutputOf(e, ranOk, t, i)), GlobalForceSafe(e, ranOk))
  }

  function ApplyOutputs(e: Engine, ranOk: bool, t: Tick): Engine
  {
    var e1 := e.(io := e.io.(writes := e.io.writes + [WriteOf(e, ranOk, t)]));
    if t.driverOk then e1
    else
      var e2 := e1.(io := e1.io.(quality := Bad));
      if e.cfg.faultOnBad then EnterFault(e2) else e2
  }

  /** Logic, its failure, and the watchdog. */
  function Execute(e: Engine, task: nat, t: Tick): (r: (Engine, bool))
    requires Shaped(e) && task < |e.cfg.tasks|
  {
    if !ExecutesLogic(e.modes.mode) then (e, false)
    else
      var (e1, ok) := RunLogic(e, t);
      var e2 := if ok then e1 else EnterFault(e1);
      var (s, trip) := NoteDuration(e.cfg, e.sched, task, t.durationUs);
      var e3 := e2.(sched := s);
      (if trip then EnterFault(e3) else e3, ok)
  }

  function Finish(e: Engine, task: nat, ok: bool): Engine
    requires Shaped(e) && task < |e.cfg.tasks|
  {
    e.(io := e.io.(everRan := e.io.everRan || ok),
       hooks := e.hooks.(firstScan := if ok && e.hooks.firstScan[task] then e.hooks.firstScan[task := false] else e.hooks.firstScan,
                         inInvocation := false),
       sched := e.sched.(due := e.sched.due[task := e.sched.due[task] + e.cfg.tasks[task].period],
                         runs := e.sched.runs[task := e.sched.runs[task] + 1], lastRan := Some(task)))
  }

  function Enter(e: Engine, t: Tick): Engine
  {
    SampleInputs(e.(hooks := e.hooks.(inInvocation := true)), t)
  }

  // What the steps of an invocation leave alone.

  lemma EnterShaped(e: Engine, t: Tick)
    requires Shaped(e)
    ensures Shaped(Enter(e, t)) && Enter(e, t).cfg == e.cfg
  {
    hide TakeOutputs;
  }

  lemma RunShaped(e: Engine, t: Tick)
    requires Shaped(e)
    ensures var r := RunLogic(e, t).0;
            Shaped(r) && r.cfg == e.cfg && r.sched == e.sched && r.modes == e.modes && r.hooks == e.hooks && r.buf.armed == e.buf.armed
            && (r.buf.program.Some? <==> e.buf.program.Some?)
  {
    hide TakeOutputs;
  }

  lemma NoteShaped(c: Config, s: Sched, task: nat, us: nat)
    requires task < |c.tasks| == |s.consecutive| == |s.overruns|
    ensures var r := NoteDuration(c, s, task, us).0;
            r.due == s.due && r.runs == s.runs && r.skips == s.skips && |r.consecutive| == |r.overruns| == |c.tasks|
  {}

  lemma ExecuteShaped(e: Engine, task: nat, t: Tick)
    requires Shaped(e) && task < |e.cfg.tasks|
    ensures Shaped(Execute(e, task, t).0) && Execute(e, task, t).0.cfg == e.cfg
  {
    hide RunLogic, NoteDuration;
    RunShaped(e, t);
    NoteShaped(e.cfg, e.sched, task, t.durationUs);
  }

  lemma OutputsShaped(e: Engine, ok: bool, t: Tick)
    requires Shaped(e)
    ensures Shaped(ApplyOutputs(e, ok, t)) && ApplyOutputs(e, ok, t).cfg == e.cfg
  {
    hide WriteOf;
  }

  lemma FinishShaped(e: Engine, task: nat, ok: bool)
    requires Shaped(e) && task < |e.cfg.tasks|
    ensures Shaped(Finish(e, task, ok)) && Finish(e, task, ok).cfg == e.cfg
  {}

  function Invoke(e: Engine, task: nat, t: Tick): (r: Engine)
    requires Shaped(e) && task < |e.cfg.tasks|
  {
    EnterShaped(e, t);
    var e1 := Enter(e, t);
    ExecuteShaped(e1, task, t);
    var (e2, ok) := Execute(e1, task, t);
    OutputsShaped(e2, ok, t);
    Finish(ApplyOutputs(e2, ok, t), task, ok)
  }
}
