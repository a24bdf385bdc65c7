/** The scan engine as it works: an object whose methods move its fields step by step,
    each proved against the value-level operation of the same name
    (crates/plc-scan/src/engine.rs). */
module ScanEngine {
  import opened Ir
  import opened Vm
  import opened Sorting
  import opened RetainLayout
  import opened RetainBlit
  import opened Mode
  import opened Scan
  import opened Schedule
  import opened History

  // ----- construction of the schedule order -----

  datatype Slot = Slot(index: nat, task: TaskPlan)

  predicate SlotLe(a: Slot, b: Slot) { Before(a.task, b.task) }

  lemma SlotLeTotal()
    ensures Total(SlotLe)
  {
    forall a, b ensures SlotLe(a, b) || SlotLe(b, a) { NameLeTotal(a.task.name, b.task.name); }
    forall a, b, c | SlotLe(a, b) && SlotLe(b, c) ensures SlotLe(a, c) { SlotLeTrans(a, b, c); }
  }

  lemma SlotLeTrans(a: Slot, b: Slot, c: Slot)
    requires SlotLe(a, b) && SlotLe(b, c)
    ensures SlotLe(a, c)
  {
    if a.task.priority == c.task.priority { NameLeTrans(a.task.name, b.task.name, c.task.name); }
  }

  function Slots(tasks: seq<TaskPlan>): (s: seq<Slot>)
    ensures |s| == |tasks| && forall i :: 0 <= i < |s| ==> s[i] == Slot(i, tasks[i])
  {
    seq(|tasks|, i requires 0 <= i < |tasks| => Slot(i, tasks[i]))
  }

  /** Task indices in schedule order: each once, sorted. */
  method ScheduleOrder(tasks: seq<TaskPlan>) returns (order: seq<nat>)
    ensures |order| == |tasks|
    ensures forall k :: 0 <= k < |order| ==> order[k] < |tasks|
    ensures forall j, k :: 0 <= j < k < |order| ==> order[j] != order[k] && Before(tasks[order[j]], tasks[order[k]])
    ensures forall i :: 0 <= i < |tasks| ==> i in order
  {
    var slots := Slots(tasks);
    var sorted := Sort(SlotLe, slots);
    SlotLeTotal();
    SortOrdered(SlotLe, slots);
    order := seq(|sorted|, k requires 0 <= k < |sorted| => sorted[k].index);
    forall k | 0 <= k < |sorted| ensures sorted[k].index < |tasks| && tasks[sorted[k].index] == sorted[k].task {
      assert sorted[k] in multiset(sorted);
      assert sorted[k] in slots;
    }
    forall j, k | 0 <= j < k < |order| ensures order[j] != order[k] && Before(tasks[order[j]], tasks[order[k]]) {
      Once(slots, sorted, j, k);
      assert SlotLe(sorted[j], sorted[k]);
    }
    forall i | 0 <= i < |tasks| ensures i in order {
      assert slots[i] in multiset(slots);
      assert slots[i] in sorted;
      var k: nat :| k < |sorted| && sorted[k] == slots[i];
      assert order[k] == i;
    }
  }

  // ----- the engine -----

  class ScanEngine {
    const cfg: Config
    const modes: ModeCell
    const hooks: EpochHooks
    var due: seq<nat>
    var consecutive: seq<nat>
    var overruns: seq<nat>
    ghost var runs: seq<nat>
    ghost var skips: seq<nat>
    var lastRan: Option<nat>
    var entries: seq<string>
    var program: Option<Program>
    var armed: Option<Armed>
    var id: Option<string>
    var hash: Option<string>
    var bumplessHold: bool
    var deferrals: nat
    var lastDeferred: bool
    var outputs: seq<OutSlot>
    var forces: map<nat, PlcValue>
    var quality: Quality
    var everRan: bool
    var retainSeq: nat
    ghost var writes: seq<DriverWrite>

    ghost function SchedNow(): Sched
      reads this
    {
      Sched(due, consecutive, overruns, runs, skips, lastRan)
    }

    ghost function BuffersNow(): Buffers
      reads this
    {
      Buffers(entries, program, armed, id, hash, bumplessHold, deferrals, lastDeferred)
    }

    ghost function FieldNow(): Field
      reads this
    {
      Field(outputs, forces, quality, everRan, retainSeq, writes)
    }

    ghost function Snap(): Engine
      reads this, modes, hooks
    {
      Engine(cfg, modes.Snap(), hooks.Snap(), SchedNow(), BuffersNow(), FieldNow())
    }

    constructor (tasks: seq<TaskPlan>, entries: seq<string>, program: Option<Program>, outputs: seq<OutSlot>,
                 overrunLimit: nat, stopSafe: bool, faultOnBad: bool, safe: seq<PlcValue>, onBad: BadQualityPolicy, minInstallUs: nat)
      requires tasks != [] && |entries| == |tasks| && forall i :: 0 <= i < |tasks| ==> tasks[i].period > 0
      requires program.Some? ==> program.value.retain.Valid()
      ensures ConfigOk(cfg) && cfg.tasks == tasks && fresh(modes) && fresh(hooks)
      ensures cfg.stopSafe == stopSafe && cfg.faultOnBad == faultOnBad && cfg.safe == safe && cfg.outputs == |outputs|
      ensures Snap() == Fresh(cfg, entries, program, outputs) && Steady(Snap())
    {
      var order := ScheduleOrder(tasks);
      cfg := Config(tasks, order, overrunLimit, stopSafe, faultOnBad, |outputs|, safe, onBad, minInstallUs);
      modes := new ModeCell();
      hooks := new EpochHooks(|tasks|);
      due, consecutive, overruns := seq(|tasks|, i => 0), seq(|tasks|, i => 0), seq(|tasks|, i => 0);
      runs, skips, lastRan := seq(|tasks|, i => 0), seq(|tasks|, i => 0), None;
      this.entries, this.program, armed, id, hash := entries, program, None, None, None;
      bumplessHold, deferrals, lastDeferred := false, 0, false;
      this.outputs, forces, quality, everRan, retainSeq, writes := outputs, map[], Good, false, 0, [];
      new;
      FreshSteady(cfg, entries, program, outputs);
    }

    // ----- modes -----

    method RequestMode(req: ModeRequest)
      modifies modes
      ensures Snap() == Ask(old(Snap()), req)
    {
      modes.Request(req);
    }

    method EnterFault()
      modifies this, modes
      ensures Snap() == Scan.EnterFault(old(Snap()))
    {
      modes.SetMode(Fault);
      forces := map[];
    }

    method ApplyModeBoundary()
      modifies this, modes
      ensures Snap() == ModeBoundary(old(Snap()))
    {
      if hooks.phase.Swapping? {
        modes.RejectPending();
        return;
      }
      var clear := modes.TakePending();
      if clear { forces := map[]; }
    }

    // ----- buffer B -----

    method ArmProgram(a: Armed, fits: bool) returns (ok: bool)
      requires Shaped(Snap())
      modifies this, hooks
      ensures ok <==> Arm(old(Snap()), a, fits).Some?
      ensures Snap() == if ok then Arm(old(Snap()), a, fits).value else old(Snap())
    {
      if hooks.phase.Swapping? || |a.entries| != |cfg.tasks| || !fits { return false; }
      armed := Some(a);
      hooks.SetPhase(Phase.Armed);
      hooks.SetActivate(false);
      ok := true;
    }

    method DisarmProgram() returns (ok: bool)
      modifies this, hooks
      ensures ok <==> Disarm(old(Snap())).Some?
      ensures Snap() == if ok then Disarm(old(Snap())).value else old(Snap())
    {
      if hooks.phase.Swapping? { return false; }
      armed := None;
      hooks.SetActivate(false);
      hooks.SetPhase(Idle);
      ok := true;
    }

    method Activate() returns (r: Option<ActivateRequest>)
      modifies this, hooks
      ensures RequestActivate(old(Snap())) == if r.Some? then Some((Snap(), r.value)) else None
      ensures r.None? ==> Snap() == old(Snap())
    {
      if hooks.phase.Swapping? || armed.None? { return None; }
      if id == Some(armed.value.id) && hash == Some(armed.value.hash) {
        armed := None;
        hooks.SetActivate(false);
        hooks.SetPhase(Idle);
        return Some(NoOp);
      }
      hooks.SetActivate(true);
      r := Some(Pending);
    }

    // ----- scheduling -----

    method Pick(now: nat) returns (r: Option<nat>)
      requires Shaped(Snap())
      ensures r == PickDue(Snap(), now)
    {
      for k := 0 to |cfg.order|
        invariant PickDue(Snap(), now) == PickFrom(cfg, due, now, k)
      {
        if due[cfg.order[k]] <= now { return Some(cfg.order[k]); }
      }
      r := None;
    }

    // ----- the epoch install -----

    /** One run is skipped for every other due task. */
    method SkipOthers(now: nat)
      requires Shaped(Snap())
      modifies this
      ensures Snap() == old(Snap()).(sched := SkipDue(cfg, old(SchedNow()), now))
    {
      var highest := cfg.order[0];
      for i := 0 to |due|
        modifies this`due, this`skips
        invariant |due| == |skips| == |old(due)|
        invariant forall k :: 0 <= k < |due| ==>
          due[k] == if k < i && Skipped(cfg, old(due), now, k) then old(due)[k] + cfg.tasks[k].period else old(due)[k]
        invariant forall k :: 0 <= k < |skips| ==> skips[k] == old(skips)[k] + if k < i && Skipped(cfg, old(due), now, k) then 1 else 0
      {
        if i != highest && due[i] <= now {
          due := due[i := due[i] + cfg.tasks[i].period];
          skips := skips[i := skips[i] + 1];
        }
      }
      assert due == SkipDue(cfg, old(SchedNow()), now).due;
      assert skips == SkipDue(cfg, old(SchedNow()), now).skips;
    }

    method SafeResetOutputs()
      requires Shaped(Snap())
      modifies this
      ensures Snap() == old(Snap()).(io := old(FieldNow()).(outputs := SafeOutputs(cfg)))
    {
      for i := 0 to |outputs|
        modifies this`outputs
        invariant |outputs| == cfg.outputs
        invariant forall k :: 0 <= k < i ==> outputs[k] == OutSlot(SafeValue(cfg, k), true)
      {
        outputs := outputs[i := OutSlot(SafeValue(cfg, i), true)];
      }
      assert outputs == SafeOutputs(cfg);
    }

    method Commit(a: Armed, now: nat)
      requires Shaped(Snap()) && |a.entries| == |cfg.tasks|
      modifies this, hooks
      ensures Snap() == CommitInstall(old(Snap()), a, now)
    {
      hide SkipDue, Shaped, SafeOutputs;
      SkipOthers(now);
      SwingBuffers(a);
      hooks.Installed();
      ShapedAfter(old(Snap()), a, now);
      assert Snap() == Swung(old(Snap()), a, now);
      if !a.bumpless { SafeResetOutputs(); }
    }

    method SwingBuffers(a: Armed)
      modifies `entries, `id, `hash, `bumplessHold, `program, `armed, `lastDeferred
      ensures BuffersNow() == Buffers(a.entries, Some(a.program), None, Some(a.id), Some(a.hash), a.bumpless, old(deferrals), false)
    {
      entries := a.entries;
      id, hash := Some(a.id), Some(a.hash);
      bumplessHold := a.bumpless;
      program, armed := Some(a.program), None;
      lastDeferred := false;
    }

    /** Retain bytes of the running program copied into the waiting one. */
    method BlitInto(a: Armed) returns (b: Armed, ok: bool)
      requires a.program.retain.Valid() && (program.Some? ==> program.value.retain.Valid())
      ensures (b, ok) == Blitted(a, program)
    {
      if program.None? { return a, true; }
      var seg;
      seg, ok := BlitRetain(a.program.retain, program.value.retain, a.copies);
      b := a.(program := a.program.(retain := seg));
    }

    method TryEpochInstall(c: Readings) returns (outcome: InstallOutcome)
      requires Shaped(Snap()) && BuffersFit(Snap())
      modifies this, modes, hooks
      ensures (Snap(), outcome) == TryInstall(old(Snap()), c)
    {
      hide Blitted, SkipDue, PickDue, BuffersFit, MinPeriod, CopyUntil, CommitInstall, Shaped, InstallUs, SafeOutputs;
      NotEmpty(Snap());
      FitsFacts(Snap());
      if !hooks.activate || armed.None? { return NotNow; }
      if hooks.inInvocation { return NotNow; }
      var task := Pick(c.ready);
      if task != Some(cfg.order[0]) { return NotNow; }
      hooks.SetPhase(Swapping);
      var b, ok := BlitInto(armed.value);
      if !ok {
        GiveBack(b, Idle);
        EnterFault();
        return Faulted;
      }
      if InstallUs(cfg, c.elapsedUs) >= MinPeriod(cfg.tasks) * 1000 {
        GiveBack(b, Phase.Armed);
        lastDeferred := true;
        deferrals := deferrals + 1;
        return Deferred;
      }
      CommitPhase(old(Snap()), Swapping, b, c.commit);
      Commit(b, c.commit);
      outcome := Installed;
    }

    /** The waiting program goes back to buffer B and the request is dropped. */
    method GiveBack(b: Armed, phase: Phase)
      modifies `armed, hooks
      ensures armed == Some(b) && hooks.Snap() == old(hooks.Snap()).(activate := false, phase := phase)
    {
      armed := Some(b);
      hooks.SetActivate(false);
      hooks.SetPhase(phase);
    }

    // ----- one invocation -----

    method Sample(t: Tick)
      modifies this, modes
      ensures Snap() == SampleInputs(old(Snap()), t)
    {
      if !t.pollOk {
        quality := Bad;
        if cfg.faultOnBad { EnterFault(); }
      }
      quality := t.worst;
      if t.worst.Bad? && cfg.faultOnBad { EnterFault(); }
    }

    /** Copies a run's outputs into the image. */
    method CopyOutputs(outs: seq<OutSlot>)
      modifies this
      ensures Snap() == old(Snap()).(io := old(FieldNow()).(outputs := TakeOutputs(bumplessHold, old(outputs), outs)))
    {
      for i := 0 to |outs|
        modifies this`outputs
        invariant |outputs| == |old(outputs)|
        invariant forall k :: 0 <= k < |outputs| ==>
          outputs[k] == if k < i && (!bumplessHold || outs[k].written) then OutSlot(outs[k].value, true) else old(outputs)[k]
      {
        if bumplessHold && !outs[i].written { continue; }
        if i < |outputs| { outputs := outputs[i := OutSlot(outs[i].value, true)]; }
      }
      assert outputs == TakeOutputs(bumplessHold, old(outputs), outs);
    }

    method Run(t: Tick) returns (ok: bool)
      modifies this
      ensures (Snap(), ok) == RunLogic(old(Snap()), t)
    {
      hide TakeOutputs;
      if program.None? { return false; }
      program := Some(program.value.(retain := t.logic.effect(program.value.retain)));
      if t.logic.LogicFailed? { return false; }
      if t.logic.dirty { retainSeq := retainSeq + 1; }
      CopyOutputs(t.logic.outputs);
      ok := true;
    }

    method Note(task: nat, durationUs: nat) returns (trip: bool)
      requires task < |cfg.tasks| == |consecutive| == |overruns|
      modifies `consecutive, `overruns
      ensures (SchedNow(), trip) == NoteDuration(cfg, old(SchedNow()), task, durationUs)
    {
      var limit := if cfg.overrunLimit < 1 then 1 else cfg.overrunLimit;
      if durationUs >= cfg.tasks[task].period * 1000 {
        consecutive := consecutive[task := consecutive[task] + 1];
        overruns := overruns[task := overruns[task] + 1];
        trip := consecutive[task] >= limit;
      } else {
        consecutive := consecutive[task := 0];
        trip := false;
      }
    }

    method Logic(task: nat, t: Tick) returns (ok: bool)
      requires Shaped(Snap()) && task < |cfg.tasks|
      modifies this, modes
      ensures (Snap(), ok) == Execute(old(Snap()), task, t)
    {
      hide RunLogic, NoteDuration, Shaped;
      RunFacts(Snap(), t);
      ShapedSched(Snap());
      if !ExecutesLogic(modes.mode) { return false; }
      ok := Run(t);
      if !ok { EnterFault(); }
      var trip := Note(task, t.durationUs);
      if trip { EnterFault(); }
    }

    /** The values for the driver, slot by slot. */
    method Drive(ranOk: bool, t: Tick)
      modifies this, modes
      ensures Snap() == ApplyOutputs(old(Snap()), ranOk, t)
    {
      hide ResolveOutput;
      var startupHold := !everRan && !ranOk;
      var stopSafe := modes.mode.Stop? && cfg.stopSafe;
      var forceSafe := modes.mode.Fault? || stopSafe || startupHold;
      var values: seq<PlcValue> := [];
      for i := 0 to |outputs|
        invariant |values| == i && forall k :: 0 <= k < i ==> values[k] == OutputOf(Snap(), ranOk, t, k)
        invariant Snap() == old(Snap())
      {
        var (q, p) := if t.perSlot.Some? && i < |t.perSlot.value| then t.perSlot.value[i] else (quality, cfg.onBad);
        var (v, _) := ResolveOutput(OutputInput(modes.mode, forceSafe, q, p, if i in forces then Some(forces[i]) else None,
                                                outputs[i].value, outputs[i].written, SafeValue(cfg, i)));
        values := values + [v];
      }
      assert values == WriteOf(Snap(), ranOk, t).values;
      writes := writes + [DriverWrite(modes.mode, everRan || ranOk, values, forceSafe)];
      if !t.driverOk {
        quality := Bad;
        if cfg.faultOnBad { EnterFault(); }
      }
    }

    method Complete(task: nat, ok: bool)
      requires Shaped(Snap()) && task < |cfg.tasks|
      modifies this, hooks
      ensures Snap() == Finish(old(Snap()), task, ok)
    {
      ShapedSched(Snap());
      hide Shaped;
      if ok { everRan := true; }
      hooks.Completed(task, ok);
      Advance(task);
    }

    method Advance(task: nat)
      requires task < |due| == |runs| == |cfg.tasks|
      modifies `due, `runs, `lastRan
      ensures SchedNow() == old(SchedNow()).(due := old(due)[task := old(due)[task] + cfg.tasks[task].period],
                                             runs := old(runs)[task := old(runs)[task] + 1], lastRan := Some(task))
    {
      due := due[task := due[task] + cfg.tasks[task].period];
      runs := runs[task := runs[task] + 1];
      lastRan := Some(task);
    }

    method InvokeTask(task: nat, t: Tick)
      requires Shaped(Snap()) && task < |cfg.tasks|
      modifies this, modes, hooks
      ensures Snap() == Invoke(old(Snap()), task, t)
    {
      hide Shaped, SampleInputs, Execute, ApplyOutputs, Finish;
      EnterShaped(Snap(), t);
      hooks.SetInInvocation(true);
      Sample(t);
      ghost var e1 := Snap();
      assert e1 == Enter(old(Snap()), t);
      ExecuteShaped(e1, task, t);
      var ok := Logic(task, t);
      OutputsShaped(Snap(), ok, t);
      Drive(ok, t);
      Complete(task, ok);
    }

    // ----- rounds -----

    /** One task at most: the highest due one. */
    method Step(c: Readings, t: Tick) returns (task: Option<nat>)
      requires Steady(Snap()) && TickOk(t)
      modifies this, modes, hooks
      ensures var e1 := TryInstall(ModeBoundary(old(Snap())), c).0;
              && task == PickDue(e1, c.pick) && Steady(Snap())
              && (task.Some? ==> task.value < |cfg.tasks|)
              && Snap() == if task.Some? then Invoke(e1, task.value, t) else e1
    {
      hide TryInstall, Invoke, PickDue, ModeBoundary, Shaped, ConfigOk, BuffersFit, TickOk;
      BoundarySteady(Snap());
      ApplyModeBoundary();
      RoundFacts(Snap(), c, t, if c.commit > c.pick then c.commit else c.pick);
      var _ := TryEpochInstall(c);
      task := Pick(c.pick);
      if task.Some? { InvokeTask(task.value, t); }
    }

    /** Every due task, highest first, with an install attempted before each; the clock is
        read anew each time. */
    method RunDue(clock: nat -> Readings, ticks: nat -> Tick, ghost limit: nat) returns (n: nat)
      requires Steady(Snap()) && ClockOk(clock, limit) && TicksOk(ticks)
      modifies this, modes, hooks
      ensures Steady(ModeBoundary(old(Snap()))) && Steady(Snap())
      ensures (Snap(), n) == RunLoop(ModeBoundary(old(Snap())), clock, ticks, 0, limit)
    {
      hide TryInstall, Invoke, PickDue, ModeBoundary, Shaped, BuffersFit, TickOk, Backlog;
      BoundarySteady(Snap());
      ApplyModeBoundary();
      ghost var start := Snap();
      n := 0;
      while true
        invariant Steady(Snap())
        invariant RunLoop(Snap(), clock, ticks, n, limit) == RunLoop(start, clock, ticks, 0, limit)
        decreases Outstanding(Snap(), limit)
      {
        RoundFacts(Snap(), clock(n), ticks(n), limit);
        var _ := TryEpochInstall(clock(n));
        var task := Pick(clock(n).pick);
        if task.None? { return; }
        InvokeTask(task.value, ticks(n));
        n := n + 1;
      }
    }
  }

  /** A commit before the outputs are reset. */
  function Swung(e: Engine, a: Armed, now: nat): Engine
    requires Shaped(e) && |a.entries| == |e.cfg.tasks|
  {
    CommitInstall(e, a, now).(io := e.io)
  }

  lemma ShapedAfter(e: Engine, a: Armed, now: nat)
    requires Shaped(e) && |a.entries| == |e.cfg.tasks|
    ensures Shaped(Swung(e, a, now))
  {
    hide SkipDue, SafeOutputs;
  }

  lemma CommitPhase(e: Engine, p: Phase, a: Armed, now: nat)
    requires Shaped(e) && |a.entries| == |e.cfg.tasks|
    ensures Shaped(e.(hooks := e.hooks.(phase := p))) && CommitInstall(e.(hooks := e.hooks.(phase := p)), a, now) == CommitInstall(e, a, now)
  {
    hide SkipDue, SafeOutputs;
  }

  lemma NotEmpty(e: Engine)
    requires Shaped(e)
    ensures e.cfg.order != []
  {}

  lemma ShapedSched(e: Engine)
    requires Shaped(e)
    ensures |e.sched.consecutive| == |e.sched.overruns| == |e.cfg.tasks| == |e.sched.due| == |e.sched.runs| == |e.hooks.firstScan|
  {}

  lemma FitsFacts(e: Engine)
    requires BuffersFit(e)
    ensures e.buf.armed.Some? ==> e.buf.armed.value.program.retain.Valid() && |e.buf.armed.value.entries| == |e.cfg.tasks|
    ensures e.buf.program.Some? ==> e.buf.program.value.retain.Valid()
  {}

  lemma RunFacts(e: Engine, t: Tick)
    ensures var r := RunLogic(e, t).0; r.sched == e.sched && r.modes == e.modes && r.hooks == e.hooks && r.cfg == e.cfg
    ensures Shaped(e) ==> Shaped(RunLogic(e, t).0)
  {
    hide TakeOutputs;
  }

  lemma BoundarySteady(e: Engine)
    requires Steady(e)
    ensures Steady(ModeBoundary(e)) && ModeBoundary(e).cfg == e.cfg && ModeBoundary(e).sched == e.sched
  {
    hide ApplyPending;
  }
}
