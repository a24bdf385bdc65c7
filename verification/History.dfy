/** Whole runs of the scan engine: any sequence of requests, forces, arming, swaps and
    invocations, with any inputs, driver results and clock readings
    (crates/plc-scan/src/engine.rs). */
module History {
  import opened Ir
  import opened Mode
  import opened RetainBlit
  import opened Scan
  import opened Schedule

  datatype Event =
    | Request(req: ModeRequest)
    | MarkPhase(phase: Phase)
    | Force(slot: nat, value: PlcValue)
    | Unforce(slot: nat)
    | ArmB(armed: Armed, fits: bool)
    | DisarmB
    | ActivateB
    | Boundary
    | Install(c: Readings)
    | RunPicked(now: nat, tick: Tick)

  ghost predicate EventOk(ev: Event)
  {
    (ev.ArmB? ==> ev.armed.program.retain.Valid()) && (ev.RunPicked? ==> TickOk(ev.tick))
  }

  /** A refused call leaves the engine alone; a pick without a due task runs nothing. */
  ghost function Apply(e: Engine, ev: Event): Engine
    requires Steady(e) && EventOk(ev)
  {
    match ev
    case Request(req) => Ask(e, req)
    case MarkPhase(p) => e.(hooks := e.hooks.(phase := p))
    case Force(i, v) => e.(io := e.io.(forces := e.io.forces[i := v]))
    case Unforce(i) => e.(io := e.io.(forces := e.io.forces - {i}))
    case ArmB(a, fits) => if Arm(e, a, fits).Some? then Arm(e, a, fits).value else e
    case DisarmB => if Disarm(e).Some? then Disarm(e).value else e
    case ActivateB => if RequestActivate(e).Some? then RequestActivate(e).value.0 else e
    case Boundary => ModeBoundary(e)
    case Install(c) => TryInstall(e, c).0
    case RunPicked(now, t) =>
      PickIsHighest(e, now);
      if PickDue(e, now).Some? then Invoke(e, PickDue(e, now).value, t) else e
  }

  lemma ApplySteady(e: Engine, ev: Event)
    requires Steady(e) && EventOk(ev)
    ensures Steady(Apply(e, ev)) && Apply(e, ev).cfg == e.cfg
  {
    hide Invoke, TryInstall, PickDue, ConfigOk;
    if ev.RunPicked? {
      PickIsHighest(e, ev.now);
      if PickDue(e, ev.now).Some? {
        InvokeSched(e, PickDue(e, ev.now).value, ev.tick);
        InvokeBuffers(e, PickDue(e, ev.now).value, ev.tick);
      }
    } else if ev.Install? {
      InstallBuffers(e, ev.c);
    }
  }

  ghost predicate EventsOk(evs: seq<Event>) { forall ev :: ev in evs ==> EventOk(ev) }

  ghost function After(e: Engine, evs: seq<Event>): (r: Engine)
    requires Steady(e) && EventsOk(evs)
    ensures Steady(r) && r.cfg == e.cfg
  {
    if evs == [] then e
    else
      var n := |evs| - 1;
      var before := After(e, evs[..n]);
      ApplySteady(before, evs[n]);
      Apply(before, evs[n])
  }

  /** An engine as constructed. */
  function Fresh(cfg: Config, entries: seq<string>, program: Option<Program>, outputs: seq<OutSlot>): Engine
  {
    var n := |cfg.tasks|;
    var zeros := seq(n, i => 0);
    Engine(cfg, ModeState(Stop, None, 0), HookState(Idle, false, seq(n, i => false), false),
           Sched(zeros, zeros, zeros, zeros, zeros, None),
           Buffers(entries, program, None, None, None, false, 0, false),
           Field(outputs, map[], Good, false, 0, []))
  }

  lemma FreshSteady(cfg: Config, entries: seq<string>, program: Option<Program>, outputs: seq<OutSlot>)
    requires ConfigOk(cfg) && |entries| == |cfg.tasks| && |outputs| == cfg.outputs
    requires program.Some? ==> program.value.retain.Valid()
    ensures var e := Fresh(cfg, entries, program, outputs); Steady(e) && OnPeriod(e) && WritesSafe(e)
  {}

  // ----- output safety -----

  ghost predicate MustBeSafe(c: Config, w: DriverWrite)
  {
    w.mode.Fault? || (w.mode.Stop? && c.stopSafe) || !w.everRan
  }

  /** In FAULT, in STOP under the safe policy, and before any logic has succeeded, the driver
      gets the flag and exactly the safe values; the flag is set in no other circumstance. */
  ghost predicate SafeWrite(c: Config, w: DriverWrite)
  {
    (MustBeSafe(c, w) <==> w.forceSafe) && (MustBeSafe(c, w) ==> w.values == SafeVector(c))
  }

  ghost predicate WritesSafe(e: Engine) { forall i :: 0 <= i < |e.io.writes| ==> SafeWrite(e.cfg, e.io.writes[i]) }

  lemma OneWriteSafe(e: Engine, ok: bool, t: Tick)
    requires Shaped(e)
    ensures SafeWrite(e.cfg, WriteOf(e, ok, t))
  {
    if GlobalForceSafe(e, ok) {
      assert WriteOf(e, ok, t).values == SafeVector(e.cfg);
    }
  }

  /** An invocation makes exactly one driver write, a safe one. */
  lemma InvokeWrites(e: Engine, task: nat, t: Tick)
    requires Shaped(e) && task < |e.cfg.tasks|
    ensures var r := Invoke(e, task, t);
            && r.cfg == e.cfg && |r.io.writes| == |e.io.writes| + 1 && r.io.writes[..|e.io.writes|] == e.io.writes
            && SafeWrite(e.cfg, r.io.writes[|e.io.writes|])
            && r.io.writes[|e.io.writes|].everRan == r.io.everRan
            && (e.io.everRan ==> r.io.everRan)
            && (r.io.everRan && !e.io.everRan ==> t.logic.LogicOk? && ExecutesLogic(Enter(e, t).modes.mode))
  {
    hide Shaped, Enter, Execute, ApplyOutputs, Finish, SafeWrite;
    EnterShaped(e, t);
    EnterField(e, t);
    var e1 := Enter(e, t);
    ExecuteShaped(e1, task, t);
    ExecuteField(e1, task, t);
    var (e2, ok) := Execute(e1, task, t);
    OutputsShaped(e2, ok, t);
    OneWriteSafe(e2, ok, t);
    OutputsField(e2, ok, t);
    FinishField(ApplyOutputs(e2, ok, t), task, ok);
    FinishShaped(ApplyOutputs(e2, ok, t), task, ok);
  }

  lemma EnterField(e: Engine, t: Tick)
    ensures Enter(e, t).io.writes == e.io.writes && Enter(e, t).io.everRan == e.io.everRan
  {}

  lemma ExecuteField(e: Engine, task: nat, t: Tick)
    requires Shaped(e) && task < |e.cfg.tasks|
    ensures var (r, ok) := Execute(e, task, t);
            && r.io.writes == e.io.writes && r.io.everRan == e.io.everRan && (ok ==> t.logic.LogicOk? && ExecutesLogic(e.modes.mode))
  {
    hide TakeOutputs;
  }

  lemma OutputsField(e: Engine, ok: bool, t: Tick)
    ensures var r := ApplyOutputs(e, ok, t);
            r.io.writes == e.io.writes + [WriteOf(e, ok, t)] && r.io.everRan == e.io.everRan
            && WriteOf(e, ok, t).everRan == (e.io.everRan || ok)
  {}

  lemma FinishField(e: Engine, task: nat, ok: bool)
    requires Shaped(e) && task < |e.cfg.tasks|
    ensures var r := Finish(e, task, ok); r.io.writes == e.io.writes && r.io.everRan == (e.io.everRan || ok)
  {}

  lemma InstallField(e: Engine, c: Readings)
    requires Shaped(e) && BuffersFit(e)
    ensures var r := TryInstall(e, c).0; r.io.writes == e.io.writes && r.io.everRan == e.io.everRan && r.cfg == e.cfg
  {
    hide SkipDue, Shaped, InstallReady, Blitted;
  }

  /** No event other than an invocation writes, and writes already made stay. */
  lemma ApplyWrites(e: Engine, ev: Event)
    requires Steady(e) && EventOk(ev)
    ensures var r := Apply(e, ev);
            && e.io.writes <= r.io.writes && (WritesSafe(e) ==> WritesSafe(r))
            && (r.io.everRan && !e.io.everRan ==> ev.RunPicked? && ev.tick.logic.LogicOk?)
            && (e.io.everRan ==> r.io.everRan)
            && forall i :: |e.io.writes| <= i < |r.io.writes| ==> r.io.writes[i].everRan == r.io.everRan
  {
    hide Invoke, TryInstall, PickDue, SafeWrite, ConfigOk, BuffersFit, Shaped;
    if ev.RunPicked? {
      PickIsHighest(e, ev.now);
      if PickDue(e, ev.now).Some? {
        var r := Apply(e, ev);
        InvokeWrites(e, PickDue(e, ev.now).value, ev.tick);
        assert forall i :: 0 <= i < |e.io.writes| ==> r.io.writes[i] == r.io.writes[..|e.io.writes|][i];
      }
    } else if ev.Install? {
      InstallField(e, ev.c);
    } else {
      QuietWrites(e, ev);
    }
  }

  lemma QuietWrites(e: Engine, ev: Event)
    requires Steady(e) && EventOk(ev) && !ev.RunPicked? && !ev.Install?
    ensures var r := Apply(e, ev); r.io.writes == e.io.writes && r.io.everRan == e.io.everRan && r.cfg == e.cfg
  {
    hide ConfigOk, BuffersFit, ApplyPending;
  }

  /** Every write of every run is safe. */
  lemma {:induction false} OutputsSafe(e: Engine, evs: seq<Event>)
    requires Steady(e) && EventsOk(evs) && WritesSafe(e)
    ensures WritesSafe(After(e, evs)) && e.io.writes <= After(e, evs).io.writes
  {
    hide Apply, Steady, WritesSafe, EventOk;
    if evs != [] {
      var n := |evs| - 1;
      OutputsSafe(e, evs[..n]);
      ApplyWrites(After(e, evs[..n]), evs[n]);
    }
  }

  ghost predicate NoSuccess(evs: seq<Event>)
  {
    forall ev :: ev in evs && ev.RunPicked? ==> ev.tick.logic.LogicFailed?
  }

  /** Until some invocation's logic succeeds, nothing but the safe values reaches the driver,
      in every mode and whatever is forced. */
  lemma {:induction false} SafeUntilSuccess(e: Engine, evs: seq<Event>)
    requires Steady(e) && EventsOk(evs) && WritesSafe(e) && !e.io.everRan && NoSuccess(evs)
    ensures var r := After(e, evs);
            && !r.io.everRan
            && forall i :: |e.io.writes| <= i < |r.io.writes| ==> r.io.writes[i].forceSafe && r.io.writes[i].values == SafeVector(e.cfg)
  {
    hide Apply, Steady, SafeWrite, EventOk, SafeVector;
    if evs != [] {
      var n := |evs| - 1;
      SafeUntilSuccess(e, evs[..n]);
      OutputsSafe(e, evs[..n]);
      var before := After(e, evs[..n]);
      var r := After(e, evs);
      ApplyWrites(before, evs[n]);
      forall i | |e.io.writes| <= i < |r.io.writes|
        ensures r.io.writes[i].forceSafe && r.io.writes[i].values == SafeVector(e.cfg)
      {
        if i < |before.io.writes| {
          assert r.io.writes[i] == before.io.writes[i];
        } else {
          NotYetRan(e.cfg, r.io.writes[i]);
        }
      }
    }
  }

  lemma NotYetRan(c: Config, w: DriverWrite)
    requires SafeWrite(c, w) && !w.everRan
    ensures w.forceSafe && w.values == SafeVector(c)
  {}

  // ----- the FAULT latch -----

  /** FAULT is left by one event only: a boundary outside a swap that finds a reset request,
      and then into STOP with the forces cleared. */
  lemma FaultExit(e: Engine, ev: Event)
    requires Steady(e) && EventOk(ev) && e.modes.mode.Fault?
    ensures Apply(e, ev).modes.mode.Fault? <==>
              !(ev.Boundary? && e.modes.pending == Some(ReqFaultReset) && !e.hooks.phase.Swapping?)
    ensures !Apply(e, ev).modes.mode.Fault? ==> Apply(e, ev).modes.mode.Stop? && Apply(e, ev).io.forces == map[]
    ensures Apply(e, ev).modes.pending == Some(ReqFaultReset) ==> e.modes.pending == Some(ReqFaultReset) || ev == Request(ReqFaultReset)
  {
    hide Invoke, TryInstall, PickDue, ConfigOk, BuffersFit, Shaped;
    if ev.RunPicked? {
      PickIsHighest(e, ev.now);
      if PickDue(e, ev.now).Some? { InvokeModes(e, PickDue(e, ev.now).value, ev.tick); }
    } else if ev.Install? {
      InstallModes(e, ev.c);
    } else if ev.Boundary? {
      FaultIsLatched(e.modes);
    }
  }

  /** An invocation changes the mode only to FAULT, and never touches a request. */
  lemma InvokeModes(e: Engine, task: nat, t: Tick)
    requires Shaped(e) && task < |e.cfg.tasks|
    ensures var r := Invoke(e, task, t);
            && (r.modes.mode == e.modes.mode || r.modes.mode.Fault?)
            && r.modes.pending == e.modes.pending && r.modes.rejected == e.modes.rejected
            && (r.modes.mode != e.modes.mode ==> r.io.forces == map[])
  {
    hide Shaped, Enter, Execute, ApplyOutputs, Finish;
    EnterShaped(e, t);
    EnterModes(e, t);
    var e1 := Enter(e, t);
    ExecuteShaped(e1, task, t);
    ExecuteModes(e1, task, t);
    var (e2, ok) := Execute(e1, task, t);
    OutputsShaped(e2, ok, t);
    OutputsModes(e2, ok, t);
    FinishModes(ApplyOutputs(e2, ok, t), task, ok);
  }

  ghost predicate ModesStep(e: Engine, r: Engine)
  {
    && (r.modes == e.modes || r.modes == e.modes.(mode := Fault))
    && (r.io.forces == e.io.forces || (r.modes.mode.Fault? && r.io.forces == map[]))
    && (r.modes.mode != e.modes.mode ==> r.io.forces == map[])
  }

  lemma EnterModes(e: Engine, t: Tick) ensures ModesStep(e, Enter(e, t)) {}

  lemma ExecuteModes(e: Engine, task: nat, t: Tick)
    requires Shaped(e) && task < |e.cfg.tasks|
    ensures ModesStep(e, Execute(e, task, t).0)
  {
    hide TakeOutputs;
  }

  lemma OutputsModes(e: Engine, ok: bool, t: Tick) ensures ModesStep(e, ApplyOutputs(e, ok, t))
  {
    hide WriteOf;
  }

  lemma FinishModes(e: Engine, task: nat, ok: bool)
    requires Shaped(e) && task < |e.cfg.tasks|
    ensures var r := Finish(e, task, ok); r.modes == e.modes && r.io.forces == e.io.forces
  {}

  lemma InstallModes(e: Engine, c: Readings)
    requires Shaped(e) && BuffersFit(e)
    ensures var (r, o) := TryInstall(e, c);
            && (r.modes == e.modes || r.modes == e.modes.(mode := Fault))
            && (o.Faulted? <==> r != e && r.modes.mode.Fault? && r.buf.armed.Some? && r.hooks.phase.Idle? && InstallReady(e, c.ready)
                                && !Blitted(e.buf.armed.value, e.buf.program).1)
            && (!o.Faulted? ==> r.modes == e.modes)
  {
    hide SkipDue, Shaped;
  }

  /** Without a reset request FAULT holds for the whole run. */
  lemma {:induction false} FaultHolds(e: Engine, evs: seq<Event>)
    requires Steady(e) && EventsOk(evs) && e.modes.mode.Fault? && e.modes.pending != Some(ReqFaultReset)
    requires Request(ReqFaultReset) !in evs
    ensures After(e, evs).modes.mode.Fault? && After(e, evs).modes.pending != Some(ReqFaultReset)
  {
    hide Apply, Steady, EventOk;
    if evs != [] {
      var n := |evs| - 1;
      FaultHolds(e, evs[..n]);
      FaultExit(After(e, evs[..n]), evs[n]);
    }
  }

  /** Outside RUN and SIM no program code runs: program memory, buffers and the output image
      come out of an invocation as they went in. */
  lemma QuietInvocation(e: Engine, task: nat, t: Tick)
    requires Shaped(e) && task < |e.cfg.tasks| && !ExecutesLogic(e.modes.mode)
    ensures var r := Invoke(e, task, t);
            r.buf == e.buf && r.io.outputs == e.io.outputs && r.io.retainSeq == e.io.retainSeq && r.io.everRan == e.io.everRan
            && r.hooks.firstScan == e.hooks.firstScan && r.sched.consecutive == e.sched.consecutive
  {
    hide WriteOf, ResolveOutput;
  }

  // ----- outputs across a swap -----

  /** After a safe-reset install every output holds its safe value; after a bumpless one it
      holds what it held, and is held until the new program writes it. */
  lemma InstallOutputs(e: Engine, c: Readings)
    requires Shaped(e) && BuffersFit(e)
    ensures var (r, o) := TryInstall(e, c);
            && (o.Installed? && !e.buf.armed.value.bumpless ==>
                  !r.buf.bumplessHold && forall i :: 0 <= i < |r.io.outputs| ==> r.io.outputs[i] == OutSlot(SafeVector(e.cfg)[i], true))
            && (o.Installed? && e.buf.armed.value.bumpless ==> r.buf.bumplessHold && r.io.outputs == e.io.outputs)
            && (!o.Installed? ==> r.io.outputs == e.io.outputs && r.buf.bumplessHold == e.buf.bumplessHold)
  {
    hide CopyUntil, SkipDue, InstallReady, Shaped;
  }

  /** No successful run among the events writes the slot, and nothing is installed. */
  ghost predicate LeavesAlone(evs: seq<Event>, slot: nat)
  {
    forall ev :: ev in evs ==>
      !ev.Install? && (ev.RunPicked? && ev.tick.logic.LogicOk? && slot < |ev.tick.logic.outputs| ==> !ev.tick.logic.outputs[slot].written)
  }

  ghost predicate Held(e: Engine, r: Engine, slot: nat)
    requires slot < |e.io.outputs|
  {
    |r.io.outputs| == |e.io.outputs| && r.io.outputs[slot] == e.io.outputs[slot] && r.buf.bumplessHold
  }

  lemma EnterHeld(e: Engine, t: Tick, slot: nat)
    requires slot < |e.io.outputs| && e.buf.bumplessHold
    ensures Held(e, Enter(e, t), slot)
  {}

  lemma ExecuteHeld(e: Engine, task: nat, t: Tick, slot: nat)
    requires Shaped(e) && task < |e.cfg.tasks| && slot < |e.io.outputs| && e.buf.bumplessHold
    requires t.logic.LogicOk? && slot < |t.logic.outputs| ==> !t.logic.outputs[slot].written
    ensures Held(e, Execute(e, task, t).0, slot)
  {
    hide NoteDuration;
  }

  lemma OutputsHeld(e: Engine, ok: bool, t: Tick, slot: nat)
    requires slot < |e.io.outputs| && e.buf.bumplessHold
    ensures Held(e, ApplyOutputs(e, ok, t), slot)
  {
    hide WriteOf;
  }

  lemma HeldByRun(e: Engine, task: nat, t: Tick, slot: nat)
    requires Shaped(e) && task < |e.cfg.tasks| && slot < |e.io.outputs| && e.buf.bumplessHold
    requires t.logic.LogicOk? && slot < |t.logic.outputs| ==> !t.logic.outputs[slot].written
    ensures Held(e, Invoke(e, task, t), slot)
  {
    hide Shaped, Enter, Execute, ApplyOutputs;
    EnterShaped(e, t);
    EnterHeld(e, t, slot);
    var e1 := Enter(e, t);
    ExecuteShaped(e1, task, t);
    ExecuteHeld(e1, task, t, slot);
    var (e2, ok) := Execute(e1, task, t);
    OutputsShaped(e2, ok, t);
    OutputsHeld(e2, ok, t, slot);
  }

  lemma HeldByEvent(e: Engine, ev: Event, slot: nat)
    requires Steady(e) && EventOk(ev) && slot < e.cfg.outputs && e.buf.bumplessHold && LeavesAlone([ev], slot)
    ensures Shaped(e) && Shaped(Apply(e, ev)) && Apply(e, ev).cfg == e.cfg
    ensures var r := Apply(e, ev); r.io.outputs[slot] == e.io.outputs[slot] && r.buf.bumplessHold
  {
    hide Invoke, TryInstall, PickDue, ConfigOk, BuffersFit;
    ApplySteady(e, ev);
    assert ev in [ev];
    if ev.RunPicked? {
      PickIsHighest(e, ev.now);
      if PickDue(e, ev.now).Some? { HeldByRun(e, PickDue(e, ev.now).value, ev.tick, slot); }
    }
  }

  /** Bumpless swap: until the new program writes an output, the output keeps the value the
      old program left, over every run. */
  lemma {:induction false} BumplessHolds(e: Engine, evs: seq<Event>, slot: nat)
    requires Steady(e) && EventsOk(evs) && slot < e.cfg.outputs && e.buf.bumplessHold && LeavesAlone(evs, slot)
    ensures var r := After(e, evs);
            |e.io.outputs| == |r.io.outputs| == e.cfg.outputs && r.io.outputs[slot] == e.io.outputs[slot] && r.buf.bumplessHold
  {
    hide Apply, ConfigOk, BuffersFit, EventOk;
    if evs != [] {
      var n := |evs| - 1;
      BumplessHolds(e, evs[..n], slot);
      HeldByEvent(After(e, evs[..n]), evs[n], slot);
    }
  }

  // ----- the watchdog -----

  predicate Overran(c: Config, task: nat, durationUs: nat)
    requires task < |c.tasks|
  {
    durationUs >= c.tasks[task].period * 1000
  }

  /** How many of the last durations overran in a row. */
  function TrailingOverruns(c: Config, task: nat, durations: seq<nat>): nat
    requires task < |c.tasks|
  {
    if durations == [] || !Overran(c, task, durations[|durations| - 1]) then 0
    else 1 + TrailingOverruns(c, task, durations[..|durations| - 1])
  }

  /** The watchdog after a series of invocations of one task, and whether the last tripped it. */
  function Noted(c: Config, s: Sched, task: nat, durations: seq<nat>): (r: (Sched, bool))
    requires task < |c.tasks| == |s.consecutive| == |s.overruns|
    ensures |r.0.consecutive| == |r.0.overruns| == |c.tasks|
  {
    if durations == [] then (s, false)
    else NoteDuration(c, Noted(c, s, task, durations[..|durations| - 1]).0, task, durations[|durations| - 1])
  }

  /** It trips exactly when the last invocations, as many as the limit says and at least one,
      all overran. */
  lemma {:induction false} WatchdogTrips(c: Config, s: Sched, task: nat, durations: seq<nat>)
    requires task < |c.tasks| == |s.consecutive| == |s.overruns| && s.consecutive[task] == 0
    ensures Noted(c, s, task, durations).0.consecutive[task] == TrailingOverruns(c, task, durations)
    ensures Noted(c, s, task, durations).1 <==>
              durations != [] && TrailingOverruns(c, task, durations) >= (if c.overrunLimit < 1 then 1 else c.overrunLimit)
  {
    if durations != [] { WatchdogTrips(c, s, task, durations[..|durations| - 1]); }
  }

  // ----- the schedule over a run -----

  lemma ApplyOnPeriod(e: Engine, ev: Event)
    requires Steady(e) && EventOk(ev) && OnPeriod(e)
    ensures OnPeriod(Apply(e, ev))
  {
    hide Invoke, TryInstall, PickDue, ConfigOk, BuffersFit, Multiple;
    if ev.RunPicked? {
      PickIsHighest(e, ev.now);
      if PickDue(e, ev.now).Some? { InvokeOnPeriod(e, PickDue(e, ev.now).value, ev.tick); }
    } else if ev.Install? {
      InstallOnPeriod(e, ev.c);
    }
  }

  /** At every point of every run each task is due at its period times the number of times it
      ran or was skipped. */
  lemma {:induction false} AlwaysOnPeriod(e: Engine, evs: seq<Event>)
    requires Steady(e) && EventsOk(evs) && OnPeriod(e)
    ensures OnPeriod(After(e, evs))
  {
    hide Apply, Steady, EventOk, OnPeriod;
    if evs != [] {
      var n := |evs| - 1;
      AlwaysOnPeriod(e, evs[..n]);
      ApplyOnPeriod(After(e, evs[..n]), evs[n]);
    }
  }

  // ----- scheduling rounds are runs -----

  /** The events of a round, from its `k`th attempt on. */
  ghost function RoundEvents(e: Engine, clock: nat -> Readings, ticks: nat -> Tick, k: nat, limit: nat): seq<Event>
    requires Steady(e) && ClockOk(clock, limit) && TicksOk(ticks)
    decreases Outstanding(e, limit)
  {
    RoundFacts(e, clock(k), ticks(k), limit);
    var e1 := TryInstall(e, clock(k)).0;
    match PickDue(e1, clock(k).pick)
    case None => [Install(clock(k))]
    case Some(i) =>
      [Install(clock(k)), RunPicked(clock(k).pick, ticks(k))]
      + RoundEvents(Invoke(e1, i, ticks(k)), clock, ticks, k + 1, limit)
  }

  /** So everything said of runs holds of the scheduler's own rounds. */
  lemma {:induction false} RoundIsRun(e: Engine, clock: nat -> Readings, ticks: nat -> Tick, k: nat, limit: nat)
    requires Steady(e) && ClockOk(clock, limit) && TicksOk(ticks)
    ensures EventsOk(RoundEvents(e, clock, ticks, k, limit))
    ensures RunLoop(e, clock, ticks, k, limit).0 == After(e, RoundEvents(e, clock, ticks, k, limit))
    decreases Outstanding(e, limit)
  {
    hide TryInstall, Invoke, PickDue, Backlog, Shaped, ConfigOk, BuffersFit;
    RoundFacts(e, clock(k), ticks(k), limit);
    var e1 := TryInstall(e, clock(k)).0;
    match PickDue(e1, clock(k).pick)
    case None =>
      OneEvent(e, Install(clock(k)));
    case Some(i) =>
      var first := [Install(clock(k)), RunPicked(clock(k).pick, ticks(k))];
      var rest := RoundEvents(Invoke(e1, i, ticks(k)), clock, ticks, k + 1, limit);
      OneEvent(e, first[0]);
      OneEvent(e1, first[1]);
      RoundIsRun(Invoke(e1, i, ticks(k)), clock, ticks, k + 1, limit);
      AfterConcat(e, [first[0]], [first[1]]);
      assert [first[0]] + [first[1]] == first;
      AfterConcat(e, first, rest);
  }

  lemma OneEvent(e: Engine, ev: Event)
    requires Steady(e) && EventOk(ev)
    ensures EventsOk([ev]) && After(e, [ev]) == Apply(e, ev)
  {
    hide Apply, Steady;
    assert [ev][..0] == [];
  }

  lemma {:induction false} AfterConcat(e: Engine, a: seq<Event>, b: seq<Event>)
    requires Steady(e) && EventsOk(a) && EventsOk(b)
    ensures EventsOk(a + b) && After(e, a + b) == After(After(e, a), b)
  {
    hide Apply, Steady;
    if b == [] {
      assert a + b == a;
    } else {
      var n := |b| - 1;
      AfterConcat(e, a, b[..n]);
      assert (a + b)[..|a| + n] == a + b[..n];
    }
  }
}
