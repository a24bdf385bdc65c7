/** The loader object in front of the scan engine
    (crates/plc-runtime/src/loader.rs). */
module Runtime {
  import opened Ir
  import opened RetainLayout
  import opened Mode
  import opened Scan
  import opened Schedule
  import opened History
  import opened Loader
  import E = ScanEngine

  class Runtime {
    const engine: E.ScanEngine
    var curLayout: Option<Layout>
    var armLayout: Option<Layout>
    var curInfo: Option<Info>
    var armInfo: Option<Info>
    var lastArm: Option<ArmReport>

    ghost function Snap(): Rt
      reads this, engine, engine.modes, engine.hooks
    {
      Rt(engine.Snap(), curLayout, armLayout, curInfo, armInfo, lastArm)
    }

    /** Over an engine with no program loaded. */
    constructor (engine: E.ScanEngine, ghost catalog: nat -> Layout)
      requires Steady(engine.Snap()) && engine.armed.None? && engine.program.None? && engine.id.None? && engine.hash.None?
      requires engine.hooks.phase.Idle? && !engine.hooks.activate
      ensures this.engine == engine && Coupled(catalog, Snap()) && lastArm.None?
    {
      this.engine := engine;
      curLayout, armLayout, curInfo, armInfo, lastArm := None, None, None, None, None;
      new;
      NewCoupled(catalog, engine.Snap());
    }

    method SyncLayouts()
      modifies this
      ensures Snap() == Sync(old(Snap()))
    {
      if engine.armed.None? {
        if engine.id.Some? && armLayout.Some? {
          curLayout, armLayout := armLayout, None;
          curInfo, armInfo := armInfo, None;
        } else {
          armLayout := None;
        }
      }
    }

    /** Marks the phase and copies what preparation needs. */
    method BeginArm() returns (r: Option<Context>)
      modifies this, engine.hooks
      ensures Begin(old(Snap())) == if r.Some? then Some((Snap(), r.value)) else None
      ensures r.None? ==> Snap() == old(Snap())
    {
      if engine.hooks.phase.Swapping? || engine.hooks.activate { return None; }
      SyncLayouts();
      engine.hooks.SetPhase(Validating);
      var snap := if curLayout.None? || engine.program.None? then None
                  else Some(RetainSnapshot(curLayout.value, engine.program.value.retain.bytes, engine.hash));
      var names := seq(|engine.cfg.tasks|, i requires 0 <= i < |engine.cfg.tasks| => engine.cfg.tasks[i].name);
      assert names == Names(engine.cfg);
      r := Some(Context(names, snap, engine.hash));
    }

    method AbortArm()
      modifies engine.hooks
      ensures Snap() == Abort(old(Snap()))
    {
      if !engine.hooks.phase.Validating? { return; }
      engine.hooks.SetPhase(if engine.armed.Some? then Phase.Armed else Idle);
    }

    method CommitArm(p: Prepared) returns (ok: bool)
      requires Shaped(engine.Snap())
      modifies this, engine, engine.hooks
      ensures ok <==> Commit(old(Snap()), p).Some?
      ensures Snap() == if ok then Commit(old(Snap()), p).value else old(Snap())
    {
      if engine.hooks.phase.Swapping? { return false; }
      ok := engine.ArmProgram(p.program, p.fits);
      if !ok { return; }
      armLayout, armInfo, lastArm := Some(p.layout), Some(p.info), Some(p.report);
    }

    /** Begin, prepare, and commit or abort. */
    method UploadPackage(pkg: Option<Package>, force: bool, ghost catalog: nat -> Layout) returns (ok: bool)
      requires Coupled(catalog, Snap()) && (pkg.Some? ==> catalog(pkg.value.build) == PackageLayout(pkg.value))
      modifies this, engine, engine.hooks
      ensures (Snap(), ok) == Upload(old(Snap()), pkg, force)
      ensures Coupled(catalog, Snap()) && (old(Matched(Snap())) ==> Matched(Snap()))
    {
      hide Prepare, Matched, ConfigOk, BuffersFit;
      ghost var before := Snap();
      UploadCoupled(catalog, before, pkg, force);
      if Matched(before) { UploadMatched(catalog, before, pkg, force); }
      if Begin(before).Some? { BeginCoupled(catalog, before); }
      var ctx := BeginArm();
      if ctx.None? { return false; }
      var prepared := PrepareArm(pkg, ctx.value, force);
      if prepared.None? {
        AbortArm();
        return false;
      }
      ok := CommitArm(prepared.value);
    }

    method Disarm() returns (ok: bool)
      modifies this, engine, engine.hooks
      ensures ok <==> DisarmAll(old(Snap())).Some?
      ensures Snap() == if ok then DisarmAll(old(Snap())).value else old(Snap())
    {
      ok := engine.DisarmProgram();
      if ok { armLayout, armInfo, lastArm := None, None, None; }
    }

    method RequestSwap() returns (r: Option<ActivateRequest>)
      modifies this, engine, engine.hooks
      ensures Activate(old(Snap())) == if r.Some? then Some((Snap(), r.value)) else None
      ensures r.None? ==> Snap() == old(Snap())
    {
      r := engine.Activate();
      if r == Some(NoOp) { armLayout, armInfo, lastArm := None, None, None; }
    }

    /** One task at most, then the layouts follow. */
    method Step(c: Readings, t: Tick, ghost catalog: nat -> Layout) returns (task: Option<nat>)
      requires Coupled(catalog, Snap()) && TickOk(t)
      modifies this, engine, engine.modes, engine.hooks
      ensures Scanning(StepEvents(c, t)) && Snap() == Round(old(Snap()), StepEvents(c, t))
      ensures Coupled(catalog, Snap()) && (old(Matched(Snap())) ==> Matched(Snap()))
    {
      hide Matched, Sync, TryInstall, Invoke, PickDue, ModeBoundary, ConfigOk, BuffersFit, Shaped;
      ghost var before := Snap();
      StepIsRun(before.e, c, t);
      RoundCoupled(catalog, before, StepEvents(c, t));
      if Matched(before) { RoundMatched(catalog, before, StepEvents(c, t)); }
      task := engine.Step(c, t);
      SyncLayouts();
    }

    /** Every due task, then the layouts follow. */
    method RunDue(clock: nat -> Readings, ticks: nat -> Tick, ghost limit: nat, ghost catalog: nat -> Layout)
        returns (n: nat, ghost evs: seq<Event>)
      requires Coupled(catalog, Snap()) && ClockOk(clock, limit) && TicksOk(ticks)
      modifies this, engine, engine.modes, engine.hooks
      ensures Scanning(evs) && Snap() == Round(old(Snap()), evs)
      ensures Coupled(catalog, Snap()) && (old(Matched(Snap())) ==> Matched(Snap()))
    {
      hide Matched, Sync, TryInstall, Invoke, PickDue, ModeBoundary, ConfigOk, BuffersFit, Shaped, RunLoop, Scanning;
      ghost var before := Snap();
      evs := DueIsRun(before.e, clock, ticks, limit);
      RoundCoupled(catalog, before, evs);
      if Matched(before) { RoundMatched(catalog, before, evs); }
      n := engine.RunDue(clock, ticks, limit);
      SyncLayouts();
    }
  }

  ghost function StepEvents(c: Readings, t: Tick): seq<Event> { [Boundary, Install(c), RunPicked(c.pick, t)] }

  /** A step is a run of three events. */
  lemma StepIsRun(e: Engine, c: Readings, t: Tick)
    requires Steady(e) && TickOk(t)
    ensures Scanning(StepEvents(c, t)) && Steady(ModeBoundary(e))
    ensures var e1 := TryInstall(ModeBoundary(e), c).0;
            && Steady(e1) && (PickDue(e1, c.pick).Some? ==> PickDue(e1, c.pick).value < |e1.cfg.tasks|)
            && After(e, StepEvents(c, t)) == if PickDue(e1, c.pick).Some? then Invoke(e1, PickDue(e1, c.pick).value, t) else e1
  {
    hide TryInstall, Invoke, PickDue, ModeBoundary, ConfigOk, BuffersFit, Shaped, TickOk;
    var evs := StepEvents(c, t);
    E.BoundarySteady(e);
    var e1 := TryInstall(ModeBoundary(e), c).0;
    ApplySteady(ModeBoundary(e), Install(c));
    PickIsHighest(e1, c.pick);
    assert evs[..2][..1] == evs[..1] && evs[..1][..0] == [];
    assert After(e, evs[..1]) == ModeBoundary(e);
    assert After(e, evs[..2]) == e1;
  }

  /** So is a round after a mode boundary. */
  lemma DueIsRun(e: Engine, clock: nat -> Readings, ticks: nat -> Tick, limit: nat) returns (evs: seq<Event>)
    requires Steady(e) && ClockOk(clock, limit) && TicksOk(ticks)
    ensures Steady(ModeBoundary(e)) && Scanning(evs)
    ensures After(e, evs) == RunLoop(ModeBoundary(e), clock, ticks, 0, limit).0
  {
    hide RunLoop, RoundEvents, After, ModeBoundary, Shaped, ConfigOk, BuffersFit;
    E.BoundarySteady(e);
    var rest := RoundEvents(ModeBoundary(e), clock, ticks, 0, limit);
    RoundIsRun(ModeBoundary(e), clock, ticks, 0, limit);
    RoundScans(ModeBoundary(e), clock, ticks, 0, limit);
    OneEvent(e, Boundary);
    AfterConcat(e, [Boundary], rest);
    evs := [Boundary] + rest;
  }

  lemma {:induction false} RoundScans(e: Engine, clock: nat -> Readings, ticks: nat -> Tick, k: nat, limit: nat)
    requires Steady(e) && ClockOk(clock, limit) && TicksOk(ticks)
    ensures Scanning(RoundEvents(e, clock, ticks, k, limit))
    decreases Outstanding(e, limit)
  {
    hide TryInstall, Invoke, PickDue, Backlog, Shaped, ConfigOk, BuffersFit;
    RoundFacts(e, clock(k), ticks(k), limit);
    var e1 := TryInstall(e, clock(k)).0;
    if PickDue(e1, clock(k).pick).Some? {
      RoundScans(Invoke(e1, PickDue(e1, clock(k).pick).value, ticks(k)), clock, ticks, k + 1, limit);
    }
  }
}
