/** Operating modes, program phase and effective outputs
    (crates/plc-scan/src/mode.rs, crates/plc-scan/src/hooks.rs, crates/plc-io/src/force.rs). */
module Mode {
  import opened Ir

  datatype OperatingMode = Stop | Run | Fault | Sim

  datatype ModeRequest = ReqStop | ReqRun | ReqSim | ReqFaultReset

  datatype Phase = Idle | Validating | Armed | Swapping

  predicate ExecutesLogic(m: OperatingMode) { m.Run? || m.Sim? }

  // ----- mode requests -----

  function ApplyRequest(current: OperatingMode, req: ModeRequest): Option<OperatingMode>
  {
    match (current, req)
    case (Fault, ReqStop) => None
    case (_, ReqStop) => Some(Stop)
    case (Stop, ReqRun) => Some(Run)
    case (Sim, ReqRun) => Some(Run)
    case (Run, ReqRun) => Some(Run)
    case (Stop, ReqSim) => Some(Sim)
    case (Sim, ReqSim) => Some(Sim)
    case (Fault, ReqFaultReset) => Some(Stop)
    case _ => None
  }

  datatype ModeState = ModeState(mode: OperatingMode, pending: Option<ModeRequest>, rejected: nat)

  /** The state after a pending request was looked at, and whether forces are cleared. */
  function ApplyPending(s: ModeState): (r: (ModeState, bool))
  {
    if s.pending.None? then (s, false)
    else
      var req := s.pending.value;
      var next := ApplyRequest(s.mode, req);
      if next.None? then (ModeState(s.mode, None, s.rejected + 1), false)
      else (ModeState(next.value, None, s.rejected), req.ReqStop? || req.ReqFaultReset? || next.value.Stop?)
  }

  class ModeCell {
    var mode: OperatingMode
    var pending: Option<ModeRequest>
    var rejected: nat

    ghost function Snap(): ModeState
      reads this
    {
      ModeState(mode, pending, rejected)
    }

    constructor ()
      ensures Snap() == ModeState(Stop, None, 0)
    {
      mode, pending, rejected := Stop, None, 0;
    }

    method SetMode(m: OperatingMode)
      modifies this
      ensures Snap() == old(Snap()).(mode := m)
    {
      mode := m;
    }

    /** Queues a request; the last writer wins. */
    method Request(req: ModeRequest)
      modifies this
      ensures Snap() == old(Snap()).(pending := Some(req))
    {
      pending := Some(req);
    }

    method RejectPending()
      modifies this
      ensures Snap() == ModeState(old(mode), None, old(rejected) + if old(pending).Some? then 1 else 0)
    {
      var raw := pending;
      pending := None;
      if raw.Some? { rejected := rejected + 1; }
    }

    method TakePending() returns (clear: bool)
      modifies this
      ensures (Snap(), clear) == ApplyPending(old(Snap()))
    {
      var raw := pending;
      pending := None;
      if raw.None? { return false; }
      var next := ApplyRequest(mode, raw.value);
      if next.None? {
        rejected := rejected + 1;
        return false;
      }
      clear := raw.value.ReqStop? || raw.value.ReqFaultReset? || next.value.Stop?;
      mode := next.value;
    }
  }

  /** FAULT is left only by a reset, and only into STOP; nothing else enters it here. */
  lemma FaultIsLatched(s: ModeState)
    ensures var m := ApplyPending(s).0.mode;
            && (s.mode.Fault? && m != Fault ==> s.pending == Some(ReqFaultReset) && m == Stop && ApplyPending(s).1)
            && (m.Fault? ==> s.mode.Fault?)
  {}

  /** RUN is never entered from FAULT, and SIM only from STOP. */
  lemma RunNeedsReset(s: ModeState)
    ensures var m := ApplyPending(s).0.mode;
            && (m.Run? ==> !s.mode.Fault?)
            && (m.Sim? ==> s.mode.Stop? || s.mode.Sim?)
  {}

  // ----- program epoch cells -----

  datatype HookState = HookState(phase: Phase, activate: bool, firstScan: seq<bool>, inInvocation: bool)

  class EpochHooks {
    var phase: Phase
    var activate: bool
    var firstScan: seq<bool>
    var inInvocation: bool

    ghost function Snap(): HookState
      reads this
    {
      HookState(phase, activate, firstScan, inInvocation)
    }

    constructor (tasks: nat)
      ensures Snap() == HookState(Idle, false, seq(tasks, i => false), false)
    {
      phase, activate, firstScan, inInvocation := Idle, false, seq(tasks, i => false), false;
    }

    method SetPhase(p: Phase)
      modifies this
      ensures Snap() == old(Snap()).(phase := p)
    {
      phase := p;
    }

    method SetActivate(v: bool)
      modifies this
      ensures Snap() == old(Snap()).(activate := v)
    {
      activate := v;
    }

    method SetInInvocation(v: bool)
      modifies this
      ensures Snap() == old(Snap()).(inInvocation := v)
    {
      inInvocation := v;
    }

    /** Sets every task's bit. */
    method SetFirstScanAll()
      modifies this
      ensures Snap() == old(Snap()).(firstScan := seq(|old(firstScan)|, i => true))
    {
      for i := 0 to |firstScan|
        invariant |firstScan| == |old(firstScan)| && phase == old(phase) && activate == old(activate) && inInvocation == old(inInvocation)
        invariant forall k :: 0 <= k < i ==> firstScan[k]
      {
        firstScan := firstScan[i := true];
      }
      assert firstScan == seq(|old(firstScan)|, i => true);
    }

    /** After an install: every task starts with its first scan, nothing requested. */
    method Installed()
      modifies this
      ensures Snap() == HookState(Idle, false, seq(|old(firstScan)|, i => true), old(inInvocation))
    {
      SetFirstScanAll();
      SetActivate(false);
      SetPhase(Idle);
    }

    /** At the end of an invocation; the first scan is over only when the logic completed. */
    method Completed(task: nat, ok: bool)
      requires task < |firstScan|
      modifies this
      ensures Snap() == old(Snap()).(firstScan := if ok && old(firstScan)[task] then old(firstScan)[task := false] else old(firstScan),
                                     inInvocation := false)
    {
      if ok && firstScan[task] { ClearFirstScan(task); }
      SetInInvocation(false);
    }

    method ClearFirstScan(task: nat)
      modifies this
      ensures Snap() == old(Snap()).(firstScan := if task < |old(firstScan)| then old(firstScan)[task := false] else old(firstScan))
    {
      if task < |firstScan| { firstScan := firstScan[task := false]; }
    }
  }

  // ----- effective outputs -----

  datatype PlcValue = PBool(b: bool) | PNum(n: int)

  datatype Quality = Good | Uncertain | Bad

  datatype BadQualityPolicy = ForceSafe | HoldLast

  datatype OutputInput = OutputInput(
    mode: OperatingMode, globalForceSafe: bool, moduleQuality: Quality, onBadQuality: BadQualityPolicy,
    force: Option<PlcValue>, programValue: PlcValue, programWritten: bool, safeState: PlcValue)

  datatype Source = GlobalSafe | Forced | ModuleSafe | Program | DefaultSafe

  function ResolveOutput(i: OutputInput): (PlcValue, Source)
  {
    if i.globalForceSafe || i.mode.Fault? then (i.safeState, GlobalSafe)
    else if i.force.Some? then (i.force.value, Forced)
    else if i.moduleQuality.Bad? && i.onBadQuality.ForceSafe? then (i.safeState, ModuleSafe)
    else if i.programWritten then (i.programValue, Program)
    else (i.safeState, DefaultSafe)
  }

  /** A force or the program reaches the field only when nothing safer applies. */
  lemma OutputPriority(i: OutputInput)
    ensures var (v, why) := ResolveOutput(i);
            && (i.globalForceSafe || i.mode.Fault? ==> v == i.safeState)
            && (why.Forced? <==> !i.globalForceSafe && !i.mode.Fault? && i.force.Some?)
            && (why.Program? ==> i.programWritten && i.force.None? && !i.globalForceSafe && !i.mode.Fault?
                                 && (i.moduleQuality.Bad? ==> i.onBadQuality.HoldLast?))
            && (!why.Forced? && !why.Program? ==> v == i.safeState)
  {}
}
