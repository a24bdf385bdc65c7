/** Upload, arm, disarm, activate and the layer that keeps retain layouts and program
    information in step with the engine's two buffers, as values
    (crates/plc-runtime/src/loader.rs). A package arrives parsed and with its signature
    decided; whether its code verifies is a parameter. */
module Loader {
  import opened Bytes
  import opened Ir
  import opened Vm
  import opened Sorting
  import opened RetainLayout
  import opened RetainCodec
  import opened RetainMap
  import opened RetainBlit
  import opened Mode
  import opened Scan
  import opened Schedule
  import opened History

  /** `build` identifies the package a program, its information and its layout come from. */
  datatype Info = Info(id: string, hash: string, build: nat, bumplessEligible: bool)

  datatype ArmReport = ArmReport(id: string, hash: string, retain: Report, honored: bool, downgraded: bool)

  datatype Package = Package(
    build: nat, id: string, hash: string, wantsBumpless: bool, abiOk: bool, loads: bool,
    taskEntries: map<Name, string>, retainSize: nat, symbols: seq<Symbol>, fits: bool)

  datatype RetainSnapshot = RetainSnapshot(layout: Layout, bytes: seq<byte>, hash: Option<string>)

  datatype Context = Context(names: seq<Name>, retain: Option<RetainSnapshot>, hash: Option<string>)

  datatype Prepared = Prepared(program: Armed, layout: Layout, info: Info, report: ArmReport, fits: bool)

  /** The layer above the engine. */
  datatype Rt = Rt(
    e: Engine, curLayout: Option<Layout>, armLayout: Option<Layout>, curInfo: Option<Info>, armInfo: Option<Info>,
    lastArm: Option<ArmReport>)

  // ----- preparing, away from the engine -----

  function EntriesOf(names: seq<Name>, entries: map<Name, string>): (r: Option<seq<string>>)
    ensures r.Some? ==> |r.value| == |names|
  {
    if names == [] then Some([])
    else
      var n := |names| - 1;
      var front := EntriesOf(names[..n], entries);
      if front.None? || names[n] !in entries then None else Some(front.value + [entries[names[n]]])
  }

  /** The shadow retain memory, the copies for the install, and the report; none when the
      remap is refused. */
  ghost function ShadowOf(l: Layout, snap: Option<RetainSnapshot>, force: bool): (r: Option<(Segment, seq<Copy>, Report)>)
    requires Valid(l) && (snap.Some? ==> Valid(snap.value.layout))
    ensures r.Some? ==> r.value.0.Valid() && |r.value.0.bytes| == l.size
  {
    if snap.None? then Some((ZeroSegment(l.size), [], Report(0, 0, 0, [])))
    else
      var old_, bytes := snap.value.layout, snap.value.bytes;
      if |bytes| != old_.size then None
      else if ClashesOf(l, RecordsFrom(old_, bytes)) != [] && !force then None
      else Some((ShadowImage(l, MapImage(old_, bytes, l), |l.symbols|), CopiesOf(old_, l, |l.symbols|),
                 ReportOf(l, RecordsFrom(old_, bytes), force)))
  }

  function RunningHash(ctx: Context): Option<string>
  {
    if ctx.retain.Some? && ctx.retain.value.hash.Some? then ctx.retain.value.hash else ctx.hash
  }

  ghost predicate ContextOk(ctx: Context) { ctx.retain.Some? ==> Valid(ctx.retain.value.layout) }

  function PackageLayout(p: Package): Layout { Layout(p.retainSize, Sort(ByName, p.symbols)) }

  ghost function Prepare(pkg: Option<Package>, ctx: Context, force: bool): (r: Option<Prepared>)
    requires ContextOk(ctx)
  {
    if pkg.None? || !pkg.value.abiOk then None
    else
      var p := pkg.value;
      var entries := EntriesOf(ctx.names, p.taskEntries);
      if entries.None? || !p.loads || !RetainLayout.Sound(p.retainSize, p.symbols) then None
      else
        SortedValid(p.retainSize, p.symbols);
        var l := PackageLayout(p);
        var shadow := ShadowOf(l, ctx.retain, force);
        if shadow.None? then None
        else
          var (seg, copies, report) := shadow.value;
          var honored := p.wantsBumpless && RunningHash(ctx) == Some(p.hash);
          Some(Prepared(Scan.Armed.Armed(Scan.Program.Program(p.build, seg), p.id, p.hash, entries.value, honored, copies), l,
                        Info(p.id, p.hash, p.build, honored),
                        ArmReport(p.id, p.hash, report, honored, p.wantsBumpless && !honored), p.fits))
  }

  /** Builds a package into something that can be armed, without touching the engine. */
  method PrepareArm(pkg: Option<Package>, ctx: Context, force: bool) returns (r: Option<Prepared>)
    requires ContextOk(ctx)
    ensures r == Prepare(pkg, ctx, force)
  {
    hide Sort, NameLe, ShadowImage, MapImage, CopiesOf, ReportOf, ClashesOf, RetainLayout.Sound, RecordsFrom;
    if pkg.None? || !pkg.value.abiOk { return None; }
    var p := pkg.value;
    var entries := CollectEntries(ctx.names, p.taskEntries);
    if entries.None? || !p.loads { return None; }
    var built := NewLayout(p.retainSize, p.symbols);
    if built.Rejected? { return None; }
    var shadow := InstallShadow(built.layout, ctx.retain, force);
    if shadow.None? { return None; }
    var (seg, copies, report) := shadow.value;
    var honored := p.wantsBumpless && RunningHash(ctx) == Some(p.hash);
    r := Some(Prepared(Scan.Armed.Armed(Scan.Program.Program(p.build, seg), p.id, p.hash, entries.value, honored, copies), built.layout,
                       Info(p.id, p.hash, p.build, honored),
                       ArmReport(p.id, p.hash, report, honored, p.wantsBumpless && !honored), p.fits));
  }

  method CollectEntries(names: seq<Name>, entries: map<Name, string>) returns (r: Option<seq<string>>)
    ensures r == EntriesOf(names, entries)
  {
    var out: seq<string> := [];
    for i := 0 to |names|
      invariant EntriesOf(names[..i], entries) == Some(out)
    {
      assert names[..i + 1][..i] == names[..i];
      if names[i] !in entries {
        NoEntry(names, entries, i);
        return None;
      }
      out := out + [entries[names[i]]];
    }
    assert names[..|names|] == names;
    r := Some(out);
  }

  lemma {:induction false} NoEntry(names: seq<Name>, entries: map<Name, string>, k: nat)
    requires k < |names| && names[k] !in entries
    ensures EntriesOf(names, entries).None?
    decreases |names|
  {
    var n := |names| - 1;
    if k < n {
      assert names[..n][k] == names[k];
      NoEntry(names[..n], entries, k);
    }
  }

  method InstallShadow(l: Layout, snap: Option<RetainSnapshot>, force: bool) returns (r: Option<(Segment, seq<Copy>, Report)>)
    requires Valid(l) && (snap.Some? ==> Valid(snap.value.layout))
    ensures r == ShadowOf(l, snap, force)
  {
    hide Valid, ShadowImage, MapImage, CopiesOf, ReportOf, ClashesOf, RecordsFrom, AllWide;
    if snap.None? { return Some((ZeroSegment(l.size), [], Report(0, 0, 0, []))); }
    var mapped := MapRetain(snap.value.layout, snap.value.bytes, l, force);
    if mapped.Failed? || !mapped.value.Mapped? { return None; }
    var seg := LoadRetainImage(l.size, mapped.value.image, l);
    if seg.None? { return None; }
    var copies := PlanCopies(snap.value.layout, l);
    r := Some((seg.value, copies, mapped.value.report));
  }

  // ----- the layer's operations -----

  /** After the engine ran: a swap promotes the armed layout and information. */
  function Sync(rt: Rt): Rt
  {
    if rt.e.buf.armed.Some? then rt
    else if rt.e.buf.id.Some? && rt.armLayout.Some? then
      rt.(curLayout := rt.armLayout, armLayout := None, curInfo := rt.armInfo, armInfo := None)
    else rt.(armLayout := None)
  }

  function SetPhase(rt: Rt, p: Phase): Rt { rt.(e := rt.e.(hooks := rt.e.hooks.(phase := p))) }

  function Names(c: Config): seq<Name> { seq(|c.tasks|, i requires 0 <= i < |c.tasks| => c.tasks[i].name) }

  function SnapshotRetain(rt: Rt): Option<RetainSnapshot>
  {
    if rt.curLayout.None? || rt.e.buf.program.None? then None
    else Some(RetainSnapshot(rt.curLayout.value, rt.e.buf.program.value.retain.bytes, rt.e.buf.hash))
  }

  function Begin(rt: Rt): Option<(Rt, Context)>
  {
    if rt.e.hooks.phase.Swapping? || rt.e.hooks.activate then None
    else
      var r := SetPhase(Sync(rt), Validating);
      Some((r, Context(Names(r.e.cfg), SnapshotRetain(r), r.e.buf.hash)))
  }

  function Abort(rt: Rt): Rt
  {
    if !rt.e.hooks.phase.Validating? then rt
    else SetPhase(rt, if rt.e.buf.armed.Some? then Phase.Armed else Idle)
  }

  function Commit(rt: Rt, p: Prepared): Option<Rt>
  {
    if rt.e.hooks.phase.Swapping? then None
    else
      var e := Arm(rt.e, p.program, p.fits);
      if e.None? then None
      else Some(rt.(e := e.value, armLayout := Some(p.layout), armInfo := Some(p.info), lastArm := Some(p.report)))
  }

  /** Result: the layer afterwards and whether the package was armed. */
  ghost function Upload(rt: Rt, pkg: Option<Package>, force: bool): (Rt, bool)
    requires rt.curLayout.Some? ==> Valid(rt.curLayout.value)
    requires rt.armLayout.Some? ==> Valid(rt.armLayout.value)
  {
    match Begin(rt)
    case None => (rt, false)
    case Some((r, ctx)) =>
      match Prepare(pkg, ctx, force)
      case None => (Abort(r), false)
      case Some(p) => if Commit(r, p).Some? then (Commit(r, p).value, true) else (r, false)
  }

  function DisarmAll(rt: Rt): Option<Rt>
  {
    var e := Disarm(rt.e);
    if e.None? then None else Some(rt.(e := e.value, armLayout := None, armInfo := None, lastArm := None))
  }

  function Activate(rt: Rt): Option<(Rt, ActivateRequest)>
  {
    var q := RequestActivate(rt.e);
    if q.None? then None
    else
      var (e, req) := q.value;
      Some((if req.NoOp? then rt.(e := e, armLayout := None, armInfo := None, lastArm := None) else rt.(e := e), req))
  }

  /** What the engine does by itself in a step or a round. */
  ghost predicate Scanning(evs: seq<Event>)
  {
    EventsOk(evs) && forall ev :: ev in evs ==> ev.Boundary? || ev.Install? || ev.RunPicked?
  }

  ghost function Round(rt: Rt, evs: seq<Event>): (r: Rt)
    requires Steady(rt.e) && Scanning(evs)
    ensures r.e == After(rt.e, evs) && Steady(r.e)
  {
    Sync(rt.(e := After(rt.e, evs)))
  }

  // ----- coupling -----

  /** The information, the layout and the program are of one package, and the layout fits
      the program's retain memory. */
  ghost predicate Describes(catalog: nat -> Layout, l: Option<Layout>, info: Option<Info>, id: string, hash: string, p: Program)
  {
    && l.Some? && info.Some? && info.value.id == id && info.value.hash == hash && info.value.build == p.build
    && l.value == catalog(p.build) && Valid(l.value) && p.retain.Valid() && |p.retain.bytes| == l.value.size
  }

  /** The layer describes both of the engine's buffers. */
  ghost predicate Coupled(catalog: nat -> Layout, rt: Rt)
  {
    var b := rt.e.buf;
    && Steady(rt.e) && !rt.e.hooks.phase.Swapping?
    && (b.armed.Some? ==> Describes(catalog, rt.armLayout, rt.armInfo, b.armed.value.id, b.armed.value.hash, b.armed.value.program))
    && (b.armed.None? ==> rt.armLayout.None? && rt.armInfo.None? && !rt.e.hooks.activate && !rt.e.hooks.phase.Armed?)
    && (b.program.Some? <==> b.id.Some?) && (b.id.Some? <==> b.hash.Some?)
    && (b.program.Some? ==> Describes(catalog, rt.curLayout, rt.curInfo, b.id.value, b.hash.value, b.program.value))
    && (b.program.None? ==> rt.curLayout.None? && rt.curInfo.None?)
  }

  /** Something prepared from one package of the catalogue. */
  ghost predicate PreparedOk(catalog: nat -> Layout, p: Prepared)
  {
    Describes(catalog, Some(p.layout), Some(p.info), p.program.id, p.program.hash, p.program.program)
  }

  /** Preparation yields exactly what one package says. */
  lemma PrepareOk(catalog: nat -> Layout, pkg: Option<Package>, ctx: Context, force: bool)
    requires ContextOk(ctx) && Prepare(pkg, ctx, force).Some? && catalog(pkg.value.build) == PackageLayout(pkg.value)
    ensures PreparedOk(catalog, Prepare(pkg, ctx, force).value)
    ensures |Prepare(pkg, ctx, force).value.program.entries| == |ctx.names|
  {
    hide ShadowImage, MapImage, CopiesOf, Sort;
    SortedValid(pkg.value.retainSize, pkg.value.symbols);
  }

  lemma SyncCoupled(catalog: nat -> Layout, rt: Rt)
    requires Coupled(catalog, rt)
    ensures Sync(rt) == rt
  {}

  /** What a scanning event does to the buffers and the cells. */
  lemma ScanEvent(e: Engine, ev: Event)
    requires Steady(e) && Scanning([ev]) && !e.hooks.phase.Swapping? && (e.hooks.activate ==> e.buf.armed.Some?)
    ensures EventOk(ev) && Steady(Apply(e, ev))
    ensures var r := Apply(e, ev);
            || (SameProgram(e.buf, r.buf) && SameCells(e.hooks, r.hooks))
            || InstallTry(e, r)
  {
    hide Invoke, TryInstall, PickDue, BuffersFit, ConfigOk, Shaped, SameProgram, InstallTry;
    assert ev in [ev];
    ApplySteady(e, ev);
    if ev.RunPicked? {
      PickIsHighest(e, ev.now);
      if PickDue(e, ev.now).Some? {
        InvokeBuffers(e, PickDue(e, ev.now).value, ev.tick);
      } else {
        SameSelf(e);
      }
    } else if ev.Install? {
      InstallEvent(e, ev.c);
      if TryInstall(e, ev.c).0 == e { SameSelf(e); }
    } else {
      SameSelf(e);
      BoundaryBuffers(e);
    }
  }

  lemma SameSelf(e: Engine) ensures SameProgram(e.buf, e.buf) && SameCells(e.hooks, e.hooks) {}

  lemma BoundaryBuffers(e: Engine)
    ensures ModeBoundary(e).buf == e.buf && ModeBoundary(e).hooks == e.hooks
  {
    hide ApplyPending;
  }

  /** An attempted install: refused or deferred it keeps buffer B with the copies made so
      far; completed it moves buffer B over. */
  ghost predicate InstallTry(e: Engine, r: Engine)
    requires BuffersFit(e)
  {
    && e.buf.armed.Some? && !r.hooks.activate
    && var b := Blitted(e.buf.armed.value, e.buf.program).0;
       || (r.buf.armed == Some(b) && r.buf.program == e.buf.program && r.buf.id == e.buf.id && r.buf.hash == e.buf.hash
           && (r.hooks.phase.Armed? || r.hooks.phase.Idle?))
       || (r.buf.armed == None && r.buf.program == Some(b.program) && r.buf.id == Some(b.id) && r.buf.hash == Some(b.hash)
           && r.hooks.phase.Idle?)
  }

  lemma InstallEvent(e: Engine, c: Readings)
    requires Shaped(e) && BuffersFit(e)
    ensures var r := TryInstall(e, c).0; r == e || InstallTry(e, r)
  {
    hide SkipDue, Shaped, Blitted;
  }

  /** Blitting keeps everything but retain bytes. */
  lemma BlitKeeps(a: Armed, p: Option<Program>)
    requires a.program.retain.Valid() && (p.Some? ==> p.value.retain.Valid())
    ensures var b := Blitted(a, p).0;
            b == a.(program := a.program.(retain := b.program.retain))
            && b.program.retain.Valid() && |b.program.retain.bytes| == |a.program.retain.bytes|
  {
    hide CopyUntil;
  }

  lemma OneScanCoupled(catalog: nat -> Layout, rt: Rt, ev: Event)
    requires Coupled(catalog, rt) && Scanning([ev])
    ensures EventOk(ev) && Coupled(catalog, Sync(rt.(e := Apply(rt.e, ev))))
  {
    hide Apply, Blitted, Shaped, ConfigOk;
    ScanEvent(rt.e, ev);
    if rt.e.buf.armed.Some? { BlitKeeps(rt.e.buf.armed.value, rt.e.buf.program); }
  }

  /** Once nothing waits, scanning swaps nothing more. */
  lemma NothingWaits(e: Engine, ev: Event)
    requires Steady(e) && Scanning([ev]) && e.buf.armed.None?
    ensures EventOk(ev)
    ensures Apply(e, ev).buf.armed.None? && Apply(e, ev).buf.id == e.buf.id
  {
    hide Invoke, TryInstall, PickDue, BuffersFit, ConfigOk, Shaped;
    assert ev in [ev];
    if ev.RunPicked? {
      PickIsHighest(e, ev.now);
      if PickDue(e, ev.now).Some? { InvokeBuffers(e, PickDue(e, ev.now).value, ev.tick); }
    } else if ev.Install? {
      InstallEvent(e, ev.c);
    } else {
      BoundaryBuffers(e);
    }
  }

  ghost function OneMore(rt: Rt, ev: Event): Rt
    requires Steady(rt.e) && EventOk(ev)
  {
    Sync(rt.(e := Apply(rt.e, ev)))
  }

  /** Synchronising once after a round is as good as after every event. */
  lemma RoundSplit(rt: Rt, evs: seq<Event>, ev: Event)
    requires Steady(rt.e) && Scanning(evs) && Scanning([ev]) && Scanning(evs + [ev]) && EventOk(ev)
    ensures Round(rt, evs + [ev]) == OneMore(Round(rt, evs), ev)
  {
    hide Apply, Steady, EventOk;
    assert (evs + [ev])[..|evs|] == evs;
    if After(rt.e, evs).buf.armed.None? { NothingWaits(After(rt.e, evs), ev); }
  }

  lemma OneOfThem(evs: seq<Event>, n: nat)
    requires Scanning(evs) && n < |evs|
    ensures EventOk(evs[n]) && Scanning([evs[n]])
  {
    hide EventOk;
    assert evs[n] in evs;
  }

  lemma {:induction false} RoundCoupled(catalog: nat -> Layout, rt: Rt, evs: seq<Event>)
    requires Coupled(catalog, rt) && Scanning(evs)
    ensures Coupled(catalog, Round(rt, evs))
  {
    hide Sync, Apply, EventOk;
    if evs == [] {
      SyncCoupled(catalog, rt);
    } else {
      var n := |evs| - 1;
      RoundCoupled(catalog, rt, evs[..n]);
      assert evs == evs[..n] + [evs[n]];
      assert evs[n] in evs;
      OneOfThem(evs, n);
      RoundSplit(rt, evs[..n], evs[n]);
      OneScanCoupled(catalog, Round(rt, evs[..n]), evs[n]);
    }
  }

  // ----- whole runs -----

  datatype Op =
    | UploadOp(pkg: Option<Package>, force: bool)
    | BeginOp
    | AbortOp
    | CommitOp(prepared: Prepared)
    | DisarmOp
    | ActivateOp
    | RoundOp(events: seq<Event>)
    | ModeOp(req: ModeRequest)
    | ForceOp(slot: nat, value: PlcValue)
    | UnforceOp(slot: nat)

  ghost predicate OpOk(catalog: nat -> Layout, op: Op)
  {
    && (op.UploadOp? && op.pkg.Some? ==> catalog(op.pkg.value.build) == PackageLayout(op.pkg.value))
    && (op.CommitOp? ==> PreparedOk(catalog, op.prepared))
    && (op.RoundOp? ==> Scanning(op.events))
  }

  /** A refused call leaves everything alone. */
  ghost function Do(catalog: nat -> Layout, rt: Rt, op: Op): Rt
    requires Coupled(catalog, rt) && OpOk(catalog, op)
  {
    match op
    case UploadOp(pkg, force) => Upload(rt, pkg, force).0
    case BeginOp => if Begin(rt).Some? then Begin(rt).value.0 else rt
    case AbortOp => Abort(rt)
    case CommitOp(p) => if Commit(rt, p).Some? then Commit(rt, p).value else rt
    case DisarmOp => if DisarmAll(rt).Some? then DisarmAll(rt).value else rt
    case ActivateOp => if Activate(rt).Some? then Activate(rt).value.0 else rt
    case RoundOp(evs) => Round(rt, evs)
    case ModeOp(req) => rt.(e := Ask(rt.e, req))
    case ForceOp(i, v) => rt.(e := rt.e.(io := rt.e.io.(forces := rt.e.io.forces[i := v])))
    case UnforceOp(i) => rt.(e := rt.e.(io := rt.e.io.(forces := rt.e.io.forces - {i})))
  }

  lemma BeginCoupled(catalog: nat -> Layout, rt: Rt)
    requires Coupled(catalog, rt) && Begin(rt).Some?
    ensures var (r, ctx) := Begin(rt).value;
            && r == SetPhase(rt, Validating) && Coupled(catalog, r) && ContextOk(ctx)
            && |ctx.names| == |rt.e.cfg.tasks| && ctx.hash == rt.e.buf.hash && ctx.retain == SnapshotRetain(rt)
            && (ctx.retain.Some? <==> rt.curLayout.Some?)
  {}

  lemma CommitCoupled(catalog: nat -> Layout, rt: Rt, p: Prepared)
    requires Coupled(catalog, rt) && PreparedOk(catalog, p) && Commit(rt, p).Some?
    ensures Coupled(catalog, Commit(rt, p).value)
  {
    hide ConfigOk;
  }

  lemma UploadCoupled(catalog: nat -> Layout, rt: Rt, pkg: Option<Package>, force: bool)
    requires Coupled(catalog, rt) && (pkg.Some? ==> catalog(pkg.value.build) == PackageLayout(pkg.value))
    ensures Coupled(catalog, Upload(rt, pkg, force).0)
  {
    hide Prepare, Begin, Commit;
    if Begin(rt).Some? {
      BeginCoupled(catalog, rt);
      var (r, ctx) := Begin(rt).value;
      var p := Prepare(pkg, ctx, force);
      if p.Some? {
        NoPackage(pkg, ctx, force);
        PrepareOk(catalog, pkg, ctx, force);
        if Commit(r, p.value).Some? { CommitCoupled(catalog, r, p.value); }
      }
    }
  }

  lemma NoPackage(pkg: Option<Package>, ctx: Context, force: bool)
    requires ContextOk(ctx)
    ensures Prepare(pkg, ctx, force).Some? ==> pkg.Some?
  {}

  lemma DoCoupled(catalog: nat -> Layout, rt: Rt, op: Op)
    requires Coupled(catalog, rt) && OpOk(catalog, op)
    ensures Coupled(catalog, Do(catalog, rt, op))
  {
    hide Prepare, Upload, Round, Begin, Commit, Coupled, Abort, DisarmAll, Activate;
    match op
    case UploadOp(pkg, force) => UploadCoupled(catalog, rt, pkg, force);
    case BeginOp => if Begin(rt).Some? { BeginCoupled(catalog, rt); }
    case CommitOp(p) => if Commit(rt, p).Some? { CommitCoupled(catalog, rt, p); }
    case RoundOp(evs) => RoundCoupled(catalog, rt, evs);
    case _ => CellsCoupled(catalog, rt, op);
  }

  lemma CellsCoupled(catalog: nat -> Layout, rt: Rt, op: Op)
    requires Coupled(catalog, rt) && !op.UploadOp? && !op.BeginOp? && !op.CommitOp? && !op.RoundOp?
    ensures OpOk(catalog, op) && Coupled(catalog, Do(catalog, rt, op))
  {
    hide ConfigOk, Describes;
  }

  ghost predicate OpsOk(catalog: nat -> Layout, ops: seq<Op>) { forall op :: op in ops ==> OpOk(catalog, op) }

  ghost function Run(catalog: nat -> Layout, rt: Rt, ops: seq<Op>): (r: Rt)
    requires Coupled(catalog, rt) && OpsOk(catalog, ops)
    ensures Coupled(catalog, r)
  {
    if ops == [] then rt
    else
      var n := |ops| - 1;
      var before := Run(catalog, rt, ops[..n]);
      DoCoupled(catalog, before, ops[n]);
      Do(catalog, before, ops[n])
  }

  /** A layer over a newly constructed engine without a program is coupled. */
  lemma NewCoupled(catalog: nat -> Layout, e: Engine)
    requires Steady(e) && e.buf.armed.None? && e.buf.program.None? && e.buf.id.None? && e.buf.hash.None?
    requires e.hooks.phase.Idle? && !e.hooks.activate
    ensures Coupled(catalog, Rt(e, None, None, None, None, None))
  {}

  // ----- refusals -----

  /** An upload that fails changes nothing but the phase: not the running program, buffer B,
      the mode, the outputs, the layouts or the last report. A refused package puts the
      phase back by whether buffer B is occupied; a refused arm leaves it validating. */
  lemma UploadRefused(catalog: nat -> Layout, rt: Rt, pkg: Option<Package>, force: bool)
    requires Coupled(catalog, rt)
    ensures var (r, ok) := Upload(rt, pkg, force);
            !ok ==> r == SetPhase(rt, r.e.hooks.phase)
                    && r.e.hooks.phase == if Begin(rt).None? then rt.e.hooks.phase
                                          else if Prepare(pkg, Begin(rt).value.1, force).Some? then Validating
                                          else if rt.e.buf.armed.Some? then Phase.Armed else Idle
  {
    hide Prepare, Coupled;
    SyncCoupled(catalog, rt);
    if Begin(rt).Some? { BeginCoupled(catalog, rt); }
  }

  /** An upload succeeds exactly when no swap is requested, the package builds and the image
      fits; then buffer B is the package and the running program is as before. */
  lemma UploadAccepted(catalog: nat -> Layout, rt: Rt, pkg: Option<Package>, force: bool)
    requires Coupled(catalog, rt) && (pkg.Some? ==> catalog(pkg.value.build) == PackageLayout(pkg.value))
    ensures var (r, ok) := Upload(rt, pkg, force);
            && (ok <==> !rt.e.hooks.activate
                        && Prepare(pkg, Context(Names(rt.e.cfg), SnapshotRetain(rt), rt.e.buf.hash), force).Some? && pkg.value.fits)
            && (ok ==> && r.e.buf.armed.Some? && r.e.buf.armed.value.id == pkg.value.id && r.e.buf.armed.value.hash == pkg.value.hash
                       && r.e.buf.armed.value.program.build == pkg.value.build && r.armLayout == Some(PackageLayout(pkg.value))
                       && r.e.buf == rt.e.buf.(armed := r.e.buf.armed) && r.e.modes == rt.e.modes && r.e.io == rt.e.io
                       && r.e.sched == rt.e.sched && r.e.hooks.phase.Armed? && !r.e.hooks.activate && r.e.cfg == rt.e.cfg
                       && r.curLayout == rt.curLayout && r.curInfo == rt.curInfo)
  {
    hide Prepare, ConfigOk;
    SyncCoupled(catalog, rt);
    if Begin(rt).Some? {
      BeginCoupled(catalog, rt);
      var ctx := Begin(rt).value.1;
      NoPackage(pkg, ctx, force);
      if Prepare(pkg, ctx, force).Some? {
        PrepareOk(catalog, pkg, ctx, force);
        PrepareFits(pkg, ctx, force);
      }
    }
  }

  lemma PrepareFits(pkg: Option<Package>, ctx: Context, force: bool)
    requires ContextOk(ctx) && Prepare(pkg, ctx, force).Some?
    ensures var p := Prepare(pkg, ctx, force).value;
            p.fits == pkg.value.fits && p.program.id == pkg.value.id && p.program.hash == pkg.value.hash
            && p.program.program.build == pkg.value.build && p.layout == PackageLayout(pkg.value)
  {}

  /** A deferred or refused install changes no current program, layout, information, mode or
      output, and what waits stays as it was but for bytes of its retain memory. */
  lemma DeferredKeeps(catalog: nat -> Layout, rt: Rt, c: Readings)
    requires Coupled(catalog, rt) && !TryInstall(rt.e, c).1.Installed? && !TryInstall(rt.e, c).1.Faulted?
    ensures var r := Sync(rt.(e := TryInstall(rt.e, c).0));
            && r.e.buf.program == rt.e.buf.program && r.e.buf.id == rt.e.buf.id && r.e.buf.hash == rt.e.buf.hash
            && r.e.buf.entries == rt.e.buf.entries && r.e.modes == rt.e.modes && r.e.io == rt.e.io && r.e.sched == rt.e.sched
            && r == rt.(e := r.e)
            && (rt.e.buf.armed.Some? ==>
                  && r.e.buf.armed.Some?
                  && var a, b := rt.e.buf.armed.value, r.e.buf.armed.value;
                     b == a.(program := a.program.(retain := b.program.retain))
                     && b.program.retain.Valid() && |b.program.retain.bytes| == |a.program.retain.bytes|)
            && (rt.e.buf.armed.None? ==> r.e.buf.armed.None?)
  {
    hide Shaped, ConfigOk, Blitted;
    if rt.e.buf.armed.Some? { BlitKeeps(rt.e.buf.armed.value, rt.e.buf.program); }
  }

  // ----- retained memory across a swap -----

  /** Buffer B's shadow and copies are for the layout of the program that runs now. */
  ghost predicate PlannedFor(cur: Option<Layout>, l: Layout, a: Armed)
  {
    if cur.None? then a.copies == []
    else a.copies == CopiesOf(cur.value, l, |l.symbols|) && Shadow(cur.value, l, a.program.retain)
  }

  ghost predicate Matched(rt: Rt)
  {
    rt.e.buf.armed.Some? && rt.armLayout.Some? ==> PlannedFor(rt.curLayout, rt.armLayout.value, rt.e.buf.armed.value)
  }

  /** Preparation plans for the layout in its context. */
  lemma PreparePlans(pkg: Option<Package>, ctx: Context, force: bool)
    requires ContextOk(ctx) && Prepare(pkg, ctx, force).Some?
    ensures var p := Prepare(pkg, ctx, force).value;
            PlannedFor(if ctx.retain.Some? then Some(ctx.retain.value.layout) else None, p.layout, p.program)
  {
    hide ShadowImage, MapImage, CopiesOf, Sort, Shadow;
    SortedValid(pkg.value.retainSize, pkg.value.symbols);
    if ctx.retain.Some? {
      ShadowInstalled(ctx.retain.value.layout, ctx.retain.value.bytes, PackageLayout(pkg.value));
    }
  }

  /** The install's copies, done over the live bytes of the running program. */
  lemma BlitPlanned(cur: Option<Layout>, l: Layout, a: Armed, p: Option<Program>)
    requires (p.Some? <==> cur.Some?) && PlannedFor(cur, l, a) && a.program.retain.Valid() && Valid(l)
    requires p.Some? ==> p.value.retain.Valid() && Valid(cur.value) && |p.value.retain.bytes| == cur.value.size
    ensures var (b, ok) := Blitted(a, p);
            && ok && PlannedFor(cur, l, b)
            && (p.Some? ==> b.program.retain.bytes == MapImage(cur.value, p.value.retain.bytes, l))
  {
    hide Valid, MapImage, Shadow, CopyUntil, CopyAll, CopiesOf;
    if p.Some? {
      var live := p.value.retain;
      CopiesFit(cur.value, l, |l.symbols|);
      ShadowSize(cur.value, l, a.program.retain);
      CopyUntilAll(a.program.retain, live, a.copies);
      ShadowStays(cur.value, l, a.program.retain, live);
      ShadowSwap(cur.value, l, a.program.retain, live);
    }
  }

  lemma ShadowSize(old_: Layout, new_: Layout, seg: Segment)
    requires Shadow(old_, new_, seg)
    ensures seg.Valid() && |seg.bytes| == new_.size
  {}

  /** While buffer B is planned for the running program, an install cannot fault, and a
      completed one leaves in retain memory exactly the remap of the bytes that were live at
      that moment, with the layout of the new program now current. */
  lemma InstallRemaps(catalog: nat -> Layout, rt: Rt, c: Readings)
    requires Coupled(catalog, rt) && Matched(rt)
    ensures var (e, o) := TryInstall(rt.e, c);
            && !o.Faulted?
            && (o.Installed? ==>
                  && rt.armLayout.Some? && e.buf.program.Some? && Sync(rt.(e := e)).curLayout == rt.armLayout
                  && Sync(rt.(e := e)).curInfo == rt.armInfo
                  && (rt.curLayout.Some? ==>
                        e.buf.program.value.retain.bytes == MapImage(rt.curLayout.value, rt.e.buf.program.value.retain.bytes, rt.armLayout.value)))
  {
    hide Shaped, ConfigOk, PlannedFor, MapImage, Blitted, SkipDue;
    if rt.e.buf.armed.Some? {
      BlitPlanned(rt.curLayout, rt.armLayout.value, rt.e.buf.armed.value, rt.e.buf.program);
    }
  }

  lemma OneScanMatched(catalog: nat -> Layout, rt: Rt, ev: Event)
    requires Coupled(catalog, rt) && Matched(rt) && Scanning([ev])
    ensures EventOk(ev) && Matched(Sync(rt.(e := Apply(rt.e, ev))))
  {
    hide Apply, Blitted, Shaped, ConfigOk, PlannedFor;
    ScanEvent(rt.e, ev);
    if rt.e.buf.armed.Some? {
      BlitKeeps(rt.e.buf.armed.value, rt.e.buf.program);
      BlitPlanned(rt.curLayout, rt.armLayout.value, rt.e.buf.armed.value, rt.e.buf.program);
    }
  }

  lemma {:induction false} RoundMatched(catalog: nat -> Layout, rt: Rt, evs: seq<Event>)
    requires Coupled(catalog, rt) && Matched(rt) && Scanning(evs)
    ensures Coupled(catalog, Round(rt, evs)) && Matched(Round(rt, evs))
  {
    hide Sync, Apply, EventOk, Matched;
    RoundCoupled(catalog, rt, evs);
    if evs == [] {
      SyncCoupled(catalog, rt);
    } else {
      var n := |evs| - 1;
      RoundMatched(catalog, rt, evs[..n]);
      assert evs == evs[..n] + [evs[n]];
      assert evs[n] in evs;
      OneOfThem(evs, n);
      RoundSplit(rt, evs[..n], evs[n]);
      OneScanMatched(catalog, Round(rt, evs[..n]), evs[n]);
    }
  }

  lemma UploadMatched(catalog: nat -> Layout, rt: Rt, pkg: Option<Package>, force: bool)
    requires Coupled(catalog, rt) && Matched(rt)
    ensures Matched(Upload(rt, pkg, force).0)
  {
    hide Prepare, PlannedFor, ConfigOk;
    SyncCoupled(catalog, rt);
    if Begin(rt).Some? {
      BeginCoupled(catalog, rt);
      var ctx := Begin(rt).value.1;
      if Prepare(pkg, ctx, force).Some? { PreparePlans(pkg, ctx, force); }
    }
  }

  /** A separate commit keeps the plan right when what it commits was prepared for the
      layout that is current at the commit: no swap since the begin. */
  lemma DoMatched(catalog: nat -> Layout, rt: Rt, op: Op)
    requires Coupled(catalog, rt) && Matched(rt) && OpOk(catalog, op)
    requires op.CommitOp? ==> PlannedFor(rt.curLayout, op.prepared.layout, op.prepared.program)
    ensures Matched(Do(catalog, rt, op))
  {
    hide Prepare, Upload, Round, PlannedFor, ConfigOk;
    match op
    case UploadOp(pkg, force) => UploadMatched(catalog, rt, pkg, force);
    case BeginOp => if Begin(rt).Some? { BeginCoupled(catalog, rt); }
    case RoundOp(evs) => RoundMatched(catalog, rt, evs);
    case _ =>
  }

  /** Over every run in which programs are armed by uploads, buffer B is planned for the
      running program, so every swap remaps. */
  lemma {:induction false} UploadsAlwaysMatch(catalog: nat -> Layout, rt: Rt, ops: seq<Op>)
    requires Coupled(catalog, rt) && Matched(rt) && OpsOk(catalog, ops) && forall op :: op in ops ==> !op.CommitOp?
    ensures Matched(Run(catalog, rt, ops))
  {
    hide Do, Matched, OpOk;
    if ops != [] {
      var n := |ops| - 1;
      UploadsAlwaysMatch(catalog, rt, ops[..n]);
      DoMatched(catalog, Run(catalog, rt, ops[..n]), ops[n]);
    }
  }
}
