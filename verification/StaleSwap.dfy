/** A swap between `begin_arm` and `commit_arm`: what is then committed was planned for a
    layout that no longer runs (crates/plc-runtime/src/loader.rs). */
module StaleSwap {
  import opened Ir
  import opened Vm
  import opened Sorting
  import opened RetainLayout
  import opened RetainMap
  import opened RetainBlit
  import opened Mode
  import opened Scan
  import opened Schedule
  import opened History
  import opened Loader

  /** The only task is due at the reading, and the install fits its period. */
  ghost predicate DueNow(e: Engine, c: Readings)
  {
    && Shaped(e) && |e.cfg.tasks| == 1 && PickDue(e, c.ready) == Some(e.cfg.order[0])
    && InstallUs(e.cfg, c.elapsedUs) < MinPeriod(e.cfg.tasks) * 1000
  }

  lemma DueStays(e: Engine, f: Engine, c: Readings)
    requires DueNow(e, c) && Shaped(f) && f.cfg == e.cfg && f.sched.due == e.sched.due
    ensures DueNow(f, c)
  {}

  /** With one task an install skips nothing. */
  lemma NothingSkipped(e: Engine, now: nat)
    requires Shaped(e) && |e.cfg.tasks| == 1
    ensures SkipDue(e.cfg, e.sched, now).due == e.sched.due
  {
    assert e.cfg.order[0] == 0;
  }

  /** What waits is swapped in: a round with one install, all of whose copies fit. */
  lemma SwapRound(catalog: nat -> Layout, rt: Rt, c: Readings)
    requires Coupled(catalog, rt) && DueNow(rt.e, c) && rt.e.hooks.activate && rt.e.buf.armed.Some?
    requires Blitted(rt.e.buf.armed.value, rt.e.buf.program).1
    ensures Scanning([Install(c)]) && Coupled(catalog, Round(rt, [Install(c)])) && TryInstall(rt.e, c).1.Installed?
    ensures Do(catalog, rt, RoundOp([Install(c)])) == Round(rt, [Install(c)]) && Round(rt, [Install(c)]).e == TryInstall(rt.e, c).0
    ensures var r, a := Round(rt, [Install(c)]), Blitted(rt.e.buf.armed.value, rt.e.buf.program).0;
            && r.e.buf.program == Some(a.program) && r.e.buf.id == Some(a.id) && r.e.buf.hash == Some(a.hash)
            && r.e.buf.armed.None? && r.curLayout == rt.armLayout && r.curInfo == rt.armInfo && !r.e.hooks.activate
            && r.e.cfg == rt.e.cfg && DueNow(r.e, c)
  {
    hide Blitted, SkipDue, PickDue, ConfigOk, MinPeriod, InstallUs;
    var evs := [Install(c)];
    assert evs[..0] == [];
    RoundCoupled(catalog, rt, evs);
    NothingSkipped(rt.e, c.commit);
    OneEventAfter(rt.e, c);
    var r := Round(rt, evs);
    assert r.e.sched.due == rt.e.sched.due;
    DueStays(rt.e, r.e, c);
  }

  lemma OneEventAfter(e: Engine, c: Readings)
    requires Steady(e)
    ensures EventsOk([Install(c)]) && After(e, [Install(c)]) == TryInstall(e, c).0
  {
    hide TryInstall;
    var evs := [Install(c)];
    assert evs[..0] == [] && evs[0] == Install(c);
  }

  /** A swap is requested for what waits, unless it runs already. */
  lemma RequestStep(catalog: nat -> Layout, rt: Rt)
    requires Coupled(catalog, rt) && rt.e.buf.armed.Some? && !IsCurrent(rt.e.buf, rt.e.buf.armed.value)
    ensures Do(catalog, rt, ActivateOp) == rt.(e := rt.e.(hooks := rt.e.hooks.(activate := true)))
    ensures Coupled(catalog, Do(catalog, rt, ActivateOp))
  {
    DoCoupled(catalog, rt, ActivateOp);
  }

  // ----- the run -----

  function ContextNow(rt: Rt): Context { Context(Names(rt.e.cfg), SnapshotRetain(rt), rt.e.buf.hash) }

  /** A layer with a running program, nothing waiting, and two packages to come. */
  ghost predicate Scene(catalog: nat -> Layout, rt: Rt, first: Package, second: Package, c: Readings)
  {
    && Coupled(catalog, rt) && rt.curLayout.Some? && rt.e.buf.armed.None? && DueNow(rt.e, c)
    && catalog(first.build) == PackageLayout(first) && catalog(second.build) == PackageLayout(second)
    && first.fits && second.fits && rt.e.buf.id != Some(first.id) && first.id != second.id
    && ContextOk(ContextNow(rt))
    && Prepare(Some(first), ContextNow(rt), true).Some? && Prepare(Some(second), ContextNow(rt), true).Some?
  }

  function UpToSwap(first: Package, c: Readings): seq<Op>
  {
    [UploadOp(Some(first), true), BeginOp, ActivateOp, RoundOp([Install(c)])]
  }

  /** A package is uploaded; another arm begins; the uploaded one is swapped in; then what was
      prepared at the begin is committed and swapped in. */
  function Ops(first: Package, p: Prepared, c: Readings): seq<Op>
  {
    UpToSwap(first, c) + [CommitOp(p)] + [ActivateOp] + [RoundOp([Install(c)])]
  }

  lemma RunStep(catalog: nat -> Layout, rt: Rt, ops: seq<Op>, op: Op, r: Rt)
    requires Coupled(catalog, rt) && OpsOk(catalog, ops) && OpOk(catalog, op) && r == Loader.Run(catalog, rt, ops)
    ensures OpsOk(catalog, ops + [op]) && Loader.Run(catalog, rt, ops + [op]) == Do(catalog, r, op)
  {
    OpsStep(catalog, ops, op);
    hide Do, OpOk, OpsOk, Coupled;
    assert (ops + [op])[..|ops|] == ops && (ops + [op])[|ops|] == op;
  }

  lemma OpsStep(catalog: nat -> Layout, ops: seq<Op>, op: Op)
    requires OpsOk(catalog, ops) && OpOk(catalog, op)
    ensures OpsOk(catalog, ops + [op])
  {
    hide OpOk;
  }

  /** The uploaded package waits; the program that runs, and what a begin sees, are as before. */
  lemma Uploaded(catalog: nat -> Layout, rt: Rt, first: Package, second: Package, c: Readings) returns (m: Rt)
    requires Scene(catalog, rt, first, second, c)
    ensures var op := UploadOp(Some(first), true); OpOk(catalog, op) && m == Do(catalog, rt, op)
    ensures Coupled(catalog, m) && Matched(m) && !m.e.hooks.activate && m.e.buf.armed.Some? && m.armLayout == Some(PackageLayout(first))
    ensures m.e.buf.armed.value.id == first.id && m.e.buf.id == rt.e.buf.id && m.e.buf.program == rt.e.buf.program
    ensures m.e.cfg == rt.e.cfg && m.curLayout == rt.curLayout && ContextNow(m) == ContextNow(rt) && DueNow(m.e, c)
  {
    hide Prepare, Coupled, PlannedFor, Upload, Sort, DueNow;
    var op := UploadOp(Some(first), true);
    SceneFacts(catalog, rt, first, second, c);
    UploadAccepted(catalog, rt, Some(first), true);
    DoCoupled(catalog, rt, op);
    DoMatched(catalog, rt, op);
    m := Do(catalog, rt, op);
    CoupledShape(catalog, m);
    DueStays(rt.e, m.e, c);
  }

  lemma SceneFacts(catalog: nat -> Layout, rt: Rt, first: Package, second: Package, c: Readings)
    requires Scene(catalog, rt, first, second, c)
    ensures Coupled(catalog, rt) && Matched(rt) && !rt.e.hooks.activate && rt.e.buf.program.Some? && rt.curLayout.Some?
    ensures Valid(rt.curLayout.value) && |rt.e.buf.program.value.retain.bytes| == rt.curLayout.value.size
    ensures OpOk(catalog, UploadOp(Some(first), true)) && rt.e.buf.id != Some(first.id) && first.id != second.id && |rt.e.cfg.tasks| == 1
  {
    hide Prepare, Valid, Sort, PickDue;
  }

  lemma CoupledShape(catalog: nat -> Layout, rt: Rt)
    requires Coupled(catalog, rt)
    ensures Shaped(rt.e) && Steady(rt.e)
  {}

  /** What the begin's context prepares from the second package. */
  lemma SecondPrepared(catalog: nat -> Layout, rt: Rt, first: Package, second: Package, c: Readings) returns (p: Prepared)
    requires Scene(catalog, rt, first, second, c)
    ensures Prepare(Some(second), ContextNow(rt), true) == Some(p)
    ensures PreparedOk(catalog, p) && p.layout == PackageLayout(second) && p.program.id == second.id && p.fits
    ensures PlannedFor(rt.curLayout, p.layout, p.program) && |p.program.entries| == |rt.e.cfg.tasks|
  {
    hide Prepare, PlannedFor, Sort, PreparedOk, Coupled;
    var ctx := ContextNow(rt);
    p := Prepare(Some(second), ctx, true).value;
    PrepareOk(catalog, Some(second), ctx, true);
    PrepareFits(Some(second), ctx, true);
    PreparePlans(Some(second), ctx, true);
    SnapshotThere(catalog, rt);
  }

  lemma SnapshotThere(catalog: nat -> Layout, rt: Rt)
    requires Coupled(catalog, rt) && rt.curLayout.Some?
    ensures SnapshotRetain(rt).Some? && SnapshotRetain(rt).value.layout == rt.curLayout.value
  {}

  lemma BeginStep(catalog: nat -> Layout, rt: Rt)
    requires Coupled(catalog, rt) && !rt.e.hooks.activate
    ensures Begin(rt) == Some((SetPhase(rt, Validating), ContextNow(rt)))
    ensures Do(catalog, rt, BeginOp) == SetPhase(rt, Validating) && Coupled(catalog, SetPhase(rt, Validating))
  {
    DoCoupled(catalog, rt, BeginOp);
    SyncCoupled(catalog, rt);
  }

  /** While buffer B is planned for the running program all copies fit. */
  lemma MatchedFits(catalog: nat -> Layout, rt: Rt)
    requires Coupled(catalog, rt) && Matched(rt) && rt.e.buf.armed.Some?
    ensures BuffersFit(rt.e) && Blitted(rt.e.buf.armed.value, rt.e.buf.program).1
  {
    hide PlannedFor, Blitted, MapImage, Valid;
    BlitPlanned(rt.curLayout, rt.armLayout.value, rt.e.buf.armed.value, rt.e.buf.program);
  }

  /** A begin and a request change nothing that an install looks at. */
  lemma SameWaits(catalog: nat -> Layout, rt: Rt, r: Rt, c: Readings)
    requires Coupled(catalog, rt) && DueNow(rt.e, c) && r == rt.(e := rt.e.(hooks := r.e.hooks)) && Coupled(catalog, r)
    ensures DueNow(r.e, c) && (Matched(rt) ==> Matched(r))
  {
    hide PlannedFor;
  }

  lemma LayoutsValid(catalog: nat -> Layout, rt: Rt)
    requires Coupled(catalog, rt)
    ensures rt.e.buf.armed.Some? ==> rt.armLayout.Some? && Valid(rt.armLayout.value)
    ensures rt.curLayout.Some? ==> Valid(rt.curLayout.value) && rt.e.buf.program.Some? && rt.e.buf.program.value.retain.Valid()
                                   && |rt.e.buf.program.value.retain.bytes| == rt.curLayout.value.size
  {
    hide Valid;
  }

  lemma RunFour(catalog: nat -> Layout, rt: Rt, a: Op, b: Op, c: Op, d: Op, m0: Rt, m1: Rt, m2: Rt, m3: Rt)
    requires Coupled(catalog, rt) && OpOk(catalog, a) && OpOk(catalog, b) && OpOk(catalog, c) && OpOk(catalog, d)
    requires m0 == Do(catalog, rt, a) && Coupled(catalog, m0) && m1 == Do(catalog, m0, b) && Coupled(catalog, m1)
    requires m2 == Do(catalog, m1, c) && Coupled(catalog, m2) && m3 == Do(catalog, m2, d)
    ensures OpsOk(catalog, [a, b, c, d]) && Loader.Run(catalog, rt, [a, b, c, d]) == m3
  {
    hide Do, OpOk, Coupled, OpsOk;
    NoOps(catalog, rt);
    RunStep(catalog, rt, [], a, rt);
    assert [] + [a] == [a] && [a] + [b] == [a, b] && [a, b] + [c] == [a, b, c] && [a, b, c] + [d] == [a, b, c, d];
    RunStep(catalog, rt, [a], b, m0);
    RunStep(catalog, rt, [a, b], c, m1);
    RunStep(catalog, rt, [a, b, c], d, m2);
  }

  lemma NoOps(catalog: nat -> Layout, rt: Rt)
    requires Coupled(catalog, rt)
    ensures OpsOk(catalog, []) && Loader.Run(catalog, rt, []) == rt
  {
    hide Coupled;
  }

  /** Upload, begin, activate, swap: the first package runs now, over the remapped bytes. */
  lemma FirstSwap(catalog: nat -> Layout, rt: Rt, first: Package, second: Package, c: Readings) returns (mid: Rt)
    requires Scene(catalog, rt, first, second, c)
    ensures OpsOk(catalog, UpToSwap(first, c)) && mid == Loader.Run(catalog, rt, UpToSwap(first, c))
    ensures Coupled(catalog, mid) && mid.e.buf.armed.None? && !mid.e.hooks.activate && DueNow(mid.e, c)
    ensures mid.curLayout == Some(PackageLayout(first)) && mid.e.buf.id == Some(first.id) && mid.e.cfg == rt.e.cfg
    ensures mid.e.buf.program.Some? && rt.e.buf.program.Some?
            && |rt.e.buf.program.value.retain.bytes| == rt.curLayout.value.size && Valid(rt.curLayout.value) && Valid(PackageLayout(first))
            && mid.e.buf.program.value.retain.bytes == MapImage(rt.curLayout.value, rt.e.buf.program.value.retain.bytes, PackageLayout(first))
  {
    hide Prepare, Coupled, Scene, PlannedFor, MapImage, Upload, Blitted, Sort, DueNow, Valid, Begin, Round, TryInstall, Matched, ContextNow;
    var op0, op3 := UploadOp(Some(first), true), RoundOp([Install(c)]);
    SceneFacts(catalog, rt, first, second, c);
    var m0 := Uploaded(catalog, rt, first, second, c);
    BeginStep(catalog, m0);
    var m1 := SetPhase(m0, Validating);
    RequestStep(catalog, m1);
    var m2 := Do(catalog, m1, ActivateOp);
    SameWaits(catalog, m0, m2, c);
    MatchedFits(catalog, m2);
    BlitKeeps(m2.e.buf.armed.value, m2.e.buf.program);
    SwapRound(catalog, m2, c);
    InstallRemaps(catalog, m2, c);
    mid := Round(m2, [Install(c)]);
    assert m2.e.buf.program == rt.e.buf.program && m2.curLayout == rt.curLayout && m2.armLayout == Some(PackageLayout(first));
    LayoutsValid(catalog, m2);
    RunFour(catalog, rt, op0, BeginOp, ActivateOp, op3, m0, m1, m2, mid);
  }

  /** Committing what was prepared, and swapping it in: the copies planned for the layout that
      ran at the begin are made over the memory of the one that runs now. */
  lemma SecondSwap(catalog: nat -> Layout, rt: Rt, p: Prepared, old_: Layout, c: Readings) returns (m0: Rt, m1: Rt, r: Rt)
    requires Coupled(catalog, rt) && PreparedOk(catalog, p) && p.fits && |p.program.entries| == |rt.e.cfg.tasks| && DueNow(rt.e, c)
    requires rt.e.buf.program.Some? && rt.e.buf.id != Some(p.program.id) && rt.curLayout.Some?
    requires PlannedFor(Some(old_), p.layout, p.program) && AllFit(p.program.copies, p.layout.size, rt.curLayout.value.size)
    ensures OpOk(catalog, CommitOp(p)) && m0 == Do(catalog, rt, CommitOp(p)) && Coupled(catalog, m0)
    ensures m1 == Do(catalog, m0, ActivateOp) && Coupled(catalog, m1)
    ensures Scanning([Install(c)]) && r == Do(catalog, m1, RoundOp([Install(c)]))
    ensures Coupled(catalog, r) && r.curLayout == Some(p.layout) && r.e.buf.id == Some(p.program.id)
    ensures p.program.program.retain.Valid() && rt.e.buf.program.value.retain.Valid() && r.e.buf.program.Some?
    ensures var live := rt.e.buf.program.value.retain;
            && AllFit(p.program.copies, |p.program.program.retain.bytes|, |live.bytes|)
            && r.e.buf.program.value.retain == CopyAll(p.program.program.retain, live, p.program.copies)
  {
    hide Coupled, PlannedFor, CopyAll, CopyUntil, AllFit, Valid, Do, DueNow;
    m0 := CommitStep(catalog, rt, p, c);
    LayoutsValid(catalog, rt);
    RequestStep(catalog, m0);
    m1 := Do(catalog, m0, ActivateOp);
    SameWaits(catalog, m0, m1, c);
    var live := rt.e.buf.program.value.retain;
    CopyUntilAll(p.program.program.retain, live, p.program.copies);
    SwapRound(catalog, m1, c);
    r := Round(m1, [Install(c)]);
  }

  lemma CommitStep(catalog: nat -> Layout, rt: Rt, p: Prepared, c: Readings) returns (m: Rt)
    requires Coupled(catalog, rt) && PreparedOk(catalog, p) && p.fits && |p.program.entries| == |rt.e.cfg.tasks| && DueNow(rt.e, c)
    ensures OpOk(catalog, CommitOp(p)) && m == Do(catalog, rt, CommitOp(p)) && Coupled(catalog, m) && DueNow(m.e, c)
    ensures m.e.buf == rt.e.buf.(armed := Some(p.program)) && m.armLayout == Some(p.layout) && m.curLayout == rt.curLayout
    ensures p.program.program.retain.Valid() && |p.program.program.retain.bytes| == p.layout.size
  {
    hide DueNow, ConfigOk, PickDue;
    CommitCoupled(catalog, rt, p);
    m := Commit(rt, p).value;
    CoupledShape(catalog, m);
    DueStays(rt.e, m.e, c);
  }

  /** The whole run: the second package runs at its end, and its retain memory is the copies
      planned for the layout before the first, made over what the first one's memory holds. */
  lemma StaleRun(catalog: nat -> Layout, rt: Rt, first: Package, second: Package, c: Readings)
    returns (p: Prepared, mid: Rt, r: Rt)
    requires Scene(catalog, rt, first, second, c)
    requires var n := PackageLayout(second);
             Valid(n) && AllFit(CopiesOf(rt.curLayout.value, n, |n.symbols|), n.size, first.retainSize)
    ensures Prepare(Some(second), ContextNow(rt), true) == Some(p)
    ensures OpsOk(catalog, UpToSwap(first, c)) && mid == Loader.Run(catalog, rt, UpToSwap(first, c))
    ensures OpsOk(catalog, Ops(first, p, c)) && r == Loader.Run(catalog, rt, Ops(first, p, c))
    ensures mid.curLayout == Some(PackageLayout(first)) && mid.e.buf.id == Some(first.id)
    ensures r.curLayout == Some(PackageLayout(second)) && r.e.buf.id == Some(second.id)
    ensures Valid(rt.curLayout.value) && Valid(PackageLayout(first)) && rt.e.buf.program.Some? && mid.e.buf.program.Some? && r.e.buf.program.Some?
    ensures |rt.e.buf.program.value.retain.bytes| == rt.curLayout.value.size && |mid.e.buf.program.value.retain.bytes| == first.retainSize
    ensures mid.e.buf.program.value.retain.bytes == MapImage(rt.curLayout.value, rt.e.buf.program.value.retain.bytes, PackageLayout(first))
    ensures var n, live := PackageLayout(second), mid.e.buf.program.value.retain;
            var copies := CopiesOf(rt.curLayout.value, n, |n.symbols|);
            && live.Valid() && p.program.program.retain.Valid() && Shadow(rt.curLayout.value, n, p.program.program.retain)
            && AllFit(copies, |p.program.program.retain.bytes|, |live.bytes|)
            && r.e.buf.program.value.retain == CopyAll(p.program.program.retain, live, copies)
  {
    hide Prepare, Coupled, MapImage, Sort, DueNow, Valid, CopiesOf, AllFit, CopyAll, Shadow, Do, OpOk, OpsOk, ContextNow;
    SceneFacts(catalog, rt, first, second, c);
    p := SecondPrepared(catalog, rt, first, second, c);
    mid := FirstSwap(catalog, rt, first, second, c);
    LayoutsValid(catalog, mid);
    var m0, m1;
    m0, m1, r := SecondSwap(catalog, mid, p, rt.curLayout.value, c);
    RunSeven(catalog, rt, first, p, c, mid, m0, m1, r);
  }

  lemma RunSeven(catalog: nat -> Layout, rt: Rt, first: Package, p: Prepared, c: Readings, mid: Rt, m0: Rt, m1: Rt, r: Rt)
    requires Coupled(catalog, rt) && OpsOk(catalog, UpToSwap(first, c)) && mid == Loader.Run(catalog, rt, UpToSwap(first, c))
    requires OpOk(catalog, CommitOp(p)) && m0 == Do(catalog, mid, CommitOp(p)) && Coupled(catalog, m0)
    requires m1 == Do(catalog, m0, ActivateOp) && Coupled(catalog, m1)
    requires Scanning([Install(c)]) && r == Do(catalog, m1, RoundOp([Install(c)]))
    ensures OpsOk(catalog, Ops(first, p, c)) && r == Loader.Run(catalog, rt, Ops(first, p, c))
  {
    hide Do, Coupled, OpsOk, Loader.Run;
    var ops := UpToSwap(first, c);
    RunStep(catalog, rt, ops, CommitOp(p), mid);
    RunStep(catalog, rt, ops + [CommitOp(p)], ActivateOp, m0);
    RunStep(catalog, rt, ops + [CommitOp(p)] + [ActivateOp], RoundOp([Install(c)]), m1);
  }

  // ----- a swap that goes wrong -----

  const X: Symbol := Symbol([120], TBool, 0)
  const MOVED: Symbol := Symbol([120], TBool, 1)

  /** The running program and the second package keep the one retained value at byte 0, the
      first package at byte 1. */
  const FRONT: Layout := Layout(1, [X])
  const BACK: Layout := Layout(2, [MOVED])

  function Catalog(): nat -> Layout { n => if n == 1 then BACK else FRONT }

  function First(): Package { Package(1, "first", "h1", false, true, true, map[[116] := "main"], 2, [MOVED], true) }

  function Second(): Package { Package(2, "second", "h2", false, true, true, map[[116] := "main"], 1, [X], true) }

  function OneTask(): Config { Config([TaskPlan([116], 10, 1)], [0], 1, true, false, 0, [], BadQualityPolicy.ForceSafe, 0) }

  function Now(): Readings { Readings(0, 0, 0, 0) }

  /** The engine runs a program that retains TRUE. */
  function Start(): Rt
  {
    var e := Fresh(OneTask(), ["main"], Some(Scan.Program.Program(0, Segment([1], [0]))), []);
    Rt(e.(buf := e.buf.(id := Some("zero"), hash := Some("h0"))), Some(FRONT), None, Some(Info("zero", "h0", 0, false)), None, None)
  }

  lemma OneSymbol(s: Symbol)
    ensures Sort(ByName, [s]) == [s]
  {
    assert [s][1..] == [];
  }

  lemma LayoutsFine()
    ensures Valid(FRONT) && Valid(BACK) && RetainLayout.Sound(1, [X]) && RetainLayout.Sound(2, [MOVED])
    ensures PackageLayout(First()) == BACK && PackageLayout(Second()) == FRONT
    ensures RetainMap.Source(FRONT, X) == Some(0) && RetainMap.Source(FRONT, MOVED) == Some(0) && RetainMap.Source(BACK, X) == Some(0)
  {
    OneSymbol(X);
    OneSymbol(MOVED);
  }

  lemma StartCoupled()
    ensures Coupled(Catalog(), Start()) && DueNow(Start().e, Now())
  {
    hide Valid;
    LayoutsFine();
    assert ConfigOk(OneTask());
  }

  lemma BothBuild()
    ensures ContextOk(ContextNow(Start()))
    ensures Prepare(Some(First()), ContextNow(Start()), true).Some? && Prepare(Some(Second()), ContextNow(Start()), true).Some?
  {
    hide Valid, ShadowImage, MapImage, CopiesOf, ReportOf, ClashesOf, RetainLayout.Sound, Sort;
    LayoutsFine();
    OneEntry();
  }

  lemma OneEntry()
    ensures Names(OneTask()) == [[116]] && EntriesOf([[116]], map[[116] := "main"]) == Some(["main"])
  {
    var entries := map[[116] := "main"];
    assert [[116]][..0] == [] && EntriesOf([], entries) == Some([]);
    assert EntriesOf([[116]], entries) == Some([] + [entries[[116]]]);
    assert [] + [entries[[116]]] == ["main"];
  }

  /** At the end of the run the retained value is lost: the memory of the second package holds 0,
      although the program it replaced held 1 for the same name and type. */
  lemma WrongSwap() returns (p: Prepared, mid: Rt, r: Rt)
    ensures Coupled(Catalog(), Start()) && OpsOk(Catalog(), UpToSwap(First(), Now())) && OpsOk(Catalog(), Ops(First(), p, Now()))
    ensures mid == Loader.Run(Catalog(), Start(), UpToSwap(First(), Now())) && r == Loader.Run(Catalog(), Start(), Ops(First(), p, Now()))
    ensures ContextOk(ContextNow(Start())) && Prepare(Some(Second()), ContextNow(Start()), true) == Some(p)
    ensures mid.curLayout == Some(BACK) && r.curLayout == Some(FRONT) && mid.e.buf.program.Some? && r.e.buf.program.Some?
    ensures Valid(FRONT) && Valid(BACK) && |mid.e.buf.program.value.retain.bytes| == 2
    ensures MapImage(BACK, mid.e.buf.program.value.retain.bytes, FRONT) == [1] && r.e.buf.program.value.retain.bytes == [0]
  {
    hide Coupled, Prepare, OpsOk, Loader.Run, DueNow, Valid, MapImage, Shadow, CopyAll, RetainMap.Source;
    LayoutsFine();
    StartCoupled();
    BothBuild();
    OneCopy();
    p, mid, r := StaleRun(Catalog(), Start(), First(), Second(), Now());
    var image := Start().e.buf.program.value.retain.bytes;
    MapKeeps(FRONT, image, BACK, 0, 0);
    MapZero(FRONT, image, BACK, 0);
    var live := mid.e.buf.program.value.retain;
    MapKeeps(BACK, live.bytes, FRONT, 0, 0);
    ShadowSize(FRONT, FRONT, p.program.program.retain);
    FirstByte(p.program.program.retain, live);
  }

  lemma OneCopy()
    ensures CopiesOf(FRONT, FRONT, 1) == [Copy(0, 0, 1)]
  {
    hide RetainMap.Source;
    LayoutsFine();
    assert CopiesOf(FRONT, FRONT, 0) == [];
  }

  lemma FirstByte(seg: Segment, live: Segment)
    requires seg.Valid() && |seg.bytes| == 1 && live.Valid() && |live.bytes| == 2
    ensures AllFit([Copy(0, 0, 1)], 1, 2) && CopyAll(seg, live, [Copy(0, 0, 1)]).bytes == [live.bytes[0]]
  {
    assert [Copy(0, 0, 1)][..0] == [];
    assert CopyAll(seg, live, []) == seg;
  }
}
