/** Scheduler exactness: which task is picked, when it is due again, and how many
    invocations a scheduling round makes (crates/plc-scan/src/engine.rs). */
module Schedule {
  import opened Ir
  import opened Mode
  import opened Vm
  import opened RetainLayout
  import opened RetainBlit
  import opened Scan

  // ----- picking -----

  /** The picked task is due and stands before every other due task of the order; nothing
      is picked exactly when nothing is due. */
  lemma {:induction false} PickFirst(c: Config, due: seq<nat>, now: nat, k: nat)
    requires k <= |c.order| && forall j :: 0 <= j < |c.order| ==> c.order[j] < |due|
    ensures var r := PickFrom(c, due, now, k);
            && (r.None? ==> forall j :: k <= j < |c.order| ==> due[c.order[j]] > now)
            && (r.Some? ==> exists j :: k <= j < |c.order| && c.order[j] == r.value && due[r.value] <= now
                              && forall i :: k <= i < j ==> due[c.order[i]] > now)
    decreases |c.order| - k
  {
    if k < |c.order| && due[c.order[k]] > now {
      PickFirst(c, due, now, k + 1);
    }
  }

  /** Fixed priority: no task of higher priority is due when one is picked, and among due
      tasks of the same priority it has the least name. */
  lemma PickIsHighest(e: Engine, now: nat)
    requires Shaped(e) && ConfigOk(e.cfg)
    ensures var r := PickDue(e, now);
            && (r.None? <==> forall i :: 0 <= i < |e.cfg.tasks| ==> e.sched.due[i] > now)
            && (r.Some? ==> r.value < |e.cfg.tasks| && e.sched.due[r.value] <= now && NoHigherDue(e, now, r.value))
  {
    PickFirst(e.cfg, e.sched.due, now, 0);
    var r := PickDue(e, now);
    forall i | 0 <= i < |e.cfg.tasks| && e.sched.due[i] <= now
      ensures r.Some? && (i == r.value || Before(e.cfg.tasks[r.value], e.cfg.tasks[i]))
    {
      var k := Place(e.cfg, i);
    }
  }

  ghost predicate NoHigherDue(e: Engine, now: nat, task: nat)
    requires Shaped(e) && task < |e.cfg.tasks|
  {
    forall i :: 0 <= i < |e.cfg.tasks| && e.sched.due[i] <= now ==>
      && e.cfg.tasks[i].priority <= e.cfg.tasks[task].priority
      && (i != task && e.cfg.tasks[i].priority == e.cfg.tasks[task].priority ==> NameLe(e.cfg.tasks[task].name, e.cfg.tasks[i].name))
  }

  lemma Place(c: Config, task: nat) returns (k: nat)
    requires ConfigOk(c) && task < |c.tasks|
    ensures k < |c.order| && c.order[k] == task
  {
    assert task in c.order;
    k :| 0 <= k < |c.order| && c.order[k] == task;
  }

  /** The first task of the order is picked exactly when it is due. */
  lemma PickTop(e: Engine, now: nat)
    requires Shaped(e) && ConfigOk(e.cfg)
    ensures PickDue(e, now) == Some(e.cfg.order[0]) <==> e.sched.due[e.cfg.order[0]] <= now
  {
    PickFirst(e.cfg, e.sched.due, now, 0);
  }

  // ----- what is owed -----

  /** Invocations a task still owes up to `now`. */
  function Owed(due: nat, period: nat, now: nat): nat
    requires period > 0
  {
    if due <= now then (now - due) / period + 1 else 0
  }

  lemma OwedStep(due: nat, period: nat, now: nat)
    requires period > 0 && due <= now
    ensures Owed(due, period, now) == Owed(due + period, period, now) + 1
  {
    if due + period <= now {
      Quotient(now - due, period);
    }
  }

  lemma Quotient(a: nat, b: nat)
    requires b > 0 && a >= b
    ensures a / b == (a - b) / b + 1
  {
    var p, q := a / b, (a - b) / b;
    Apart(p, q + 1, b, a % b, (a - b) % b);
  }

  /** Two quotients with small remainders of one number agree. */
  lemma Apart(p: int, q: int, b: nat, r: nat, s: nat)
    requires b > 0 && p * b + r == q * b + s && r < b && s < b
    ensures p == q
  {
    if p > q { AtLeast(p - q, b); }
    if q > p { AtLeast(q - p, b); }
  }

  lemma AtLeast(n: int, b: nat)
    requires n >= 1
    ensures n * b >= b
  {
    assert n * b == (n - 1) * b + b;
  }

  ghost predicate Periodic(c: Config) { forall i :: 0 <= i < |c.tasks| ==> c.tasks[i].period > 0 }

  /** Invocations all of the first `n` tasks owe. */
  function Backlog(c: Config, due: seq<nat>, now: nat, n: nat): nat
    requires Periodic(c) && n <= |due| == |c.tasks|
  {
    if n == 0 then 0 else Backlog(c, due, now, n - 1) + Owed(due[n - 1], c.tasks[n - 1].period, now)
  }

  lemma {:induction false} BacklogSplit(c: Config, due: seq<nat>, due2: seq<nat>, now: nat, i: nat, n: nat)
    requires Periodic(c) && n <= |due| == |due2| == |c.tasks| && i < |due|
    requires forall k :: 0 <= k < |due| && k != i ==> due2[k] == due[k]
    requires due[i] <= now && due2[i] == due[i] + c.tasks[i].period
    ensures Backlog(c, due, now, n) == Backlog(c, due2, now, n) + if i < n then 1 else 0
  {
    hide Owed;
    if n > 0 {
      BacklogSplit(c, due, due2, now, i, n - 1);
      if n - 1 == i { OwedStep(due[i], c.tasks[i].period, now); }
    }
  }

  lemma {:induction false} BacklogZero(c: Config, due: seq<nat>, now: nat, n: nat)
    requires Periodic(c) && n <= |due| == |c.tasks|
    ensures Backlog(c, due, now, n) == 0 <==> forall i :: 0 <= i < n ==> due[i] > now
  {
    if n > 0 {
      BacklogZero(c, due, now, n - 1);
      Quotients(now, due[n - 1], c.tasks[n - 1].period);
    }
  }

  lemma Quotients(now: nat, due: nat, period: nat)
    requires period > 0
    ensures Owed(due, period, now) > 0 <==> due <= now
  {}

  ghost function Outstanding(e: Engine, now: nat): nat
    requires Shaped(e) && Periodic(e.cfg)
  {
    Backlog(e.cfg, e.sched.due, now, |e.cfg.tasks|)
  }

  // ----- how each step moves the schedule -----

  lemma FinishSched(e: Engine, task: nat, ok: bool)
    requires Shaped(e) && task < |e.cfg.tasks|
    ensures var s := Finish(e, task, ok).sched;
            && s.due == e.sched.due[task := e.sched.due[task] + e.cfg.tasks[task].period]
            && s.runs == e.sched.runs[task := e.sched.runs[task] + 1] && s.skips == e.sched.skips
  {}

  /** What an invocation does to the schedule, whatever its inputs, its logic and the driver do. */
  lemma InvokeSched(e: Engine, task: nat, t: Tick)
    requires Shaped(e) && task < |e.cfg.tasks|
    ensures Shaped(Invoke(e, task, t)) && Invoke(e, task, t).cfg == e.cfg
    ensures var s := Invoke(e, task, t).sched;
            && s.due == e.sched.due[task := e.sched.due[task] + e.cfg.tasks[task].period]
            && s.runs == e.sched.runs[task := e.sched.runs[task] + 1] && s.skips == e.sched.skips
  {
    hide Shaped, Enter, Execute, ApplyOutputs, Finish;
    EnterShaped(e, t);
    EnterSched(e, t);
    var e1 := Enter(e, t);
    ExecuteShaped(e1, task, t);
    ExecuteSched(e1, task, t);
    var (e2, ok) := Execute(e1, task, t);
    OutputsShaped(e2, ok, t);
    OutputsSched(e2, ok, t);
    FinishShaped(ApplyOutputs(e2, ok, t), task, ok);
    FinishSched(ApplyOutputs(e2, ok, t), task, ok);
  }

  lemma EnterSched(e: Engine, t: Tick)
    ensures Enter(e, t).sched == e.sched && Enter(e, t).buf == e.buf
  {}

  lemma ExecuteSched(e: Engine, task: nat, t: Tick)
    requires Shaped(e) && task < |e.cfg.tasks|
    ensures var s := Execute(e, task, t).0.sched; s.due == e.sched.due && s.runs == e.sched.runs && s.skips == e.sched.skips
  {
    hide RunLogic, NoteDuration;
    RunShaped(e, t);
    NoteShaped(e.cfg, e.sched, task, t.durationUs);
  }

  lemma OutputsSched(e: Engine, ok: bool, t: Tick)
    ensures ApplyOutputs(e, ok, t).sched == e.sched && ApplyOutputs(e, ok, t).buf == e.buf
  {
    hide WriteOf;
  }

  /** An invocation of a due task pays exactly one of the invocations owed. */
  lemma InvokePays(e: Engine, task: nat, t: Tick, now: nat)
    requires Shaped(e) && Periodic(e.cfg) && task < |e.cfg.tasks| && e.sched.due[task] <= now
    ensures Shaped(Invoke(e, task, t)) && Invoke(e, task, t).cfg == e.cfg
    ensures Outstanding(Invoke(e, task, t), now) + 1 == Outstanding(e, now)
  {
    hide Invoke;
    InvokeSched(e, task, t);
    BacklogSplit(e.cfg, e.sched.due, Invoke(e, task, t).sched.due, now, task, |e.cfg.tasks|);
  }

  /** How many of the first `n` tasks an install at `at` skips. */
  function SkipCount(c: Config, due: seq<nat>, at: nat, n: nat): nat
    requires n <= |due| && c.order != []
  {
    if n == 0 then 0 else SkipCount(c, due, at, n - 1) + if Skipped(c, due, at, n - 1) then 1 else 0
  }

  lemma {:induction false} SkipPays(c: Config, s: Sched, at: nat, now: nat, n: nat)
    requires Periodic(c) && n <= |s.due| == |c.tasks| == |s.skips| && c.order != [] && at <= now
    ensures Backlog(c, SkipDue(c, s, at).due, now, n) + SkipCount(c, s.due, at, n) == Backlog(c, s.due, now, n)
  {
    hide Owed;
    if n > 0 {
      SkipPays(c, s, at, now, n - 1);
      if Skipped(c, s.due, at, n - 1) { OwedStep(s.due[n - 1], c.tasks[n - 1].period, now); }
    }
  }

  lemma InstallFacts(e: Engine, c: Readings)
    requires Shaped(e) && BuffersFit(e)
    ensures var (r, o) := TryInstall(e, c);
            && Shaped(r) && r.cfg == e.cfg
            && (o.Installed? ==> InstallReady(e, c.ready) && r.sched == SkipDue(e.cfg, e.sched, c.commit))
            && (!o.Installed? ==> r.sched == e.sched)
            && (o.NotNow? ==> r == e)
            && (!o.NotNow? ==> !r.hooks.activate)
            && (o.NotNow? ==> !InstallReady(e, c.ready))
  {
    hide Blitted, SkipDue, Shaped, InstallReady;
  }

  /** An install pays one invocation for every other task due when it commits; a round
      without one pays nothing. */
  lemma InstallPays(e: Engine, c: Readings, now: nat)
    requires Shaped(e) && Periodic(e.cfg) && BuffersFit(e) && c.commit <= now
    ensures var (r, o) := TryInstall(e, c);
            && Shaped(r) && r.cfg == e.cfg
            && Outstanding(r, now) + (if o.Installed? then SkipCount(e.cfg, e.sched.due, c.commit, |e.cfg.tasks|) else 0)
               == Outstanding(e, now)
  {
    hide TryInstall, Backlog, SkipCount, SkipDue;
    InstallFacts(e, c);
    SkipPays(e.cfg, e.sched, c.commit, now, |e.cfg.tasks|);
  }

  // ----- the due time counts periods -----

  /** A task is due next at its period times the number of its runs and skips so far. */
  ghost predicate OnPeriod(e: Engine)
  {
    && Shaped(e)
    && forall i :: 0 <= i < |e.cfg.tasks| ==> e.sched.due[i] == Multiple(e.cfg.tasks[i].period, e.sched.runs[i] + e.sched.skips[i])
  }

  function Multiple(period: nat, count: nat): nat { period * count }

  lemma MultipleStep(period: nat, count: nat)
    ensures Multiple(period, count + 1) == Multiple(period, count) + period
  {}

  lemma InvokeOnPeriod(e: Engine, task: nat, t: Tick)
    requires OnPeriod(e) && task < |e.cfg.tasks|
    ensures OnPeriod(Invoke(e, task, t))
  {
    hide Invoke, Multiple;
    InvokeSched(e, task, t);
    MultipleStep(e.cfg.tasks[task].period, e.sched.runs[task] + e.sched.skips[task]);
  }

  lemma InstallOnPeriod(e: Engine, c: Readings)
    requires OnPeriod(e) && BuffersFit(e)
    ensures OnPeriod(TryInstall(e, c).0)
  {
    hide TryInstall, Multiple;
    InstallFacts(e, c);
    forall i | 0 <= i < |e.cfg.tasks|
      ensures Multiple(e.cfg.tasks[i].period, e.sched.runs[i] + e.sched.skips[i] + 1)
              == Multiple(e.cfg.tasks[i].period, e.sched.runs[i] + e.sched.skips[i]) + e.cfg.tasks[i].period
    {
      MultipleStep(e.cfg.tasks[i].period, e.sched.runs[i] + e.sched.skips[i]);
    }
  }

  // ----- buffers along the way -----

  /** The machine never resizes its retain memory. */
  ghost predicate TickOk(t: Tick)
  {
    forall s: Segment :: s.Valid() ==> t.logic.effect(s).Valid() && |t.logic.effect(s).bytes| == |s.bytes|
  }

  /** The same program runs, with its retain memory the same size, and the same one waits. */
  ghost predicate SameProgram(a: Buffers, b: Buffers)
  {
    && b == a.(program := b.program)
    && (b.program == a.program
        || (a.program.Some? && b.program.Some? && b.program.value == a.program.value.(retain := b.program.value.retain)
            && |b.program.value.retain.bytes| == |a.program.value.retain.bytes|))
  }

  ghost predicate SameCells(a: HookState, b: HookState) { b.activate == a.activate && b.phase == a.phase }

  lemma InvokeBuffers(e: Engine, task: nat, t: Tick)
    requires Shaped(e) && task < |e.cfg.tasks| && BuffersFit(e) && TickOk(t)
    ensures var r := Invoke(e, task, t);
            BuffersFit(r) && SameCells(e.hooks, r.hooks) && SameProgram(e.buf, r.buf) && !r.hooks.inInvocation
  {
    hide Shaped, Enter, Execute, ApplyOutputs, Finish;
    EnterShaped(e, t);
    EnterSched(e, t);
    EnterHooks(e, t);
    var e1 := Enter(e, t);
    ExecuteShaped(e1, task, t);
    ExecuteBuffers(e1, task, t);
    var (e2, ok) := Execute(e1, task, t);
    OutputsShaped(e2, ok, t);
    OutputsSched(e2, ok, t);
    OutputsHooks(e2, ok, t);
    FinishBuffers(ApplyOutputs(e2, ok, t), task, ok);
  }

  lemma EnterHooks(e: Engine, t: Tick)
    ensures SameCells(e.hooks, Enter(e, t).hooks) && Enter(e, t).cfg == e.cfg
  {}

  lemma ExecuteBuffers(e: Engine, task: nat, t: Tick)
    requires Shaped(e) && task < |e.cfg.tasks| && BuffersFit(e) && TickOk(t)
    ensures var r := Execute(e, task, t).0;
            BuffersFit(r) && SameCells(e.hooks, r.hooks) && SameProgram(e.buf, r.buf) && r.cfg == e.cfg
  {
    hide RunLogic, NoteDuration, Shaped, TickOk;
    RunShaped(e, t);
    RunBuffers(e, t);
  }

  /** Logic touches only the retain bytes of the running program, keeping their number. */
  lemma RunBuffers(e: Engine, t: Tick)
    requires BuffersFit(e) && TickOk(t)
    ensures var b := RunLogic(e, t).0.buf;
            && BuffersFit(RunLogic(e, t).0)
            && SameProgram(e.buf, b)
  {
    hide TakeOutputs;
  }

  lemma OutputsHooks(e: Engine, ok: bool, t: Tick)
    ensures var r := ApplyOutputs(e, ok, t); r.hooks == e.hooks && r.cfg == e.cfg
  {
    hide WriteOf;
  }

  lemma FinishBuffers(e: Engine, task: nat, ok: bool)
    requires Shaped(e) && task < |e.cfg.tasks|
    ensures var r := Finish(e, task, ok); r.buf == e.buf && SameCells(e.hooks, r.hooks) && r.cfg == e.cfg && !r.hooks.inInvocation
  {}

  lemma InstallBuffers(e: Engine, c: Readings)
    requires Shaped(e) && BuffersFit(e)
    ensures BuffersFit(TryInstall(e, c).0) && TryInstall(e, c).0.hooks.inInvocation == e.hooks.inInvocation
  {
    hide SkipDue, Shaped, InstallReady, CopyUntil;
    var r := TryInstall(e, c).0;
    if InstallReady(e, c.ready) {
      ReadyArmed(e, c.ready);
      var b := Blitted(e.buf.armed.value, e.buf.program).0;
      assert b.program.retain.Valid() && |b.entries| == |e.cfg.tasks|;
      assert r.cfg == e.cfg;
      assert r.buf.program == e.buf.program || r.buf.program == Some(b.program);
      assert r.buf.armed == None || r.buf.armed == Some(b);
    }
  }

  lemma ReadyArmed(e: Engine, now: nat)
    requires Shaped(e) && InstallReady(e, now)
    ensures e.buf.armed.Some?
  {}

  // ----- a scheduling round -----

  ghost predicate ClockOk(clock: nat -> Readings, limit: nat)
  {
    forall k: nat :: clock(k).commit <= limit && clock(k).pick <= limit
  }

  ghost predicate TicksOk(ticks: nat -> Tick) { forall k: nat :: TickOk(ticks(k)) }

  ghost predicate Steady(e: Engine) { Shaped(e) && ConfigOk(e.cfg) && BuffersFit(e) && !e.hooks.inInvocation }

  lemma RoundFacts(e: Engine, c: Readings, t: Tick, limit: nat)
    requires Steady(e) && c.commit <= limit && c.pick <= limit && TickOk(t)
    ensures var e1 := TryInstall(e, c).0;
            && Steady(e1) && e1.cfg == e.cfg && Outstanding(e1, limit) <= Outstanding(e, limit)
            && (PickDue(e1, c.pick).Some? ==>
                  var i := PickDue(e1, c.pick).value;
                  && i < |e.cfg.tasks| && e1.sched.due[i] <= c.pick
                  && Steady(Invoke(e1, i, t)) && Invoke(e1, i, t).cfg == e.cfg
                  && Outstanding(Invoke(e1, i, t), limit) + 1 == Outstanding(e1, limit))
  {
    hide TryInstall, Invoke, BuffersFit, Backlog, SkipCount, PickDue, TickOk, Shaped;
    InstallPays(e, c, limit);
    InstallBuffers(e, c);
    var e1 := TryInstall(e, c).0;
    PickIsHighest(e1, c.pick);
    if PickDue(e1, c.pick).Some? {
      InvokePays(e1, PickDue(e1, c.pick).value, t, limit);
      InvokeBuffers(e1, PickDue(e1, c.pick).value, t);
    }
  }

  /** Runs due tasks, highest priority first, trying an install before each; the clock is
      read anew every time. Result: the engine and how many invocations were made. The
      limit bounds the clock and only shows that this ends. */
  ghost function RunLoop(e: Engine, clock: nat -> Readings, ticks: nat -> Tick, k: nat, limit: nat): (Engine, nat)
    requires Steady(e) && ClockOk(clock, limit) && TicksOk(ticks)
    decreases Outstanding(e, limit)
  {
    RoundFacts(e, clock(k), ticks(k), limit);
    var e1 := TryInstall(e, clock(k)).0;
    match PickDue(e1, clock(k).pick)
    case None => (e1, k)
    case Some(i) => RunLoop(Invoke(e1, i, ticks(k)), clock, ticks, k + 1, limit)
  }

  ghost predicate Frozen(clock: nat -> Readings, now: nat)
  {
    forall k: nat :: clock(k).ready == now && clock(k).commit == now && clock(k).pick == now
  }

  /** Whether the round's first attempt installs the waiting program. */
  ghost predicate InstallsFirst(e: Engine, clock: nat -> Readings, k: nat)
    requires Shaped(e) && BuffersFit(e)
  {
    TryInstall(e, clock(k)).1.Installed?
  }

  /** Nothing is swapped in later: no request, nothing armed, or the top task is not due. */
  ghost predicate NoInstallAhead(e: Engine, now: nat)
    requires Shaped(e)
  {
    !e.hooks.activate || e.buf.armed.None? || e.sched.due[e.cfg.order[0]] > now
  }

  lemma StillNoInstall(e: Engine, now: nat, i: nat, t: Tick)
    requires Steady(e) && TickOk(t) && NoInstallAhead(e, now) && i < |e.cfg.tasks|
    ensures Steady(Invoke(e, i, t)) && NoInstallAhead(Invoke(e, i, t), now)
  {
    hide Invoke, TickOk, BuffersFit, ConfigOk;
    InvokeSched(e, i, t);
    InvokeBuffers(e, i, t);
  }

  lemma NoInstallNow(e: Engine, c: Readings, now: nat)
    requires Steady(e) && c.ready == now && NoInstallAhead(e, now)
    ensures TryInstall(e, c) == (e, NotNow)
  {
    hide Blitted, SkipDue, BuffersFit;
    PickTop(e, now);
  }

  /** Without an install ahead, a round on a frozen clock makes exactly the invocations owed
      and leaves nothing due. */
  lemma {:induction false} QuietRound(e: Engine, clock: nat -> Readings, ticks: nat -> Tick, k: nat, now: nat)
    requires Steady(e) && Frozen(clock, now) && ClockOk(clock, now) && TicksOk(ticks) && NoInstallAhead(e, now)
    ensures var (r, n) := RunLoop(e, clock, ticks, k, now);
            n == k + Outstanding(e, now) && Steady(r) && r.cfg == e.cfg && Outstanding(r, now) == 0
    decreases Outstanding(e, now)
  {
    hide TryInstall, Invoke, BuffersFit, Backlog, PickDue, TickOk, Shaped, ConfigOk, NoInstallAhead;
    RoundFacts(e, clock(k), ticks(k), now);
    NoInstallNow(e, clock(k), now);
    match PickDue(e, now)
    case None => NothingDue(e, now);
    case Some(i) =>
      StillNoInstall(e, now, i, ticks(k));
      QuietRound(Invoke(e, i, ticks(k)), clock, ticks, k + 1, now);
  }

  lemma NothingDue(e: Engine, now: nat)
    requires Steady(e) && PickDue(e, now).None?
    ensures Outstanding(e, now) == 0
  {
    hide PickDue;
    PickIsHighest(e, now);
    BacklogZero(e.cfg, e.sched.due, now, |e.cfg.tasks|);
  }

  /** On a frozen clock a round makes exactly one invocation for every one owed, less one for
      each other due task when it swaps a program in; afterwards nothing is due. */
  lemma RunDueExact(e: Engine, clock: nat -> Readings, ticks: nat -> Tick, now: nat)
    requires Steady(e) && Frozen(clock, now) && ClockOk(clock, now) && TicksOk(ticks)
    ensures var (r, n) := RunLoop(e, clock, ticks, 0, now);
            && n + (if InstallsFirst(e, clock, 0) then SkipCount(e.cfg, e.sched.due, now, |e.cfg.tasks|) else 0)
               == Outstanding(e, now)
            && Steady(r) && r.cfg == e.cfg
            && forall i :: 0 <= i < |e.cfg.tasks| ==> r.sched.due[i] > now
  {
    hide TryInstall, Invoke, BuffersFit, PickDue, TickOk, SkipCount, Backlog;
    RoundFacts(e, clock(0), ticks(0), now);
    InstallPays(e, clock(0), now);
    var e1 := TryInstall(e, clock(0)).0;
    AfterFirst(e, clock(0), now);
    match PickDue(e1, now)
    case None =>
      NothingDue(e1, now);
      BacklogZero(e1.cfg, e1.sched.due, now, |e1.cfg.tasks|);
    case Some(i) =>
      StillNoInstall(e1, now, i, ticks(0));
      QuietRound(Invoke(e1, i, ticks(0)), clock, ticks, 1, now);
      var r := RunLoop(Invoke(e1, i, ticks(0)), clock, ticks, 1, now).0;
      BacklogZero(r.cfg, r.sched.due, now, |r.cfg.tasks|);
  }

  /** The first attempt settles it, whatever it does. */
  lemma AfterFirst(e: Engine, c: Readings, now: nat)
    requires Steady(e) && c.ready == now
    ensures NoInstallAhead(TryInstall(e, c).0, now)
  {
    hide TryInstall, BuffersFit;
    InstallFacts(e, c);
    PickTop(e, now);
  }
}
