/** What the compiler checks about statements while it emits them, in its own order. */
module Check {
  import opened Ir
  import opened Vm
  import opened St
  import opened Lower

  function CheckStmt(gEnd: nat, env: Env, cur: nat, pc: nat, s: Stmt): Checked<()>
    decreases s, 0
  {
    match s
    case Empty => Accept(())
    case Return => Accept(())
    case Assign(lhs, rhs) =>
      var t := TypeExpr(env, rhs);
      if t.Reject? then Reject(t.code)
      else
        var c := CheckTarget(env, lhs);
        if c.Reject? then Reject(c.code) else Accept(())
    case If(branches, els) =>
      var c := CheckBranches(gEnd, env, cur, pc, branches, els.Else?);
      if c.Reject? then c
      else
        var b := LowerBranches(gEnd, env, cur, pc, branches, els.Else?, 0);
        CheckElse(gEnd, b.env, b.cur, pc + CodeSize(b.ins), els)
    case Case(selector, arms, els) =>
      var t := TypeExpr(env, selector);
      if t.Reject? then Reject(t.code)
      else if !t.value.TInt? && !t.value.TDint? then Reject(EType)
      else
        var v := LowerExpr(gEnd, env, cur, pc, selector);
        var tmp := AllocTemp(gEnd, v.cur, t.value);
        var armsPc := pc + CodeSize(v.ins) + 4;
        var c := CheckArms(gEnd, env, tmp.1, armsPc, tmp.0, arms);
        if c.Reject? then c
        else
          var b := LowerArms(gEnd, env, tmp.1, armsPc, tmp.0, arms, 0);
          CheckElse(gEnd, b.env, b.cur, armsPc + CodeSize(b.ins), els)
    case While(cond, maxIter, body) =>
      if maxIter.None? then Reject(EUnboundedLoop)
      else
        var t := TypeExpr(env, cond);
        if t.Reject? then Reject(t.code)
        else if t.value != TBool then Reject(EType)
        else
          var tmp := AllocTemp(gEnd, cur, TDint);
          var c := LowerExpr(gEnd, env, tmp.1, pc + 32, cond);
          CheckSeq(gEnd, env, c.cur, pc + 36 + CodeSize(c.ins), body)
    case For(x, first, last, step, maxIter, body) =>
      var cap := ForCap(first, last, step, maxIter);
      if cap.Reject? then Reject(cap.code)
      else if x in env && !env[x].Data? then Reject(EType)
      else
        var p := PlanFor(gEnd, env, cur, pc, x, first, last, step);
        var a := TypeExpr(p.env, first);
        var b := TypeExpr(p.env, last);
        var c := if step.Some? then TypeExpr(p.env, step.value) else Accept(TDint);
        if a.Reject? then Reject(a.code)
        else if b.Reject? then Reject(b.code)
        else if c.Reject? then Reject(c.code)
        else CheckSeq(gEnd, p.env, p.cur, p.head + 36, body)
  }

  function CheckSeq(gEnd: nat, env: Env, cur: nat, pc: nat, ss: seq<Stmt>): Checked<()>
    decreases ss, 0
  {
    if ss == [] then Accept(())
    else
      var c := CheckStmt(gEnd, env, cur, pc, ss[0]);
      if c.Reject? then c
      else
        var a := LowerStmt(gEnd, env, cur, pc, ss[0]);
        CheckSeq(gEnd, a.env, a.cur, pc + CodeSize(a.ins), ss[1..])
  }

  function CheckElse(gEnd: nat, env: Env, cur: nat, pc: nat, els: Else): Checked<()>
    decreases els, 0
  {
    if els.Else? then CheckSeq(gEnd, env, cur, pc, els.body) else Accept(())
  }

  function CheckBranches(gEnd: nat, env: Env, cur: nat, pc: nat, bs: seq<Branch>, more: bool): Checked<()>
    decreases bs, 0
  {
    if bs == [] then Accept(())
    else
      var t := TypeExpr(env, bs[0].cond);
      if t.Reject? then Reject(t.code)
      else if t.value != TBool then Reject(EType)
      else
        var c := LowerExpr(gEnd, env, cur, pc, bs[0].cond);
        var bodyPc := pc + CodeSize(c.ins) + 4;
        var body := CheckSeq(gEnd, env, c.cur, bodyPc, bs[0].body);
        if body.Reject? then body
        else
          var b := LowerSeq(gEnd, env, c.cur, bodyPc, bs[0].body);
          var next := bodyPc + CodeSize(b.ins) + if |bs| > 1 || more then 4 else 0;
          CheckBranches(gEnd, b.env, b.cur, next, bs[1..], more)
  }

  function CheckArms(gEnd: nat, env: Env, cur: nat, pc: nat, tmp: nat, arms: seq<Arm>): Checked<()>
    decreases arms, 0
  {
    if arms == [] then Accept(())
    else
      var bodyPc := pc + 20 * |arms[0].labels|;
      var body := CheckSeq(gEnd, env, cur, bodyPc, arms[0].body);
      if body.Reject? then body
      else
        var b := LowerSeq(gEnd, env, cur, bodyPc, arms[0].body);
        CheckArms(gEnd, b.env, b.cur, bodyPc + CodeSize(b.ins) + 4, tmp, arms[1..])
  }
}
