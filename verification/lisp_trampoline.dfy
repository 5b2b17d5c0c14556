/** Evaluation with the trampoline and evaluation that recurses on every call agree. */
module LispTrampoline {
  import opened LispEval
  import opened LispTail

  /** The same machine without the trampoline. */
  function Direct(m: Machine): Machine
  {
    m.(tramp := false)
  }

  /** With a large enough budget the outcome is `o`. */
  ghost predicate Evaluates(m: Machine, t: Task, st: State, o: Outcome)
  {
    !o.Stuck? && exists n: nat :: Run(m, n, t, st) == o
  }

  ghost predicate Steps(m: Machine, s: Step, o: Outcome)
  {
    !o.Stuck? && exists n: nat :: n > 0 && Drive(m, n, s) == o
  }

  // ----- Composing evaluations -----

  lemma EvalSteps(m: Machine, t: Task, st: State, o: Outcome)
    ensures Evaluates(m, t, st, o) <==> Steps(m, Next(m, t, st), o)
  {
    hide Next, Drive;
    if Evaluates(m, t, st, o) {
      var n: nat :| Run(m, n, t, st) == o;
      assert n > 0 && Drive(m, n, Next(m, t, st)) == o;
    }
    if Steps(m, Next(m, t, st), o) {
      var n: nat :| n > 0 && Drive(m, n, Next(m, t, st)) == o;
      assert Run(m, n, t, st) == o;
    }
  }

  lemma GotoSteps(m: Machine, t: Task, st: State, o: Outcome)
    ensures Steps(m, Goto(t, st), o) <==> Evaluates(m, t, st, o)
  {
    hide Run;
    if Steps(m, Goto(t, st), o) {
      var n: nat :| n > 0 && Drive(m, n, Goto(t, st)) == o;
      assert Run(m, n - 1, t, st) == o;
    }
    if Evaluates(m, t, st, o) {
      var n: nat :| Run(m, n, t, st) == o;
      assert Drive(m, n + 1, Goto(t, st)) == o;
    }
  }

  lemma SubSteps(m: Machine, t: Task, st: State, k: Frame, o1: Outcome, o: Outcome)
    requires Evaluates(m, t, st, o1) && Steps(m, Resume(m, k, o1), o)
    ensures Steps(m, Sub(t, st, k), o)
  {
    hide Run, Resume;
    var n1: nat :| Run(m, n1, t, st) == o1;
    var n2: nat :| n2 > 0 && Drive(m, n2, Resume(m, k, o1)) == o;
    var n := n1 + n2 + 1;
    MoreBudget(m, n1, n - 1, t, st);
    MoreDrive(m, n2, n, Resume(m, k, o1));
    assert Drive(m, n, Sub(t, st, k)) == o;
  }

  lemma DoneSteps(m: Machine, o: Outcome)
    requires !o.Stuck?
    ensures Steps(m, Done(o), o)
  {
    assert Drive(m, 1, Done(o)) == o;
  }

  // ----- The two machines, step by step -----

  lemma NextSame(m: Machine, t: Task, st: State)
    ensures Next(Direct(m), t, st) == Next(m, t, st)
  {
  }

  /** They differ only where a call in tail position is about to be made. */
  predicate Throws(m: Machine, k: Frame)
  {
    m.tramp && k.KArgs? && k.tail && (k.func.Closure? || k.func.ApplySubr?)
  }

  lemma ResumeSame(m: Machine, k: Frame, o: Outcome)
    requires !(Throws(m, k) && o.Val?)
    ensures Resume(Direct(m), k, o) == Resume(m, k, o)
  {
  }

  lemma ResumeThrows(m: Machine, k: Frame, o: Outcome)
    requires Throws(m, k) && o.Val?
    ensures Resume(m, k, o) == Done(Throw(k.func, o.v, Name(m, k.scope.who.named), o.st))
    ensures Resume(Direct(m), k, o) == Goto(Apply(k.func, o.v, k.tail), o.st)
  {
  }

  /** A body evaluated in tail position has no special bindings to undo. */
  predicate BodyOk(s: Step)
  {
    s.Sub? && s.k.KBody? && TailOf(s.t) ==> s.k.spec == 0
  }

  lemma NextBody(m: Machine, t: Task, st: State)
    ensures BodyOk(Next(m, t, st))
  {
  }

  lemma ResumeBody(m: Machine, k: Frame, o: Outcome)
    ensures BodyOk(Resume(m, k, o))
  {
  }

  lemma LeaveNothing(o: Outcome)
    ensures Leave(o, 0) == o
  {
  }

  // ----- apply -----

  lemma {:induction false} StarIsSpread(args: Value)
    requires args.Pair? && SpreadArgs(args).Spread?
    ensures Star(args) == SpreadArgs(args).list
  {
    if args.cdr.Pair? { StarIsSpread(args.cdr); }
  }

  /** The thrown form of `apply` calls the same function with the same arguments exactly when the
      arguments are plain: at least one besides the function and the last one a list, or only nil. */
  lemma ThrownApply(args: Value)
    requires args.Pair?
    ensures PlainApply(args) <==>
      SpreadArgs(args).Spread? && Car(SpreadArgs(args).list) == args.car && Cdr(SpreadArgs(args).list) == Star(args.cdr)
  {
    if args.cdr.Pair? {
      if SpreadArgs(args).Spread? { StarIsSpread(args.cdr); }
    } else if args.car.Pair? {
      NotOwnCar(args.car);
    }
  }

  lemma NotOwnCar(v: Value)
    requires v.Pair?
    ensures v.car != v
  {
    assert v.car < v;
  }

  /** What a direct call of something throwable comes to. */
  lemma ThrownCall(m: Machine, func: Value, args: Value, tail: bool, st: State, r: Outcome)
    requires func.Closure? || func.ApplySubr?
    requires !m.tramp && !m.named && !Throw(func, args, Nil, st).st.odd
    ensures var o := Throw(func, args, Nil, st);
      if o.TailCall? then Evaluates(m, Apply(o.func, o.args, false), o.st, r) ==>
        Evaluates(m, Apply(func, args, tail), st, r)
      else Evaluates(m, Apply(func, args, tail), st, o)
  {
    hide Run, Drive, Throw, Next;
    var o := Throw(func, args, Nil, st);
    if func.Closure? {
      ThrowClosure(func, args, st);
      if Evaluates(m, Apply(func, args, false), st, r) {
        var n: nat :| Run(m, n, Apply(func, args, false), st) == r;
        FlagIrrelevant(m, n, func, args, tail, st);
      }
    } else {
      ThrowApply(m, args, tail, st);
      if o.TailCall? {
        EvalSteps(m, Apply(func, args, tail), st, r);
        GotoSteps(m, Apply(o.func, o.args, false), o.st, r);
      } else {
        DoneSteps(m, o);
        EvalSteps(m, Apply(func, args, tail), st, o);
      }
    }
  }

  lemma ThrowClosure(func: Value, args: Value, st: State)
    requires func.Closure?
    ensures Throw(func, args, Nil, st) == TailCall(func, args, st)
  {
  }

  lemma ThrowApply(m: Machine, args: Value, tail: bool, st: State)
    requires !m.named && !Throw(ApplySubr, args, Nil, st).st.odd
    ensures var o := Throw(ApplySubr, args, Nil, st);
      if o.TailCall? then Next(m, Apply(ApplySubr, args, tail), st) == Goto(Apply(o.func, o.args, false), o.st)
      else !o.Stuck? && Next(m, Apply(ApplySubr, args, tail), st) == Done(o)
  {
    if args.Pair? {
      ThrownApply(args);
      assert st.(odd := st.odd || !PlainApply(args)) == st;
    }
  }

  /** Without a trampoline it does not matter whether a call is in tail position. */
  lemma FlagIrrelevant(m: Machine, n: nat, func: Value, args: Value, tail: bool, st: State)
    requires func.Closure? && !m.tramp
    ensures Run(m, n, Apply(func, args, tail), st) == Run(m, n, Apply(func, args, false), st)
  {
    hide Run, Drive, Resume;
    if n == 0 { Exhausted(m, Apply(func, args, tail), st); Exhausted(m, Apply(func, args, false), st); return; }
    RunNext(m, n, Apply(func, args, tail), st);
    RunNext(m, n, Apply(func, args, false), st);
    if LambdaClosure(func) {
      DriveSub(m, n, ApplyLambda(func.fun, args, tail, Inside(func.scope, Calling(m, func))), st, KSettle);
      DriveSub(m, n, ApplyLambda(func.fun, args, false, Inside(func.scope, Calling(m, func))), st, KSettle);
      LambdaFlag(m, n - 1, func.fun, args, tail, Inside(func.scope, Calling(m, func)), st);
    } else {
      ApplyOther(m, func, args, tail, st);
    }
  }

  lemma Exhausted(m: Machine, t: Task, st: State)
    ensures Run(m, 0, t, st) == Stuck(st)
  {
  }

  lemma ApplyOther(m: Machine, func: Value, args: Value, tail: bool, st: State)
    requires func.Closure? && !LambdaClosure(func)
    ensures Next(m, Apply(func, args, tail), st) == Next(m, Apply(func, args, false), st)
  {
  }

  lemma LambdaFlag(m: Machine, n: nat, fun: Value, args: Value, tail: bool, scope: Place, st: State)
    requires !m.tramp
    ensures Run(m, n, ApplyLambda(fun, args, tail, scope), st) == Run(m, n, ApplyLambda(fun, args, false, scope), st)
  {
    if n > 0 {
      hide Run, Drive, Resume, ReadParams;
      RunNext(m, n, ApplyLambda(fun, args, tail, scope), st);
      RunNext(m, n, ApplyLambda(fun, args, false, scope), st);
      var s := Next(m, ApplyLambda(fun, args, tail, scope), st);
      if s.Sub? {
        var (ps, body) := (s.k.params, s.k.body);
        BindFlag(m, n, s.t, s.st, ps, body, tail, scope);
      }
    }
  }

  lemma BindFlag(m: Machine, n: nat, t: Task, st: State, ps: seq<Var>, body: Value, tail: bool, scope: Place)
    requires n > 0 && !m.tramp
    ensures Drive(m, n, Sub(t, st, KBind(ps, body, tail, scope))) == Drive(m, n, Sub(t, st, KBind(ps, body, false,
      scope)))
  {
    hide Run, Drive, Resume;
    var k, k' := KBind(ps, body, tail, scope), KBind(ps, body, false, scope);
    var o := Run(m, n - 1, t, st);
    DriveSub(m, n, t, st, k);
    DriveSub(m, n, t, st, k');
    if o.Val? {
      BodyFlag(m, n, Values(o.v, ps), body, tail, scope, o.st);
      ResumeBind(m, k, o);
      ResumeBind(m, k', o);
    } else if !o.Stuck? {
      ResumeFails(m, k, o);
      ResumeFails(m, k', o);
    }
  }

  lemma ResumeBind(m: Machine, k: Frame, o: Outcome)
    requires k.KBind? && o.Val?
    ensures Resume(m, k, o) == Enter(m, Values(o.v, k.params), k.body, k.tail, k.scope, o.st)
  {
    hide Enter, Values;
  }

  lemma ResumeFails(m: Machine, k: Frame, o: Outcome)
    requires k.KBind? && !o.Val?
    ensures Resume(m, k, o) == Done(o)
  {
  }

  lemma RunNext(m: Machine, n: nat, t: Task, st: State)
    requires n > 0
    ensures Run(m, n, t, st) == Drive(m, n, Next(m, t, st))
  {
    hide Next, Drive;
  }

  lemma DriveSub(m: Machine, n: nat, t: Task, st: State, k: Frame)
    requires n > 0
    ensures var o := Run(m, n - 1, t, st); Drive(m, n, Sub(t, st, k)) == if o.Stuck? then o else Drive(m, n, Resume(m,
      k, o))
  {
    hide Run, Resume;
  }

  lemma BodyFlag(m: Machine, n: nat, vars: seq<Var>, body: Value, tail: bool, scope: Place, st: State)
    requires n > 0 && !m.tramp
    ensures Drive(m, n, Enter(m, vars, body, tail, scope, st)) == Drive(m, n, Enter(m, vars, body, false, scope, st))
  {
    hide Run, Drive, Resume, BindEnv, BindSpecial, SpecialCount;
    var s := Enter(m, vars, body, tail, scope, st);
    if s.Sub? {
      var b := Run(m, n - 1, s.t, s.st);
      var spec := SpecialCount(m.rules, scope.structure, vars);
      DriveSub(m, n, s.t, s.st, KBody(spec, tail, scope.who));
      DriveSub(m, n, s.t, s.st, KBody(spec, false, scope.who));
      NoThrow(m, n - 1, s.t, s.st);
      ResumeSettled(m, spec, tail, scope.who, b);
    }
  }

  lemma ResumeSettled(m: Machine, spec: nat, tail: bool, who: Who, o: Outcome)
    requires !o.TailCall?
    ensures Resume(m, KBody(spec, tail, who), o) == Resume(m, KBody(spec, false, who), o) == Done(Leave(o, spec))
  {
  }
}
