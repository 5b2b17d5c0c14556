/** How each task of the interpreter unfolds, and the arithmetic of binding frames. */
module LispUnfold {
  import opened LispEval
  import opened LispTrampoline
  import opened LispEquivalence

  // ----- Binding frames -----

  /** How many lexical bindings the parameters make. */
  function LexicalCount(rules: Rules, vars: seq<Var>): nat
  {
    if vars == [] then 0
    else LexicalCount(rules, vars[..|vars| - 1]) + (if vars[|vars| - 1].sym in rules.specials then 0 else 1)
  }

  lemma {:induction false} UnbindLexical(rules: Rules, vars: seq<Var>, env: Env)
    ensures Unbind(BindEnv(rules, vars, env), LexicalCount(rules, vars)) == env
  {
    if vars != [] { UnbindLexical(rules, vars[..|vars| - 1], env); }
  }

  function ListLength(list: Value): nat
  {
    if list.Pair? then 1 + ListLength(list.cdr) else 0
  }

  lemma {:induction false} ArgsLength(list: Value)
    ensures |ToArgs(list)| == ListLength(list)
  {
    if list.Pair? { ArgsLength(list.cdr); }
  }

  lemma {:induction false} FromArgsSkip(args: Args, i: nat, j: nat)
    requires i <= j <= |args| && (forall k :: i <= k < j ==> args[k] == Void)
    ensures FromArgs(args[i..]) == FromArgs(args[j..])
    decreases j - i
  {
    if i < j { assert args[i..][1..] == args[i + 1..]; FromArgsSkip(args, i + 1, j); }
  }

  // ----- Lists built from the front -----

  /** `done`, then the elements of `tail`. */
  function Append(done: seq<Value>, tail: Value): Value
  {
    if done == [] then tail else Pair(done[0], Append(done[1..], tail))
  }

  lemma {:induction false} AppendOne(done: seq<Value>, v: Value, tail: Value)
    ensures Append(done + [v], tail) == Append(done, Pair(v, tail))
  {
    if done == [] {
      assert [v][1..] == [];
    } else {
      assert (done + [v])[1..] == done[1..] + [v];
      AppendOne(done[1..], v, tail);
    }
  }

  /** A list of values, of which `done` were found before `o` gave the rest. */
  function Onto(done: seq<Value>, o: Outcome): Outcome
  {
    if o.Val? then Val(Append(done, o.v), o.st) else o
  }

  lemma OntoOne(done: seq<Value>, v: Value, o: Outcome)
    ensures Onto(done + [v], o) == Onto(done, Onto([v], o))
  {
    if o.Val? {
      AppendOne(done, v, o.v);
      assert [v][1..] == [];
      assert Append([v], o.v) == Pair(v, o.v);
    }
  }

  // ----- How tasks unfold -----

  lemma ListUnfolds(m: Machine, n: nat, list: Value, scope: Place, st: State)
    requires n > 0
    ensures var o := Run(m, n, EvalList(list, scope), st);
      if list.Nil? then o == Val(Nil, st)
      else if !list.Pair? then
        var o1 := Run(m, n - 1, Eval(list, false, scope), st);
        o == if o1.Err? then Err(o1.e, o1.st.(odd := true)) else o1
      else
        var o1 := Run(m, n - 1, Eval(list.car, false, scope), st);
        o == if o1.Val? then Onto([o1.v], Run(m, n - 1, EvalList(list.cdr, scope), o1.st)) else o1
  {
    hide Run, Drive;
    var t := EvalList(list, scope);
    RunNext(m, n, t, st);
    if list.Nil? {
      DriveDone(m, n, Val(Nil, st));
    } else if !list.Pair? {
      var o1 := Run(m, n - 1, Eval(list, false, scope), st);
      DriveSub(m, n, Eval(list, false, scope), st, KDot);
      if !o1.Stuck? { DriveDone(m, n, if o1.Err? then Err(o1.e, o1.st.(odd := true)) else o1); }
    } else {
      var o1 := Run(m, n - 1, Eval(list.car, false, scope), st);
      DriveSub(m, n, Eval(list.car, false, scope), st, KHead(list.cdr, scope));
      if o1.Val? { ConsUnfolds(m, n, o1.v, EvalList(list.cdr, scope), o1.st); }
      else if !o1.Stuck? { DriveDone(m, n, o1); }
    }
  }

  lemma ConsUnfolds(m: Machine, n: nat, v: Value, t: Task, st: State)
    requires n > 0
    ensures Drive(m, n, Sub(t, st, KCons(v))) == Onto([v], Run(m, n - 1, t, st))
  {
    hide Run, Drive;
    var o := Run(m, n - 1, t, st);
    DriveSub(m, n, t, st, KCons(v));
    if o.Val? { assert [v][1..] == []; assert Append([v], o.v) == Pair(v, o.v); DriveDone(m, n, Val(Pair(v, o.v),
      o.st)); }
    else if !o.Stuck? { DriveDone(m, n, o); }
  }

  lemma PrognUnfolds(m: Machine, n: nat, forms: Value, result: Value, tail: bool, scope: Place, st: State)
    requires n > 0
    ensures var o := Run(m, n, PrognFrom(forms, result, tail, scope), st);
      if !forms.Pair? then o == Val(result, st)
      else if !forms.cdr.Pair? then o == Run(m, n - 1, Eval(forms.car, tail, scope), st)
      else
        var o1 := Run(m, n - 1, Eval(forms.car, false, scope), st);
        o == if o1.Val? then Run(m, n - 1, PrognFrom(forms.cdr, o1.v, tail, scope), o1.st) else o1
  {
    hide Run, Drive;
    RunNext(m, n, PrognFrom(forms, result, tail, scope), st);
    if !forms.Pair? {
      DriveDone(m, n, Val(result, st));
    } else if !forms.cdr.Pair? {
      DriveGoto(m, n, Eval(forms.car, tail, scope), st);
    } else {
      var o1 := Run(m, n - 1, Eval(forms.car, false, scope), st);
      DriveSub(m, n, Eval(forms.car, false, scope), st, KProgn(forms.cdr, tail, scope));
      if o1.Val? { DriveGoto(m, n, PrognFrom(forms.cdr, o1.v, tail, scope), o1.st); }
      else if !o1.Stuck? { DriveDone(m, n, o1); }
    }
  }

  lemma CondUnfolds(m: Machine, n: nat, clauses: Value, tail: bool, scope: Place, st: State)
    requires n > 0
    ensures var o := Run(m, n, CondFrom(clauses, tail, scope), st);
      if !clauses.Pair? || !clauses.car.Pair? then o == Val(Nil, st)
      else
        var last := !clauses.car.cdr.Pair? && !clauses.cdr.Pair?;
        var o1 := Run(m, n - 1, Eval(clauses.car.car, tail && last, scope), st);
        o == if last || !o1.Val? then o1
             else if o1.v.Nil? then Run(m, n - 1, CondFrom(clauses.cdr, tail, scope), o1.st)
             else if clauses.car.cdr.Pair? then Run(m, n - 1, PrognFrom(clauses.car.cdr, Nil, tail, scope), o1.st)
             else o1
  {
    hide Run, Drive;
    RunNext(m, n, CondFrom(clauses, tail, scope), st);
    if !clauses.Pair? || !clauses.car.Pair? {
      DriveDone(m, n, Val(Nil, st));
    } else if !clauses.car.cdr.Pair? && !clauses.cdr.Pair? {
      DriveGoto(m, n, Eval(clauses.car.car, tail, scope), st);
    } else {
      var o1 := Run(m, n - 1, Eval(clauses.car.car, false, scope), st);
      DriveSub(m, n, Eval(clauses.car.car, false, scope), st, KCond(clauses.car.cdr, clauses.cdr, tail, scope));
      if o1.Val? && o1.v.Nil? { DriveGoto(m, n, CondFrom(clauses.cdr, tail, scope), o1.st); }
      else if o1.Val? && clauses.car.cdr.Pair? { DriveGoto(m, n, PrognFrom(clauses.car.cdr, Nil, tail, scope), o1.st); }
      else if !o1.Stuck? { DriveDone(m, n, o1); }
    }
  }

  lemma DefaultsUnfold(m: Machine, n: nat, vars: seq<Var>, scope: Place, st: State)
    requires n > 0
    ensures var o := Run(m, n, Defaults(vars, scope), st);
      if vars == [] then o == Val(Nil, st)
      else if !vars[0].evalp then o == Run(m, n - 1, Defaults(vars[1..], scope), st)
      else
        var o1 := Run(m, n - 1, Eval(vars[0].value, false, scope), st);
        o == if o1.Val? then Onto([o1.v], Run(m, n - 1, Defaults(vars[1..], scope), o1.st)) else o1
  {
    hide Run, Drive;
    RunNext(m, n, Defaults(vars, scope), st);
    if vars == [] {
      DriveDone(m, n, Val(Nil, st));
    } else if !vars[0].evalp {
      DriveGoto(m, n, Defaults(vars[1..], scope), st);
    } else {
      var o1 := Run(m, n - 1, Eval(vars[0].value, false, scope), st);
      DriveSub(m, n, Eval(vars[0].value, false, scope), st, KDefault(vars[1..], scope));
      if o1.Val? { ConsUnfolds(m, n, o1.v, Defaults(vars[1..], scope), o1.st); }
      else if !o1.Stuck? { DriveDone(m, n, o1); }
    }
  }

  /** An application binds its parameters, runs its body and deals with what the body threw. */
  lemma LambdaUnfolds(m: Machine, n: nat, fun: Value, args: Value, tail: bool, scope: Place, st: State)
    requires n > 0
    ensures var o := Run(m, n, ApplyLambda(fun, args, tail, scope), st);
      var lam := Cdr(fun);
      if !lam.Pair? then o == Err(NoError, st.(odd := true))
      else
        var ps := ReadParams(lam.car, ToArgs(args), Required, []);
        if ps.Bad? then o == Err(FaultError(ps.fault, scope.who), st)
        else
          var o1 := Run(m, n - 1, Defaults(ps.vars, scope), st);
          o == if o1.Val? then
            LambdaOutcome(m, n, BodyOutcome(m, n, Values(o1.v, ps.vars), lam.cdr, scope, o1.st), tail, scope.who)
          else o1
  {
    hide Run, Drive, ReadParams;
    var lam := Cdr(fun);
    RunNext(m, n, ApplyLambda(fun, args, tail, scope), st);
    if !lam.Pair? {
      DriveDone(m, n, Err(NoError, st.(odd := true)));
    } else {
      var ps := ReadParams(lam.car, ToArgs(args), Required, []);
      if ps.Bad? {
        DriveDone(m, n, Err(FaultError(ps.fault, scope.who), st));
      } else {
        var k := KBind(ps.vars, lam.cdr, tail, scope);
        var o1 := Run(m, n - 1, Defaults(ps.vars, scope), st);
        DriveSub(m, n, Defaults(ps.vars, scope), st, k);
        if o1.Val? { ResumeBind(m, k, o1); BodyUnfolds(m, n, Values(o1.v, ps.vars), lam.cdr, tail, scope, o1.st); }
        else if !o1.Stuck? { ResumeFails(m, k, o1); DriveDone(m, n, o1); }
      }
    }
  }

  /** What a lambda comes to when one of its parameters could not be bound. */
  function RefusedOutcome(m: Machine, vars: seq<Var>, structure: nat, st: State): Outcome
    requires vars != []
  {
    Err(VoidVariable(FirstRefused(m.rules, structure, vars)),
        State(BindSpecial(m.rules, structure, vars, st.special), st.store,
                            st.odd || !Refused(m.rules, structure, vars[|vars| - 1].sym),
                            st.leaks + SpecialCount(m.rules, structure, vars)))
  }

  function BodyOutcome(m: Machine, n: nat, vars: seq<Var>, body: Value, scope: Place, st: State): Outcome
    requires n > 0
  {
    var spec := SpecialCount(m.rules, scope.structure, vars);
    var inner := scope.(env := BindEnv(m.rules, vars, scope.env));
    var st1 := st.(special := BindSpecial(m.rules, scope.structure, vars, st.special));
    if AnyRefused(m.rules, scope.structure, vars) then RefusedOutcome(m, vars, scope.structure, st)
    else Leave(Run(m, n - 1, PrognFrom(body, Nil, spec == 0, inner), st1), spec)
  }

  /** ... and what the trampoline makes of it. */
  function LambdaOutcome(m: Machine, n: nat, o: Outcome, tail: bool, who: Who): Outcome
    requires n > 0
  {
    if tail || !o.TailCall? then o else Run(m, n - 1, Thrown(m, o, who), o.st)
  }

  lemma BodyUnfolds(m: Machine, n: nat, vars: seq<Var>, body: Value, tail: bool, scope: Place, st: State)
    requires n > 0
    ensures Drive(m, n, Enter(m, vars, body, tail, scope, st)) ==
      LambdaOutcome(m, n, BodyOutcome(m, n, vars, body, scope, st), tail, scope.who)
  {
    hide Run, Drive, BindEnv, BindSpecial, SpecialCount, Resume, Bounce;
    var spec := SpecialCount(m.rules, scope.structure, vars);
    var s := Enter(m, vars, body, tail, scope, st);
    if s.Done? {
      DriveDone(m, n, s.o);
    } else {
      var b := Run(m, n - 1, s.t, s.st);
      DriveSub(m, n, s.t, s.st, KBody(spec, tail, scope.who));
      if !b.Stuck? {
        var o := Leave(b, spec);
        ResumeBody(m, spec, tail, scope.who, b);
        if tail || !o.TailCall? { BounceSettled(m, o, tail, scope.who); DriveDone(m, n, o); }
        else { BounceThrown(m, o, scope.who); DriveGoto(m, n, Thrown(m, o, scope.who), o.st); }
      }
    }
  }

  lemma BounceSettled(m: Machine, o: Outcome, tail: bool, who: Who)
    requires tail || !o.TailCall?
    ensures Bounce(m, o, tail, who) == Done(o)
  {
  }

  lemma ResumeBody(m: Machine, spec: nat, tail: bool, who: Who, o: Outcome)
    ensures Resume(m, KBody(spec, tail, who), o) == Bounce(m, Leave(o, spec), tail, who)
  {
  }

  // ----- Calls -----

  /** What the call of `func`, once evaluated, comes to. */
  function CallOutcome(m: Machine, n: nat, func: Value, args: Value, tail: bool, scope: Place, st: State): Outcome
    requires n > 0
  {
    if func.Form? then
      if func.form.Progn? then Run(m, n - 1, PrognFrom(args, Nil, tail, scope), st)
      else if func.form.Cond? then Run(m, n - 1, CondFrom(args, tail, scope), st)
      else Immediate(func.form, args, scope, st)
    else
      var o := Run(m, n - 1, EvalList(args, scope), st);
      if !o.Val? then o
      else if Throws(m, KArgs(func, tail, scope)) then Throw(func, o.v, Name(m, scope.who.named), o.st)
      else Run(m, n - 1, Apply(func, o.v, tail), o.st)
  }

  lemma CallUnfolds(m: Machine, n: nat, func: Value, args: Value, tail: bool, scope: Place, st: State)
    requires n > 0
    ensures Drive(m, n, Resume(m, KFun(args, tail, scope), Val(func, st))) == CallOutcome(m, n, func, args, tail,
      scope, st)
  {
    hide Run, Drive, Throw;
    var s := Resume(m, KFun(args, tail, scope), Val(func, st));
    if func.Form? {
      if s.Goto? { DriveGoto(m, n, s.t, s.st); } else { DriveDone(m, n, s.o); }
    } else {
      var k := KArgs(func, tail, scope);
      DriveSub(m, n, EvalList(args, scope), st, k);
      var o := Run(m, n - 1, EvalList(args, scope), st);
      if o.Val? {
        if Throws(m, k) { DriveDone(m, n, Throw(func, o.v, Name(m, scope.who.named), o.st)); }
        else { DriveGoto(m, n, Apply(func, o.v, tail), o.st); }
      } else if !o.Stuck? {
        DriveDone(m, n, o);
      }
    }
  }

  lemma EvalUnfolds(m: Machine, n: nat, obj: Value, tail: bool, scope: Place, st: State)
    requires n > 0 && obj.Pair?
    ensures var o := Run(m, n, Eval(obj, tail, scope), st);
      if InlineLambda(m, obj.car, scope, st) then
        var inner := scope.(who := Calling(m, obj.car));
        var o1 := Run(m, n - 1, EvalList(obj.cdr, inner), st);
        o == if o1.Val? then Run(m, n - 1, ApplyLambda(obj.car, o1.v, tail, inner), o1.st) else o1
      else
        var o1 := Run(m, n - 1, Eval(obj.car, false, scope), st);
        o == if o1.Val? then CallOutcome(m, n, o1.v, obj.cdr, tail, scope, o1.st) else o1
  {
    hide Run, Drive, CallOutcome, Resume;
    RunNext(m, n, Eval(obj, tail, scope), st);
    if InlineLambda(m, obj.car, scope, st) {
      var inner := scope.(who := Calling(m, obj.car));
      var k := KInline(obj.car, tail, inner);
      DriveSub(m, n, EvalList(obj.cdr, inner), st, k);
      var o1 := Run(m, n - 1, EvalList(obj.cdr, inner), st);
      if o1.Val? { ResumeInline(m, k, o1); DriveGoto(m, n, ApplyLambda(obj.car, o1.v, tail, inner), o1.st); }
      else if !o1.Stuck? { ResumeStops(m, k, o1); DriveDone(m, n, o1); }
    } else {
      var k := KFun(obj.cdr, tail, scope);
      DriveSub(m, n, Eval(obj.car, false, scope), st, k);
      var o1 := Run(m, n - 1, Eval(obj.car, false, scope), st);
      if o1.Val? { CallUnfolds(m, n, o1.v, obj.cdr, tail, scope, o1.st); }
      else if !o1.Stuck? { ResumeStops(m, k, o1); DriveDone(m, n, o1); }
    }
  }

  lemma ResumeInline(m: Machine, k: Frame, o: Outcome)
    requires k.KInline? && o.Val?
    ensures Resume(m, k, o) == Goto(ApplyLambda(k.head, o.v, k.tail, k.scope), o.st)
  {
  }

  lemma ResumeStops(m: Machine, k: Frame, o: Outcome)
    requires (k.KInline? || k.KFun?) && !o.Val?
    ensures Resume(m, k, o) == Done(o)
  {
  }

  lemma ApplyUnfolds(m: Machine, n: nat, fun: Value, args: Value, tail: bool, st: State)
    requires n > 0
    ensures var o := Run(m, n, Apply(fun, args, tail), st);
      var f := if fun.Closure? then fun.fun else fun;
      o == Settle(
        if f.Pair? then
          if LambdaClosure(fun) then
            Run(m, n - 1, ApplyLambda(f, args, tail, Inside(fun.scope, Calling(m, fun))), st)
          else Err(InvalidFunction(fun), st)
        else if f.Subr? then
          match m.prim(f.id, args, st.store)
          case Returns(v, store) => Val(v, st.(store := store))
          case Raises(v, store) => Err(Raised(v), st.(store := store))
        else if f.ApplySubr? then
          if !args.Pair? then Err(MissingArg(Name(m, fun), fun, Num(1)), st)
          else if SpreadArgs(args).NotAList? then Err(BadArg(SpreadArgs(args).last), st)
          else Run(m, n - 1, Apply(Car(SpreadArgs(args).list), Cdr(SpreadArgs(args).list), false), st)
        else Err(InvalidFunction(fun), st))
  {
    hide Run, Drive, Resume, SpreadArgs;
    RunNext(m, n, Apply(fun, args, tail), st);
    var s := Next(m, Apply(fun, args, tail), st);
    match s
    case Done(o) => DriveDone(m, n, o);
    case Goto(t, st') => DriveGoto(m, n, t, st'); CallSettles(m, n - 1, t.fun, t.args, t.tail, st');
    case Sub(t, st', k) =>
      DriveSub(m, n, t, st', k);
      var o := Run(m, n - 1, t, st');
      if !o.Stuck? { ResumeSettle(m, o); DriveDone(m, n, Settle(o)); }
  }

  // ----- Default values -----

  /** Putting `x` in the place of the first default. */
  lemma ValuesStep(done: seq<Value>, vars: seq<Var>, out: seq<Var>, i: nat, x: Value)
    requires i < |vars| && vars[i].evalp
    requires forall v :: Values(Append(done, v), vars) == out + Values(v, vars[i..])
    ensures forall v :: Values(Append(done + [x], v), vars) == out + [Var(vars[i].sym, x, false)] + Values(v,
      vars[i + 1..])
  {
    assert vars[i..][1..] == vars[i + 1..];
    forall v
      ensures Values(Append(done + [x], v), vars) == out + [Var(vars[i].sym, x, false)] + Values(v, vars[i + 1..])
    {
      AppendOne(done, x, v);
      assert Values(Pair(x, v), vars[i..]) == [Var(vars[i].sym, x, false)] + Values(v, vars[i + 1..]);
    }
  }

  lemma ValuesSkip(done: seq<Value>, vars: seq<Var>, out: seq<Var>, i: nat)
    requires i < |vars| && !vars[i].evalp
    requires forall v :: Values(Append(done, v), vars) == out + Values(v, vars[i..])
    ensures forall v :: Values(Append(done, v), vars) == out + [vars[i]] + Values(v, vars[i + 1..])
  {
    assert vars[i..][1..] == vars[i + 1..];
    forall v ensures Values(Append(done, v), vars) == out + [vars[i]] + Values(v, vars[i + 1..]) {
      assert Values(v, vars[i..]) == [vars[i]] + Values(v, vars[i + 1..]);
    }
  }

  lemma NoValues(list: Value)
    ensures Values(list, []) == []
  {
  }

  lemma ThrowUnfolds(f: Value, args: Value, named: Value, st: State)
    requires f.Closure? || f.ApplySubr?
    ensures Throw(f, args, named, st) ==
      if f.Closure? then TailCall(f, args, st)
      else if !args.Pair? then Err(MissingArg(named, ApplySubr, Num(1)), st)
      else TailCall(args.car, Star(args.cdr), st.(odd := st.odd || !PlainApply(args)))
  {
  }
}
