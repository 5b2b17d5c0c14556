/** Programs on which the trampoline changes the outcome, each the call of a function without parameters
    whose body is one call: `(apply f)`, a call of a function of one argument with none, and `(apply)`. */
module LispOdd {
  import opened LispEval
  import opened LispTrampoline
  import opened LispEquivalence

  const TOP := Scope(Top, 0)

  /** `(lambda () call)` */
  function Outer(call: Value): Value
  {
    Closure(Pair(Sym(LAMBDA), Pair(Nil, Pair(call, Nil))), TOP)
  }

  /** Where its body is evaluated. */
  function Body(m: Machine, call: Value): Place
  {
    Inside(TOP, Calling(m, Outer(call)))
  }

  lemma Immediately(m: Machine, t: Task, st: State, o: Outcome)
    requires Next(m, t, st) == Done(o) && !o.Stuck?
    ensures Evaluates(m, t, st, o)
  {
    DoneSteps(m, o);
    EvalSteps(m, t, st, o);
  }

  /** What calling the function gives follows from what its body evaluates to. */
  lemma OuterValue(m: Machine, call: Value, st: State, body: Outcome, o: Outcome)
    requires Evaluates(m, Eval(call, true, Body(m, call)), st, body)
    requires Steps(m, Bounce(m, body, false, Body(m, call).who), o) && Settle(o) == o
    ensures Evaluates(m, Apply(Outer(call), Nil, false), st, o)
  {
    hide Run, Drive, Evaluates, Steps, Bounce;
    var at, forms := Body(m, call), Pair(call, Nil);
    var progn, lambda := PrognFrom(forms, Nil, true, at), ApplyLambda(Outer(call).fun, Nil, false, at);
    GotoSteps(m, Eval(call, true, at), st, body);
    EvalSteps(m, progn, st, body);
    ResumeBody0(m, body, false, at.who);
    SubSteps(m, progn, st, KBody(0, false, at.who), body, o);
    Immediately(m, Defaults([], at), st, Val(Nil, st));
    ResumeBind(m, KBind([], forms, false, at), Val(Nil, st));
    SubSteps(m, Defaults([], at), st, KBind([], forms, false, at), Val(Nil, st), o);
    EvalSteps(m, lambda, st, o);
    ResumeSettle(m, o);
    Decided(m, lambda, st, o);
    DoneSteps(m, o);
    SubSteps(m, lambda, st, KSettle, o, o);
    ApplyClosure(m, Outer(call), Nil, false, st);
    EvalSteps(m, Apply(Outer(call), Nil, false), st, o);
  }

  /** What the call evaluates to, once its arguments are. */
  lemma CallValue(m: Machine, func: Value, args: Value, at: Place, st: State, o: Outcome)
    requires func.ApplySubr? || func.Closure?
    requires Evaluates(m, EvalList(args, at), st, Val(args, st))
    requires Steps(m, Resume(m, KArgs(func, true, at), Val(args, st)), o)
    ensures Evaluates(m, Eval(Pair(func, args), true, at), st, o)
  {
    hide Run, Drive, Evaluates, Steps;
    SubSteps(m, EvalList(args, at), st, KArgs(func, true, at), Val(args, st), o);
    Immediately(m, Eval(func, false, at), st, Val(func, st));
    SubSteps(m, Eval(func, false, at), st, KFun(args, true, at), Val(func, st), o);
    EvalSteps(m, Eval(Pair(func, args), true, at), st, o);
  }

  // ----- apply with one argument -----

  const F := Subr(0)
  const ARGS := Pair(F, Nil)

  /** `(apply f)` */
  const CALL := Pair(ApplySubr, ARGS)

  lemma ArgsValue(m: Machine, at: Place, st: State)
    ensures Evaluates(m, EvalList(ARGS, at), st, Val(ARGS, st))
  {
    hide Run, Drive, Evaluates, Steps;
    Immediately(m, EvalList(Nil, at), st, Val(Nil, st));
    DoneSteps(m, Val(ARGS, st));
    SubSteps(m, EvalList(Nil, at), st, KCons(F), Val(Nil, st), Val(ARGS, st));
    Immediately(m, Eval(F, false, at), st, Val(F, st));
    SubSteps(m, Eval(F, false, at), st, KHead(Nil, at), Val(F, st), Val(ARGS, st));
    EvalSteps(m, EvalList(ARGS, at), st, Val(ARGS, st));
  }

  /** With the trampoline the call of `f` returns; recursing on every call it is an error. */
  lemma ApplyOfOne(m: Machine, st: State, v: Value)
    requires m.tramp && m.prim(0, Nil, st.store) == Returns(v, st.store)
    ensures Evaluates(m, Apply(Outer(CALL), Nil, false), st, Val(v, st.(odd := true)))
    ensures Evaluates(Direct(m), Apply(Outer(CALL), Nil, false), st, Err(BadArg(F), st))
  {
    hide Run, Drive, Evaluates, Steps;
    var odd := st.(odd := true);
    var thrown := TailCall(F, Nil, odd);
    ArgsValue(m, Body(m, CALL), st);
    DoneSteps(m, thrown);
    CallValue(m, ApplySubr, ARGS, Body(m, CALL), st, thrown);
    Immediately(m, Apply(F, Nil, false), odd, Val(v, odd));
    GotoSteps(m, Apply(F, Nil, false), odd, Val(v, odd));
    OuterValue(m, CALL, st, thrown, Val(v, odd));
    var d := Direct(m);
    var failed := Err(BadArg(F), st);
    Immediately(d, Apply(ApplySubr, ARGS, true), st, failed);
    GotoSteps(d, Apply(ApplySubr, ARGS, true), st, failed);
    ArgsValue(d, Body(d, CALL), st);
    CallValue(d, ApplySubr, ARGS, Body(d, CALL), st, failed);
    DoneSteps(d, failed);
    OuterValue(d, CALL, st, failed, failed);
  }

  // ----- A missing argument -----

  const X := Sym(1)

  /** `(lambda (x))` */
  const G := Closure(Pair(Sym(LAMBDA), Pair(Pair(X, Nil), Nil)), TOP)

  lemma NoArgs(m: Machine, at: Place, st: State)
    ensures Evaluates(m, EvalList(Nil, at), st, Val(Nil, st))
  {
    hide Run, Drive, Evaluates, Steps;
    Immediately(m, EvalList(Nil, at), st, Val(Nil, st));
  }

  lemma NoX(m: Machine, tail: bool, at: Place, st: State)
    ensures Evaluates(m, ApplyLambda(G.fun, Nil, tail, at), st,
                      Err(MissingArg(at.who.named, at.who.running, X), st))
  {
    hide Run, Drive, Evaluates, Steps;
    Immediately(m, ApplyLambda(G.fun, Nil, tail, at), st, Err(MissingArg(at.who.named, at.who.running, X), st));
  }

  /** `((lambda () (g)))`: with the trampoline the outer function is blamed for the missing argument of g,
      which is run in its frame; recursing on every call it is g. */
  lemma OuterBlamed(m: Machine, st: State)
    requires m.tramp && m.named
    ensures var outer := Outer(Pair(G, Nil));
      Evaluates(m, Apply(outer, Nil, false), st, Err(MissingArg(outer, G, X), st)) &&
      Evaluates(Direct(m), Apply(outer, Nil, false), st, Err(MissingArg(G, G, X), st)) && outer != G
  {
    hide Run, Drive, Evaluates, Steps;
    var call := Pair(G, Nil);
    var outer := Outer(call);
    var thrown, failed := TailCall(G, Nil, st), Err(MissingArg(outer, G, X), st);
    NoArgs(m, Body(m, call), st);
    DoneSteps(m, thrown);
    CallValue(m, G, Nil, Body(m, call), st, thrown);
    var bounced := Inside(TOP, Who(outer, G));
    NoX(m, false, bounced, st);
    GotoSteps(m, ApplyLambda(G.fun, Nil, false, bounced), st, failed);
    OuterValue(m, call, st, thrown, failed);
    var d := Direct(m);
    var blamed := Err(MissingArg(G, G, X), st);
    var own := Inside(TOP, Calling(d, G));
    NoX(d, true, own, st);
    ResumeSettle(d, blamed);
    DoneSteps(d, blamed);
    SubSteps(d, ApplyLambda(G.fun, Nil, true, own), st, KSettle, blamed, blamed);
    ApplyClosure(d, G, Nil, true, st);
    EvalSteps(d, Apply(G, Nil, true), st, blamed);
    GotoSteps(d, Apply(G, Nil, true), st, blamed);
    NoArgs(d, Body(d, call), st);
    CallValue(d, G, Nil, Body(d, call), st, blamed);
    OuterValue(d, call, st, blamed, blamed);
  }

  /** `((lambda () (apply)))`: with the trampoline the outer function is blamed, otherwise apply. */
  lemma ApplyBlamed(m: Machine, st: State)
    requires m.tramp && m.named
    ensures var outer := Outer(Pair(ApplySubr, Nil));
      Evaluates(m, Apply(outer, Nil, false), st, Err(MissingArg(outer, ApplySubr, Num(1)), st)) &&
      Evaluates(Direct(m), Apply(outer, Nil, false), st, Err(MissingArg(ApplySubr, ApplySubr, Num(1)), st))
  {
    hide Run, Drive, Evaluates, Steps;
    var call := Pair(ApplySubr, Nil);
    var failed := Err(MissingArg(Outer(call), ApplySubr, Num(1)), st);
    NoArgs(m, Body(m, call), st);
    DoneSteps(m, failed);
    CallValue(m, ApplySubr, Nil, Body(m, call), st, failed);
    OuterValue(m, call, st, failed, failed);
    var d := Direct(m);
    var blamed := Err(MissingArg(ApplySubr, ApplySubr, Num(1)), st);
    Immediately(d, Apply(ApplySubr, Nil, true), st, blamed);
    GotoSteps(d, Apply(ApplySubr, Nil, true), st, blamed);
    NoArgs(d, Body(d, call), st);
    CallValue(d, ApplySubr, Nil, Body(d, call), st, blamed);
    DoneSteps(d, blamed);
    OuterValue(d, call, st, blamed, blamed);
  }
}
