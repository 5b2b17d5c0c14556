/** What the special forms and calls mean, in terms of what their parts evaluate to: states are threaded through
    the parts from the left to the right. */
module LispForms {
  import opened LispEval
  import opened LispTrampoline
  import opened LispEquivalence
  import opened LispUnfold
  import LispOdd

  /** `forms` evaluate one after the other to `values`, from the first state to the last. */
  ghost predicate InTurn(m: Machine, forms: seq<Value>, at: Place, values: seq<Value>, states: seq<State>)
  {
    && |values| == |forms| && |states| == |forms| + 1
    && forall i :: 0 <= i < |forms| ==>
         Evaluates(m, Eval(forms[i], false, at), states[i], Val(values[i], states[i + 1]))
  }

  lemma Later(m: Machine, forms: seq<Value>, at: Place, values: seq<Value>, states: seq<State>)
    requires InTurn(m, forms, at, values, states) && forms != []
    ensures Evaluates(m, Eval(forms[0], false, at), states[0], Val(values[0], states[1]))
    ensures InTurn(m, forms[1..], at, values[1..], states[1..])
    ensures states[1..][|forms| - 1] == states[|forms|]
  {
    hide Evaluates;
    forall i | 0 <= i < |forms| - 1
      ensures Evaluates(m, Eval(forms[1..][i], false, at), states[1..][i], Val(values[1..][i], states[1..][i + 1]))
    {
      assert Evaluates(m, Eval(forms[i + 1], false, at), states[i + 1], Val(values[i + 1], states[i + 2]));
    }
  }

  // ----- Arguments -----

  /** Arguments are evaluated in turn, and the call gets their values in the same order. */
  lemma {:induction false} ArgumentsInTurn(m: Machine, forms: seq<Value>, at: Place, values: seq<Value>,
                                           states: seq<State>)
    requires InTurn(m, forms, at, values, states)
    ensures Evaluates(m, EvalList(Append(forms, Nil), at), states[0], Val(Append(values, Nil), states[|forms|]))
    decreases |forms|
  {
    hide Evaluates, Steps, InTurn, Next;
    InTurnSizes(m, forms, at, values, states);
    var t, st := EvalList(Append(forms, Nil), at), states[0];
    if forms == [] {
      NoArguments(m, at, st);
    } else {
      Later(m, forms, at, values, states);
      ArgumentsInTurn(m, forms[1..], at, values[1..], states[1..]);
      var rest, o1 := EvalList(Append(forms[1..], Nil), at), Val(Append(values[1..], Nil), states[|forms|]);
      var o := Val(Append(values, Nil), states[|forms|]);
      DoneSteps(m, o);
      SubSteps(m, rest, states[1], KCons(values[0]), o1, o);
      SubSteps(m, Eval(forms[0], false, at), st, KHead(Append(forms[1..], Nil), at), Val(values[0], states[1]), o);
      ListNext(m, forms, at, st);
      EvalSteps(m, t, st, o);
    }
  }

  lemma InTurnSizes(m: Machine, forms: seq<Value>, at: Place, values: seq<Value>, states: seq<State>)
    requires InTurn(m, forms, at, values, states)
    ensures |values| == |forms| && |states| == |forms| + 1
  {
  }

  lemma NoArguments(m: Machine, at: Place, st: State)
    ensures Evaluates(m, EvalList(Nil, at), st, Val(Nil, st))
  {
    LispOdd.Immediately(m, EvalList(Nil, at), st, Val(Nil, st));
  }

  lemma ListNext(m: Machine, forms: seq<Value>, at: Place, st: State)
    requires forms != []
    ensures Next(m, EvalList(Append(forms, Nil), at), st) ==
      Sub(Eval(forms[0], false, at), st, KHead(Append(forms[1..], Nil), at))
  {
  }

  /** A call evaluates the function first, then the arguments, and applies the one to the others. */
  lemma CallsInTurn(m: Machine, head: Value, f: Value, forms: seq<Value>, at: Place, values: seq<Value>,
                    states: seq<State>, st: State, o: Outcome)
    requires !InlineLambda(m, head, at, st) && !f.Form?
    requires InTurn(m, forms, at, values, states) && Evaluates(m, Eval(head, false, at), st, Val(f, states[0]))
    requires Evaluates(m, Apply(f, Append(values, Nil), false), states[|forms|], o)
    ensures Evaluates(m, Eval(Pair(head, Append(forms, Nil)), false, at), st, o)
  {
    hide Evaluates, Steps, InTurn, Append, InlineLambda;
    InTurnSizes(m, forms, at, values, states);
    var args := Append(forms, Nil);
    ArgumentsInTurn(m, forms, at, values, states);
    GotoSteps(m, Apply(f, Append(values, Nil), false), states[|forms|], o);
    SubSteps(m, EvalList(args, at), states[0], KArgs(f, false, at), Val(Append(values, Nil), states[|forms|]), o);
    SubSteps(m, Eval(head, false, at), st, KFun(args, false, at), Val(f, states[0]), o);
    EvalSteps(m, Eval(Pair(head, args), false, at), st, o);
  }

  // ----- Special forms -----

  /** A special form evaluates to itself, and then takes its parts as they are. */
  lemma FormSteps(m: Machine, k: FormKind, args: Value, tail: bool, at: Place, st: State, o: Outcome)
    requires Steps(m, Resume(m, KFun(args, tail, at), Val(Form(k), st)), o)
    ensures Evaluates(m, Eval(Pair(Form(k), args), tail, at), st, o)
  {
    hide Evaluates, Steps, Resume;
    LispOdd.Immediately(m, Eval(Form(k), false, at), st, Val(Form(k), st));
    SubSteps(m, Eval(Form(k), false, at), st, KFun(args, tail, at), Val(Form(k), st), o);
    EvalSteps(m, Eval(Pair(Form(k), args), tail, at), st, o);
  }

  /** `(quote v)` is v. */
  lemma QuoteGives(m: Machine, v: Value, rest: Value, tail: bool, at: Place, st: State)
    ensures Evaluates(m, Eval(Pair(Form(Quote), Pair(v, rest)), tail, at), st, Val(v, st))
  {
    hide Evaluates, Steps;
    DoneSteps(m, Val(v, st));
    FormSteps(m, Quote, Pair(v, rest), tail, at, st, Val(v, st));
  }

  /** `(lambda params body...)` is a closure of the place it is evaluated in. */
  lemma LambdaCloses(m: Machine, params: Value, body: Value, tail: bool, at: Place, st: State)
    ensures Evaluates(m, Eval(Pair(Form(Lambda), Pair(params, body)), tail, at), st,
      Val(Closure(Pair(Sym(LAMBDA), Pair(params, body)), Scope(at.env, at.structure)), st))
  {
    hide Evaluates, Steps;
    var o := Immediate(Lambda, Pair(params, body), at, st);
    DoneSteps(m, o);
    FormSteps(m, Lambda, Pair(params, body), tail, at, st, o);
  }

  /** `(progn forms... last)` evaluates the forms in turn and is what the last one is, in its position. */
  lemma PrognInTurn(m: Machine, forms: seq<Value>, last: Value, tail: bool, at: Place, values: seq<Value>,
                    states: seq<State>, o: Outcome)
    requires InTurn(m, forms, at, values, states) && Evaluates(m, Eval(last, tail, at), states[|forms|], o)
    ensures Evaluates(m, Eval(Pair(Form(Progn), Append(forms + [last], Nil)), tail, at), states[0], o)
  {
    hide Evaluates, Steps, InTurn, Append;
    InTurnSizes(m, forms, at, values, states);
    BodyInTurn(m, forms, last, Nil, tail, at, values, states, o);
    GotoSteps(m, PrognFrom(Append(forms + [last], Nil), Nil, tail, at), states[0], o);
    FormSteps(m, Progn, Append(forms + [last], Nil), tail, at, states[0], o);
  }

  lemma {:induction false} BodyInTurn(m: Machine, forms: seq<Value>, last: Value, result: Value, tail: bool,
                                      at: Place, values: seq<Value>, states: seq<State>, o: Outcome)
    requires InTurn(m, forms, at, values, states) && Evaluates(m, Eval(last, tail, at), states[|forms|], o)
    ensures Evaluates(m, PrognFrom(Append(forms + [last], Nil), result, tail, at), states[0], o)
    decreases |forms|
  {
    hide Evaluates, Steps, InTurn, Next;
    InTurnSizes(m, forms, at, values, states);
    var t, st := PrognFrom(Append(forms + [last], Nil), result, tail, at), states[0];
    BodyNext(m, forms, last, result, tail, at, st);
    if forms == [] {
      GotoSteps(m, Eval(last, tail, at), st, o);
    } else {
      Later(m, forms, at, values, states);
      BodyInTurn(m, forms[1..], last, values[0], tail, at, values[1..], states[1..], o);
      var rest := Append(forms[1..] + [last], Nil);
      GotoSteps(m, PrognFrom(rest, values[0], tail, at), states[1], o);
      SubSteps(m, Eval(forms[0], false, at), st, KProgn(rest, tail, at), Val(values[0], states[1]), o);
    }
    EvalSteps(m, t, st, o);
  }

  lemma BodyNext(m: Machine, forms: seq<Value>, last: Value, result: Value, tail: bool, at: Place, st: State)
    ensures Next(m, PrognFrom(Append(forms + [last], Nil), result, tail, at), st) ==
      if forms == [] then Goto(Eval(last, tail, at), st)
      else Sub(Eval(forms[0], false, at), st, KProgn(Append(forms[1..] + [last], Nil), tail, at))
  {
    if forms == [] {
      assert [] + [last] == [last] && [last][1..] == [];
    } else {
      var rest := forms[1..] + [last];
      assert (forms + [last])[1..] == rest && rest != [];
    }
  }

  /** The clauses `(test . body)`. */
  function Clauses(tests: seq<Value>, bodies: seq<Value>, rest: Value): Value
    requires |tests| == |bodies|
  {
    if tests == [] then rest else Pair(Pair(tests[0], bodies[0]), Clauses(tests[1..], bodies[1..], rest))
  }

  /** `(cond clauses...)` evaluates the tests in turn up to the first that is not nil, and is what the body of this
      clause is, in its position; bodies of other clauses are not evaluated. */
  lemma CondFirst(m: Machine, tests: seq<Value>, bodies: seq<Value>, test: Value, body: Value, rest: Value, v: Value,
                  tail: bool, at: Place, states: seq<State>, st: State, o: Outcome)
    requires |bodies| == |tests| && body.Pair? && !v.Nil?
    requires InTurn(m, tests, at, seq(|tests|, _ => Nil), states)
    requires Evaluates(m, Eval(test, false, at), states[|tests|], Val(v, st))
    requires Evaluates(m, Eval(Pair(Form(Progn), body), tail, at), st, o)
    ensures Evaluates(m, Eval(Pair(Form(Cond), Clauses(tests, bodies, Pair(Pair(test, body), rest))), tail, at),
      states[0], o)
  {
    hide Evaluates, Steps, InTurn;
    var nils := seq(|tests|, _ => Nil);
    InTurnSizes(m, tests, at, nils, states);
    var clauses := Clauses(tests, bodies, Pair(Pair(test, body), rest));
    PrognOutcome(m, body, tail, at, st, o);
    CondSkips(m, tests, bodies, test, body, rest, v, tail, at, states, st, o);
    GotoSteps(m, CondFrom(clauses, tail, at), states[0], o);
    FormSteps(m, Cond, clauses, tail, at, states[0], o);
  }

  /** What a `progn` form comes to, its forms come to. */
  lemma PrognOutcome(m: Machine, body: Value, tail: bool, at: Place, st: State, o: Outcome)
    requires Evaluates(m, Eval(Pair(Form(Progn), body), tail, at), st, o)
    ensures Evaluates(m, PrognFrom(body, Nil, tail, at), st, o)
  {
    hide Evaluates;
    EvalSteps(m, Eval(Pair(Form(Progn), body), tail, at), st, o);
    ProgramSteps(m, body, tail, at, st, o);
    GotoSteps(m, PrognFrom(body, Nil, tail, at), st, o);
  }

  lemma ProgramSteps(m: Machine, body: Value, tail: bool, at: Place, st: State, o: Outcome)
    requires Steps(m, Next(m, Eval(Pair(Form(Progn), body), tail, at), st), o)
    ensures Steps(m, Goto(PrognFrom(body, Nil, tail, at), st), o)
  {
    var n: nat :| n > 0 && Drive(m, n, Next(m, Eval(Pair(Form(Progn), body), tail, at), st)) == o;
    hide Run, Drive;
    var form := Eval(Form(Progn), false, at);
    DriveSub(m, n, form, st, KFun(body, tail, at));
    if n == 1 {
      Exhausted(m, form, st);
    } else {
      RunNext(m, n - 1, form, st);
      DriveDone(m, n - 1, Val(Form(Progn), st));
    }
    assert Drive(m, n, Goto(PrognFrom(body, Nil, tail, at), st)) == o;
  }

  lemma {:induction false} CondSkips(m: Machine, tests: seq<Value>, bodies: seq<Value>, test: Value, body: Value,
                                     rest: Value, v: Value, tail: bool, at: Place, states: seq<State>, st: State,
                                     o: Outcome)
    requires |bodies| == |tests| && body.Pair? && !v.Nil?
    requires InTurn(m, tests, at, seq(|tests|, _ => Nil), states)
    requires Evaluates(m, Eval(test, false, at), states[|tests|], Val(v, st))
    requires Evaluates(m, PrognFrom(body, Nil, tail, at), st, o)
    ensures Evaluates(m, CondFrom(Clauses(tests, bodies, Pair(Pair(test, body), rest)), tail, at), states[0], o)
    decreases |tests|
  {
    hide Evaluates, Steps, InTurn;
    var nils := seq(|tests|, _ => Nil);
    InTurnSizes(m, tests, at, nils, states);
    var last := Pair(Pair(test, body), rest);
    var t := CondFrom(Clauses(tests, bodies, last), tail, at);
    if tests == [] {
      GotoSteps(m, PrognFrom(body, Nil, tail, at), st, o);
      SubSteps(m, Eval(test, false, at), states[0], KCond(body, rest, tail, at), Val(v, st), o);
    } else {
      Later(m, tests, at, nils, states);
      assert nils[1..] == seq(|tests| - 1, _ => Nil);
      CondSkips(m, tests[1..], bodies[1..], test, body, rest, v, tail, at, states[1..], st, o);
      var more := Clauses(tests[1..], bodies[1..], last);
      GotoSteps(m, CondFrom(more, tail, at), states[1], o);
      SubSteps(m, Eval(tests[0], false, at), states[0], KCond(bodies[0], more, tail, at), Val(Nil, states[1]), o);
    }
    EvalSteps(m, t, states[0], o);
  }

  // ----- apply -----

  lemma {:induction false} Spreads(items: seq<Value>, last: Value)
    requires last.Pair? || last.Nil?
    ensures SpreadArgs(Append(items, Pair(last, Nil))) == Spread(Append(items, last))
  {
    if items != [] {
      Spreads(items[1..], last);
      ListEnds(items[1..], Pair(last, Nil));
    }
  }

  lemma ListEnds(items: seq<Value>, tail: Value)
    requires tail.Pair?
    ensures Append(items, tail).Pair?
  {
  }

  /** `apply` calls its first argument with the others, of which the last is a list of arguments. */
  lemma ApplyCalls(m: Machine, f: Value, items: seq<Value>, last: Value, tail: bool, st: State, o: Outcome)
    requires last.Pair? || last.Nil?
    requires Evaluates(m, Apply(f, Append(items, last), false), st, o)
    ensures Evaluates(m, Apply(ApplySubr, Pair(f, Append(items, Pair(last, Nil))), tail), st, o)
  {
    hide Evaluates, Steps, SpreadArgs;
    var args := Pair(f, Append(items, Pair(last, Nil)));
    assert [f] + items != [] && ([f] + items)[1..] == items;
    assert args == Append([f] + items, Pair(last, Nil)) && Pair(f, Append(items, last)) == Append([f] + items, last);
    Spreads([f] + items, last);
    GotoSteps(m, Apply(f, Append(items, last), false), st, o);
    EvalSteps(m, Apply(ApplySubr, args, tail), st, o);
  }
}
