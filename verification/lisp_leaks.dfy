/** A call that leaves a special binding behind: `((lambda (a b)) 1 2)` where both parameters are
    special and the current structure may touch the first only. */
module LispLeaks {
  import opened LispEval
  import opened LispSpecials
  import opened LispTrampoline
  import opened LispEquivalence
  import opened LispOdd

  const PARAMS := Pair(Sym(1), Pair(Sym(2), Nil))
  const LEAKY := Closure(Pair(Sym(LAMBDA), Pair(PARAMS, Nil)), TOP)
  const TWO := Pair(Num(1), Pair(Num(2), Nil))
  const GIVEN := [Var(1, Num(1), false), Var(2, Num(2), false)]

  lemma ParamsGiven()
    ensures ReadParams(PARAMS, ToArgs(TWO), Required, []) == Vars(GIVEN)
  {
    assert ToArgs(TWO) == [Num(1), Num(2)];
    assert [Num(1), Num(2)][1..] == [Num(2)] && [Num(2)][1..] == [];
    assert ReadParams(Nil, [], Required, GIVEN) == Vars(GIVEN);
    assert ReadParams(PARAMS.cdr, [Num(2)], Required, [Var(1, Num(1), false)]) == Vars(GIVEN);
  }

  lemma NoDefaults(m: Machine, at: Place, st: State)
    ensures Evaluates(m, Defaults(GIVEN, at), st, Val(Nil, st))
  {
    hide Run, Drive, Evaluates, Steps;
    var one := GIVEN[1..];
    assert one[1..] == [];
    Immediately(m, Defaults([], at), st, Val(Nil, st));
    GotoSteps(m, Defaults([], at), st, Val(Nil, st));
    EvalSteps(m, Defaults(one, at), st, Val(Nil, st));
    GotoSteps(m, Defaults(one, at), st, Val(Nil, st));
    EvalSteps(m, Defaults(GIVEN, at), st, Val(Nil, st));
  }

  lemma GivenBound(rules: Rules, special: Env)
    requires rules.specials == {1, 2} && !rules.refuses(0, 1) && rules.refuses(0, 2)
    ensures BindSpecial(rules, 0, GIVEN, special) == Bound(1, Num(1), special)
    ensures SpecialCount(rules, 0, GIVEN) == 1 && AnyRefused(rules, 0, GIVEN) && FirstRefused(rules, 0, GIVEN) == 2
  {
    assert GIVEN[..1] == [Var(1, Num(1), false)] && GIVEN[..1][..0] == [];
    assert Refused(rules, 0, GIVEN[1].sym);
    assert GIVEN[1..] == [Var(2, Num(2), false)];
    assert BindSpecial(rules, 0, GIVEN[..1], special) == Bound(1, Num(1), special);
    assert SpecialCount(rules, 0, GIVEN[..1]) == 1;
  }

  lemma ValuesGiven()
    ensures Values(Nil, GIVEN) == GIVEN
  {
    assert GIVEN[1..] == [Var(2, Num(2), false)] && GIVEN[1..][1..] == [];
  }

  /** The call fails, and the binding of the first parameter is still there. */
  lemma SpecialLeaks(m: Machine, st: State)
    requires m.rules.specials == {1, 2} && !m.rules.refuses(0, 1) && m.rules.refuses(0, 2)
    ensures var st' := State(Bound(1, Num(1), st.special), st.store, st.odd, st.leaks + 1);
      Evaluates(m, Apply(LEAKY, TWO, false), st, Err(VoidVariable(2), st')) && st'.special != st.special
  {
    hide Run, Drive, Evaluates, Steps, BindSpecial, SpecialCount, AnyRefused, FirstRefused, ReadParams, Values;
    var failed := Err(VoidVariable(2), State(Bound(1, Num(1), st.special), st.store, st.odd, st.leaks + 1));
    var at := Inside(TOP, Calling(m, LEAKY));
    var k := KBind(GIVEN, Nil, false, at);
    ParamsGiven();
    ValuesGiven();
    GivenBound(m.rules, st.special);
    NoDefaults(m, at, st);
    ResumeBind(m, k, Val(Nil, st));
    DoneSteps(m, failed);
    SubSteps(m, Defaults(GIVEN, at), st, k, Val(Nil, st), failed);
    EvalSteps(m, ApplyLambda(LEAKY.fun, TWO, false, at), st, failed);
    ResumeSettle(m, failed);
    SubSteps(m, ApplyLambda(LEAKY.fun, TWO, false, at), st, KSettle, failed, failed);
    ApplyClosure(m, LEAKY, TWO, false, st);
    EvalSteps(m, Apply(LEAKY, TWO, false), st, failed);
    assert Depth(Bound(1, Num(1), st.special)) == Depth(st.special) + 1;
  }
}
