/** What becomes of the special environment: it is restored unless a special binding is refused while
    others are being made. */
module LispSpecials {
  import opened LispEval

  function Depth(env: Env): nat
  {
    if env.Top? then 0 else 1 + Depth(env.rest)
  }

  /** Between two moments as many special bindings were left behind as the leaks count says. */
  predicate Kept(env: Env, leaks: nat, env': Env, leaks': nat)
  {
    leaks <= leaks' && Depth(env') == Depth(env) + (leaks' - leaks) && (leaks' == leaks ==> env' == env)
  }

  lemma KeptBoth(a: Env, i: nat, b: Env, j: nat, c: Env, k: nat)
    requires Kept(a, i, b, j) && Kept(b, j, c, k)
    ensures Kept(a, i, c, k)
  {
  }

  lemma {:induction false} UnbindDepth(env: Env, n: nat)
    requires n <= Depth(env)
    ensures Depth(Unbind(env, n)) == Depth(env) - n
  {
    if n > 0 { UnbindDepth(env.rest, n - 1); }
  }

  /** Undoing as many bindings as were made gives back the special environment. */
  lemma {:induction false} UnbindSpecial(rules: Rules, structure: nat, vars: seq<Var>, special: Env)
    ensures Unbind(BindSpecial(rules, structure, vars, special), SpecialCount(rules, structure, vars)) == special
    ensures Depth(BindSpecial(rules, structure, vars, special)) == Depth(special) + SpecialCount(rules, structure, vars)
  {
    if vars != [] {
      UnbindSpecial(rules, structure, vars[..|vars| - 1], special);
    }
  }

  // ----- Steps -----

  /** The special environment a step is to leave behind. */
  function Base(s: Step): Env
  {
    match s
    case Done(o) => o.st.special
    case Goto(_, st) => st.special
    case Sub(_, st, k) => if k.KBody? then Unbind(st.special, k.spec) else st.special
  }

  function LeaksOf(s: Step): nat
  {
    if s.Done? then s.o.st.leaks else s.st.leaks
  }

  /** There are as many special bindings as a body is to undo. */
  predicate Held(s: Step)
  {
    s.Sub? && s.k.KBody? ==> s.k.spec <= Depth(s.st.special)
  }

  lemma NextKept(m: Machine, t: Task, st: State)
    ensures Base(Next(m, t, st)) == st.special && LeaksOf(Next(m, t, st)) == st.leaks && Held(Next(m, t, st))
  {
  }

  /** Binding parameters leaves the special environment to be restored, unless one of them is refused
      and others are special. */
  lemma EnterKept(m: Machine, vars: seq<Var>, body: Value, tail: bool, scope: Place, st: State)
    ensures var s := Enter(m, vars, body, tail, scope, st);
      Kept(st.special, st.leaks, Base(s), LeaksOf(s)) && Held(s) &&
      (Base(s) == st.special <==>
        !AnyRefused(m.rules, scope.structure, vars) || SpecialCount(m.rules, scope.structure, vars) == 0)
  {
    UnbindSpecial(m.rules, scope.structure, vars, st.special);
  }

  lemma BodyKept(st: State, spec: nat, o: Outcome)
    requires spec <= Depth(st.special) && Kept(st.special, st.leaks, o.st.special, o.st.leaks)
    ensures Kept(Unbind(st.special, spec), st.leaks, Unbind(o.st.special, spec), o.st.leaks)
  {
    UnbindDepth(st.special, spec);
    UnbindDepth(o.st.special, spec);
  }

  lemma ResumeKept(m: Machine, t: Task, st: State, k: Frame, o: Outcome)
    requires Held(Sub(t, st, k)) && Kept(st.special, st.leaks, o.st.special, o.st.leaks) && !o.Stuck?
    ensures var s := Resume(m, k, o); Kept(Base(Sub(t, st, k)), st.leaks, Base(s), LeaksOf(s)) && Held(s)
  {
    hide Enter, Unbind;
    if k.KBody? {
      BodyKept(st, k.spec, o);
    } else if k.KBind? && o.Val? {
      EnterKept(m, Values(o.v, k.params), k.body, k.tail, k.scope, o.st);
    }
  }

  // ----- Evaluations -----

  /** Every evaluation, whether it returns, fails or throws, leaves behind exactly the special bindings
      that leaked: the special environment is restored if and only if none did. */
  lemma {:induction false} SpecialsKept(m: Machine, n: nat, t: Task, st: State)
    ensures var o := Run(m, n, t, st); !o.Stuck? ==> Kept(st.special, st.leaks, o.st.special, o.st.leaks)
    decreases n, 10
  {
    hide Next, Resume, Kept;
    if n > 0 {
      NextKept(m, t, st);
      KeptDrive(m, n, Next(m, t, st));
    }
  }

  lemma {:induction false} KeptDrive(m: Machine, n: nat, s: Step)
    requires n > 0 && Held(s)
    ensures var o := Drive(m, n, s); !o.Stuck? ==> Kept(Base(s), LeaksOf(s), o.st.special, o.st.leaks)
    decreases n, StepRank(s)
  {
    hide Next, Resume, Run, Kept, Held;
    match s
    case Done(o) => KeptSame(o.st.special, o.st.leaks);
    case Goto(t, st) => SpecialsKept(m, n - 1, t, st);
    case Sub(t, st, k) =>
      SpecialsKept(m, n - 1, t, st);
      var o := Run(m, n - 1, t, st);
      if !o.Stuck? {
        ResumeKept(m, t, st, k, o);
        var s' := Resume(m, k, o);
        KeptDrive(m, n, s');
        var o' := Drive(m, n, s');
        if !o'.Stuck? { KeptBoth(Base(s), LeaksOf(s), Base(s'), LeaksOf(s'), o'.st.special, o'.st.leaks); }
      }
  }

  lemma KeptSame(env: Env, leaks: nat)
    ensures Kept(env, leaks, env, leaks)
  {
  }

  lemma SpecialsRestored(m: Machine, n: nat, t: Task, st: State)
    ensures var o := Run(m, n, t, st); !o.Stuck? ==> (o.st.special == st.special <==> o.st.leaks == st.leaks)
  {
    hide Run;
    SpecialsKept(m, n, t, st);
  }

  // ----- When nothing can leak -----

  /** Every structure may touch every special variable. */
  ghost predicate Unrestricted(m: Machine)
  {
    forall structure, s :: s in m.rules.specials ==> !m.rules.refuses(structure, s)
  }

  lemma ResumeLeaks(m: Machine, k: Frame, o: Outcome)
    requires Unrestricted(m)
    ensures LeaksOf(Resume(m, k, o)) == o.st.leaks
  {
    hide BindEnv, BindSpecial, SpecialCount, Unbind, Values;
  }

  /** Without restricted structures nothing leaks: the special environment is always restored. */
  lemma {:induction false} NothingLeaks(m: Machine, n: nat, t: Task, st: State)
    requires Unrestricted(m)
    ensures Run(m, n, t, st).st.leaks == st.leaks
    decreases n, 10
  {
    hide Next, Resume, Unrestricted;
    if n > 0 {
      NextKept(m, t, st);
      NothingLeaksDrive(m, n, Next(m, t, st));
    }
  }

  lemma {:induction false} NothingLeaksDrive(m: Machine, n: nat, s: Step)
    requires n > 0 && Unrestricted(m)
    ensures Drive(m, n, s).st.leaks == LeaksOf(s)
    decreases n, StepRank(s)
  {
    hide Next, Resume, Run, Unrestricted;
    match s
    case Done(o) =>
    case Goto(t, st) => NothingLeaks(m, n - 1, t, st);
    case Sub(t, st, k) =>
      NothingLeaks(m, n - 1, t, st);
      var o := Run(m, n - 1, t, st);
      if !o.Stuck? {
        ResumeLeaks(m, k, o);
        NothingLeaksDrive(m, n, Resume(m, k, o));
      }
  }
}
