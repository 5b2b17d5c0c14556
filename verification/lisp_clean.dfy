/** A condition that can be checked before evaluating: programs that never come near an odd corner. */
module LispClean {
  import opened LispEval
  import opened LispTail
  import opened LispTrampoline
  import opened LispSpecials
  import opened LispEquivalence
  import opened LispNames

  // ----- Which step is odd -----

  /** A task is odd at once only when it applies a lambda without a parameter list. */
  lemma NextOddExactly(m: Machine, t: Task, st: State)
    requires !st.odd
    ensures OddOf(Next(m, t, st)) <==> t.ApplyLambda? && !Cdr(t.fun).Pair?
  {
  }

  /** Going on is odd in three cases only: a dotted argument fails, `apply` is thrown with arguments that
      are not plain, or a special parameter other than the last is refused. */
  lemma ResumeOddExactly(m: Machine, k: Frame, o: Outcome)
    requires !o.st.odd
    ensures OddOf(Resume(m, k, o)) <==>
      (k.KDot? && o.Err?) ||
      (k.KArgs? && Throws(m, k) && o.Val? && k.func.ApplySubr? && !PlainApply(o.v)) ||
      (k.KBind? && o.Val? && StrayFrame(m, Values(o.v, k.params), k.scope.structure))
  {
    hide BindEnv, BindSpecial, SpecialCount, Values;
  }

  predicate StrayFrame(m: Machine, vars: seq<Var>, structure: nat)
  {
    AnyRefused(m.rules, structure, vars) && !Refused(m.rules, structure, vars[|vars| - 1].sym)
  }

  // ----- Clean values, code and states -----

  /** Nothing in the value can call `apply`. */
  predicate CleanValue(v: Value)
    decreases v, 0
  {
    match v
    case Pair(a, b) => CleanValue(a) && CleanValue(b)
    case Closure(fun, scope) => CleanCode(fun) && CleanEnv(scope.env)
    case ApplySubr => false
    case _ => true
  }

  /** Code in which no list ends in a symbol and every lambda has a parameter list. */
  predicate CleanCode(v: Value)
    decreases v, 1
  {
    if v.Pair? then (v.car == Sym(LAMBDA) ==> v.cdr.Pair?) && CleanCode(v.car) && CleanList(v.cdr) else CleanValue(v)
  }

  predicate CleanList(v: Value)
    decreases v, 1
  {
    if v.Pair? then CleanCode(v.car) && CleanList(v.cdr) else CleanValue(v) && !v.Sym?
  }

  predicate CleanEnv(env: Env)
    decreases env, 0
  {
    env.Bound? ==> CleanValue(env.value) && CleanEnv(env.rest)
  }

  ghost predicate CleanStore(store: Store)
  {
    forall k :: k in store ==> CleanValue(store[k])
  }

  ghost predicate CleanState(st: State)
  {
    !st.odd && CleanEnv(st.special) && CleanStore(st.store)
  }

  /** Primitives make nothing unclean, and no structure is barred from a special variable. */
  ghost predicate CleanMachine(m: Machine)
  {
    Unrestricted(m) &&
    forall id, args, store :: CleanValue(args) && CleanStore(store) ==>
      var r := m.prim(id, args, store); CleanValue(r.v) && CleanStore(r.store)
  }

  predicate CleanVars(vars: seq<Var>)
  {
    forall i :: 0 <= i < |vars| ==> CleanValue(vars[i].value) && (vars[i].evalp ==> CleanCode(vars[i].value))
  }

  predicate CleanTask(t: Task)
  {
    match t
    case Eval(obj, _, scope) => CleanCode(obj) && CleanEnv(scope.env)
    case EvalList(list, scope) => CleanList(list) && CleanEnv(scope.env)
    case PrognFrom(forms, result, _, scope) => CleanList(forms) && CleanValue(result) && CleanEnv(scope.env)
    case CondFrom(clauses, _, scope) => CleanList(clauses) && CleanEnv(scope.env)
    case Defaults(vars, scope) => CleanVars(vars) && CleanEnv(scope.env)
    case ApplyLambda(fun, args, _, scope) =>
      CleanCode(fun) && fun.Pair? && fun.car == Sym(LAMBDA) && CleanValue(args) && CleanEnv(scope.env)
    case Apply(fun, args, _) => CleanValue(fun) && CleanValue(args)
  }

  predicate CleanFrame(k: Frame)
  {
    match k
    case KInline(head, _, scope) => CleanCode(head) && head.Pair? && head.car == Sym(LAMBDA) && CleanEnv(scope.env)
    case KFun(args, _, scope) => CleanList(args) && CleanEnv(scope.env)
    case KArgs(func, _, _) => CleanValue(func)
    case KHead(rest, scope) => CleanList(rest) && CleanEnv(scope.env)
    case KDot => true
    case KCons(head) => CleanValue(head)
    case KProgn(rest, _, scope) => CleanList(rest) && CleanEnv(scope.env)
    case KCond(forms, rest, _, scope) => CleanList(forms) && CleanList(rest) && CleanEnv(scope.env)
    case KDefault(more, scope) => CleanVars(more) && CleanEnv(scope.env)
    case KBind(params, body, _, scope) => CleanVars(params) && CleanList(body) && CleanEnv(scope.env)
    case KBody(_, _, _) => true
    case KSettle => true
  }

  ghost predicate CleanOutcome(o: Outcome)
  {
    CleanState(o.st) && (o.Val? ==> CleanValue(o.v)) && (o.TailCall? ==> CleanValue(o.func) && CleanValue(o.args))
  }

  ghost predicate CleanStep(s: Step)
  {
    match s
    case Done(o) => CleanOutcome(o)
    case Goto(t, st) => CleanTask(t) && CleanState(st)
    case Sub(t, st, k) =>
      CleanTask(t) && CleanState(st) && CleanFrame(k) && (k.KDot? ==> t.Eval? && !t.obj.Pair? && !t.obj.Sym?)
  }

  // ----- Lemmas about clean values -----

  lemma {:induction false} CodeIsValue(v: Value)
    ensures CleanCode(v) ==> CleanValue(v)
    ensures CleanList(v) ==> CleanValue(v)
  {
    if v.Pair? { CodeIsValue(v.car); CodeIsValue(v.cdr); }
  }

  lemma PairClean(v: Value)
    requires v.Pair? && (CleanCode(v) || CleanList(v))
    ensures CleanCode(v.car) && CleanList(v.cdr)
  {
  }

  lemma {:induction false} FindClean(env: Env, s: nat)
    requires CleanEnv(env)
    ensures CleanValue(Find(env, s))
  {
    if env.Bound? && env.sym != s { FindClean(env.rest, s); }
  }

  lemma SymbolClean(m: Machine, s: nat, scope: Place, st: State)
    requires CleanEnv(scope.env) && CleanState(st)
    ensures CleanValue(SymbolValue(m, s, scope, st))
  {
    FindClean(scope.env, s);
    FindClean(st.special, s);
  }

  ghost predicate CleanArgs(args: Args)
  {
    forall i :: 0 <= i < |args| ==> CleanValue(args[i])
  }

  lemma {:induction false} ToArgsClean(list: Value)
    requires CleanValue(list)
    ensures CleanArgs(ToArgs(list))
  {
    if list.Pair? { ToArgsClean(list.cdr); }
  }

  lemma {:induction false} FromArgsClean(args: Args)
    requires CleanArgs(args)
    ensures CleanValue(FromArgs(args))
  {
    if args != [] { FromArgsClean(args[1..]); }
  }

  lemma CleanOneMore(vars: seq<Var>, v: Var)
    requires CleanVars(vars) && CleanValue(v.value) && (v.evalp ==> CleanCode(v.value))
    ensures CleanVars(vars + [v])
  {
  }

  lemma {:induction false} ReadClean(list: Value, args: Args, phase: Phase, done: seq<Var>)
    requires CleanCode(list) || CleanList(list)
    requires CleanArgs(args) && CleanVars(done)
    ensures var ps := ReadParams(list, args, phase, done); ps.Vars? ==> CleanVars(ps.vars)
    decreases list, 0
  {
    hide KeyAt, FromArgs, Rank, CleanVars, CleanValue;
    if list.Pair? {
      PairClean(list);
      if list.car.Pair? {
        PairClean(list.car);
        if list.car.cdr.Pair? { PairClean(list.car.cdr); }
      }
    }
    match list
    case Pair(Mark(k), rest) => ReadClean(rest, args, PhaseOf(k), done);
    case Pair(Sym(s), rest) => NilClean(); OneClean(list.car, s, Nil, rest, args, phase, done);
    case Pair(Pair(Sym(s), more), rest) =>
      NilClean();
      OneClean(list.car, s, if more.Pair? then more.car else Nil, rest, args, phase, done);
    case Sym(s) => FromArgsClean(args); CleanOneMore(done, Var(s, FromArgs(args), false));
    case _ =>
  }

  lemma NilClean()
    ensures CleanCode(Nil) && CleanValue(Nil) && CleanList(Nil)
  {
  }

  lemma {:induction false} OneClean(spec: Value, s: nat, def: Value, rest: Value, args: Args, phase: Phase,
                                    done: seq<Var>)
    requires CleanCode(def) && CleanList(rest) && CleanArgs(args) && CleanVars(done)
    ensures var ps := OneParam(spec, s, def, rest, args, phase, done); ps.Vars? ==> CleanVars(ps.vars)
    decreases rest, 1
  {
    hide KeyAt, FromArgs, ReadParams, CleanVars;
    CodeIsValue(def);
    CleanOneMore(done, Var(s, def, true));
    match phase
    case Required =>
      if args != [] { CleanOneMore(done, Var(s, args[0], false)); ReadClean(rest, args[1..], phase, done + [Var(s,
        args[0], false)]); }
    case OptionalPhase =>
      if args == [] { ReadClean(rest, args, phase, done + [Var(s, def, true)]); }
      else { CleanOneMore(done, Var(s, args[0], false)); ReadClean(rest, args[1..], phase, done + [Var(s, args[0],
        false)]); }
    case KeyPhase =>
      var i := KeyAt(args, s, 0);
      if i < 0 { ReadClean(rest, args, phase, done + [Var(s, def, true)]); }
      else {
        CleanOneMore(done, Var(s, args[i + 1], false));
        ReadClean(rest, args[i := Void][i + 1 := Void], phase, done + [Var(s, args[i + 1], false)]);
      }
    case RestPhase =>
      FromArgsClean(args);
      CleanOneMore(done, Var(s, FromArgs(args), false));
      ReadClean(rest, [], DonePhase, done + [Var(s, FromArgs(args), false)]);
    case DonePhase =>
  }

  lemma {:induction false} ValuesClean(list: Value, vars: seq<Var>)
    requires CleanValue(list) && CleanVars(vars)
    ensures CleanVars(Values(list, vars))
    decreases |vars|
  {
    if vars != [] {
      assert CleanVars(vars[1..]);
      ValuesClean(if vars[0].evalp then Cdr(list) else list, vars[1..]);
    }
  }

  lemma {:induction false} BindClean(rules: Rules, structure: nat, vars: seq<Var>, env: Env, special: Env)
    requires CleanVars(vars) && CleanEnv(env) && CleanEnv(special)
    ensures CleanEnv(BindEnv(rules, vars, env)) && CleanEnv(BindSpecial(rules, structure, vars, special))
  {
    if vars != [] {
      assert CleanVars(vars[..|vars| - 1]);
      BindClean(rules, structure, vars[..|vars| - 1], env, special);
    }
  }

  lemma {:induction false} UnbindClean(env: Env, n: nat)
    requires CleanEnv(env)
    ensures CleanEnv(Unbind(env, n))
  {
    if n > 0 && env.Bound? { UnbindClean(env.rest, n - 1); }
  }

  // ----- Clean steps -----

  lemma NextClean(m: Machine, t: Task, st: State)
    requires CleanMachine(m) && CleanTask(t) && CleanState(st)
    ensures CleanStep(Next(m, t, st))
  {
    hide CleanMachine, SymbolValue, ReadParams, InlineLambda;
    match t
    case Eval(obj, _, scope) => EvalClean(m, t, st);
    case ApplyLambda(fun, args, _, scope) =>
      ToArgsClean(args);
      PairClean(fun);
      PairClean(fun.cdr);
      ReadClean(fun.cdr.car, ToArgs(args), Required, []);
    case Apply(fun, args, _) => ApplyClean(m, t, st);
    case Defaults(vars, scope) =>
      NilClean();
      if vars != [] { assert CleanVars(vars[1..]); }
    case EvalList(list, scope) => ListClean(m, t, list, st);
    case PrognFrom(forms, _, _, scope) => ListClean(m, t, forms, st);
    case CondFrom(clauses, _, scope) => ListClean(m, t, clauses, st);
  }

  lemma ListClean(m: Machine, t: Task, list: Value, st: State)
    requires CleanTask(t) && CleanState(st) && (t.EvalList? || t.PrognFrom? || t.CondFrom?)
    requires list == if t.EvalList? then t.list else if t.PrognFrom? then t.forms else t.clauses
    ensures CleanStep(Next(m, t, st))
  {
    hide CleanState;
    NilClean();
    if list.Pair? {
      PairClean(list);
      if list.car.Pair? { PairClean(list.car); }
    }
  }

  lemma EvalClean(m: Machine, t: Task, st: State)
    requires CleanTask(t) && CleanState(st) && t.Eval?
    ensures CleanStep(Next(m, t, st))
  {
    hide SymbolValue, GlobalValue;
    CodeIsValue(t.obj);
    if t.obj.Sym? { SymbolClean(m, t.obj.s, t.scope, st); }
  }

  lemma ApplyClean(m: Machine, t: Task, st: State)
    requires CleanMachine(m) && CleanTask(t) && CleanState(st) && t.Apply?
    ensures CleanStep(Next(m, t, st))
  {
    var f := if t.fun.Closure? then t.fun.fun else t.fun;
    CodeIsValue(f);
    if f.Subr? { PrimClean(m, f.id, t.args, st); }
  }

  lemma PrimClean(m: Machine, id: nat, args: Value, st: State)
    requires CleanMachine(m) && CleanValue(args) && CleanState(st)
    ensures var r := m.prim(id, args, st.store); CleanValue(r.v) && CleanStore(r.store)
  {
  }

  lemma EnterClean(m: Machine, vars: seq<Var>, body: Value, tail: bool, scope: Place, st: State)
    requires CleanMachine(m) && CleanVars(vars) && CleanList(body) && CleanEnv(scope.env) && CleanState(st)
    ensures CleanStep(Enter(m, vars, body, tail, scope, st))
  {
    hide SpecialCount;
    BindClean(m.rules, scope.structure, vars, scope.env, st.special);
  }

  lemma LeaveClean(m: Machine, o: Outcome, spec: nat, tail: bool, who: Who)
    requires CleanOutcome(o) && !o.Stuck?
    ensures CleanStep(Bounce(m, Leave(o, spec), tail, who))
  {
    UnbindClean(o.st.special, spec);
  }

  lemma ResumeClean(m: Machine, k: Frame, o: Outcome)
    requires CleanMachine(m) && CleanFrame(k) && CleanOutcome(o) && !o.Stuck? && !(k.KDot? && o.Err?)
    ensures CleanStep(Resume(m, k, o))
  {
    hide CleanMachine, CleanState, Enter, Leave, Bounce, Values;
    if k.KBody? {
      LeaveClean(m, o, k.spec, k.tail, k.who);
    } else if k.KBind? && o.Val? {
      ValuesClean(o.v, k.params);
      EnterClean(m, Values(o.v, k.params), k.body, k.tail, k.scope, o.st);
    } else if k.KFun? && o.Val? {
      ImmediateClean(k.args, k.scope, o);
    } else {
      NilClean();
    }
  }

  lemma ImmediateClean(rest: Value, scope: Place, o: Outcome)
    requires o.Val? && CleanList(rest) && CleanEnv(scope.env)
    ensures o.v.Form? && (o.v.form.Quote? || o.v.form.Lambda?) ==>
      var r := Immediate(o.v.form, rest, scope, o.st); r.Val? ==> CleanValue(r.v)
  {
    if rest.Pair? { CodeIsValue(rest.car); }
  }

  // ----- Clean evaluations -----

  /** Clean programs stay clean, and no evaluation of one is ever odd. */
  lemma {:induction false} CleanRun(m: Machine, n: nat, t: Task, st: State)
    requires CleanMachine(m) && CleanTask(t) && CleanState(st)
    ensures CleanOutcome(Run(m, n, t, st))
    decreases n, 10
  {
    hide Next, Resume, CleanMachine, CleanTask, CleanState;
    if n > 0 {
      NextClean(m, t, st);
      CleanDrive(m, n, Next(m, t, st));
    }
  }

  lemma {:induction false} CleanDrive(m: Machine, n: nat, s: Step)
    requires n > 0 && CleanMachine(m) && CleanStep(s)
    ensures CleanOutcome(Drive(m, n, s))
    decreases n, StepRank(s)
  {
    hide Next, Resume, Run, CleanMachine, CleanState, CleanFrame, CleanTask;
    match s
    case Done(o) =>
    case Goto(t, st) => CleanRun(m, n - 1, t, st);
    case Sub(t, st, k) =>
      CleanRun(m, n - 1, t, st);
      var o := Run(m, n - 1, t, st);
      if !o.Stuck? {
        if k.KDot? { ConstantEvaluates(m, n - 1, t, st); }
        ResumeClean(m, k, o);
        CleanDrive(m, n, Resume(m, k, o));
      }
  }

  lemma CleanEnds(o: Outcome)
    requires CleanOutcome(o)
    ensures !o.st.odd
  {
  }

  lemma CleanOpens(m: Machine)
    requires CleanMachine(m)
    ensures Unrestricted(m)
  {
  }

  lemma ConstantEvaluates(m: Machine, n: nat, t: Task, st: State)
    requires t.Eval? && !t.obj.Pair? && !t.obj.Sym?
    ensures !Run(m, n, t, st).Err?
  {
    if n > 0 {
      RunNext(m, n, t, st);
      assert Drive(m, n, Done(Val(t.obj, st))) == Val(t.obj, st);
    }
  }

  lemma CleanIsRegular(m: Machine, t: Task, st: State)
    requires CleanMachine(m) && CleanTask(t) && CleanState(st)
    ensures Regular(m, t, st)
  {
    hide CleanMachine, CleanTask, Run;
    forall n: nat ensures !Run(m, n, t, st).st.odd { CleanRun(m, n, t, st); }
  }

  /** For clean programs the trampoline is exact: outside tail position they have the values, errors and
      final states they have where every call recurses, but for the function that a missing argument is
      blamed on, and they diverge where they diverge there; and the special environment is restored. */
  lemma CleanPrograms(m: Machine, t: Task, st: State, o: Outcome)
    requires m.tramp && m.named && !TailOf(t) && OwnTask(t) && CleanMachine(m) && CleanTask(t) && CleanState(st)
    ensures Evaluates(m, t, st, o) ==> Evaluates(Direct(m), t, st, Renamed(o)) && o.st.special == st.special
    ensures Evaluates(Direct(m), t, st, o) ==> exists r :: Evaluates(m, t, st, r) && Renamed(r) == o
    ensures Evaluates(m, t, st, o) ==> (Evaluates(Direct(m), t, st, o) <==> NamesCallee(o))
  {
    hide Run, CleanTask, CleanState, Regular;
    CleanIsRegular(m, t, st);
    SameRenamed(m, t, st, o);
    SameOutcomes(m, t, st, o);
    if Evaluates(m, t, st, o) {
      var n: nat :| Run(m, n, t, st) == o;
      SpecialsRestored(m, n, t, st);
      NothingLeaks(m, n, t, st);
    }
  }
}
