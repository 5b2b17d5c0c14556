/** The interpreter's core language and its evaluation as a function of a step budget.  With `tramp`
    set, a call in tail position is thrown to the nearest enclosing lambda application that was not
    itself in tail position; without it, every call simply recurses. */
module LispEval {

  /** Symbols are numbered; this one is `lambda`. */
  const LAMBDA: nat := 0

  datatype FormKind = Quote | Progn | Cond | Lambda

  datatype Marker = Optional | Key | Rest

  datatype Value =
    | Nil | Void
    | Num(n: int)
    | Sym(s: nat)
    | Keyword(s: nat)
    | Mark(mark: Marker)                       // #!optional, #!key, #!rest
    | Pair(car: Value, cdr: Value)
    | Closure(fun: Value, scope: Scope)
    | Subr(id: nat)
    | Form(form: FormKind)
    | ApplySubr

  /** What a closure keeps of the place it was made in. */
  datatype Scope = Scope(env: Env, structure: nat)

  /** The function that the call stack names, and the one that is running.  The trampoline makes them
      differ: it runs a thrown call in the frame of the application that caught it.  The source keeps only
      the first. */
  datatype Who = Who(named: Value, running: Value)

  /** rep_env, rep_structure and the top of rep_call_stack. */
  datatype Place = Place(env: Env, structure: nat, who: Who)

  function Inside(scope: Scope, who: Who): Place
  {
    Place(scope.env, scope.structure, who)
  }

  datatype Env = Top | Bound(sym: nat, value: Value, rest: Env)

  type Store = map<(nat, nat), Value>

  /** The dynamic state, and two records that the source does not keep: `odd` says that the run went
      through a corner this model or the trampoline does not follow exactly, and `leaks` counts the
      special bindings that were made and will never be undone. */
  datatype State = State(special: Env, store: Store, odd: bool, leaks: nat)

  /** An exception and its data.  A missing argument names the function on top of the call stack; `callee`
      is the function that was called. */
  datatype Error =
    | MissingArg(fun: Value, callee: Value, arg: Value)
    | BadArg(arg: Value)                       // of `apply`
    | InvalidFunction(fun: Value)
    | InvalidLambda(rest: Value)
    | VoidVariable(sym: nat)
    | Raised(v: Value)
    | NoError

  datatype PrimResult = Returns(v: Value, store: Store) | Raises(v: Value, store: Store)

  datatype Outcome =
    | Val(v: Value, st: State)
    | Err(e: Error, st: State)
    | TailCall(func: Value, args: Value, st: State)
    | Stuck(st: State)                         // the budget ran out

  /** Which symbols are special, and which of them a structure may not touch. */
  datatype Rules = Rules(specials: set<nat>, refuses: (nat, nat) -> bool)

  /** With `named` unset, the call stack names nobody: the machine that tells what depends on it. */
  datatype Machine = Machine(prim: (nat, Value, Store) -> PrimResult, rules: Rules, tramp: bool, named: bool)

  function Name(m: Machine, f: Value): Value
  {
    if m.named then f else Nil
  }

  /** A frame for the call of `f` is pushed. */
  function Calling(m: Machine, f: Value): Who
  {
    Who(Name(m, f), f)
  }

  /** The structure that holds the top-level values of special variables. */
  const SPECIALS: nat := 0

  // ----- Variables -----

  predicate Has(env: Env, s: nat)
  {
    match env
    case Top => false
    case Bound(t, _, rest) => t == s || Has(rest, s)
  }

  function Find(env: Env, s: nat): Value
  {
    match env
    case Top => Void
    case Bound(t, v, rest) => if t == s then v else Find(rest, s)
  }

  function StructureRef(structure: nat, s: nat, store: Store): Value
  {
    if (structure, s) in store then store[(structure, s)] else Void
  }

  /** The value of a special variable: void where the current structure may not touch it. */
  function SpecialValue(m: Machine, s: nat, structure: nat, st: State): Value
  {
    if m.rules.refuses(structure, s) then Void
    else if Has(st.special, s) then Find(st.special, s)
    else StructureRef(SPECIALS, s, st.store)
  }

  /** Special or top-level value. */
  function GlobalValue(m: Machine, s: nat, scope: Place, st: State): Value
  {
    if s in m.rules.specials then SpecialValue(m, s, scope.structure, st) else StructureRef(scope.structure, s,
      st.store)
  }

  function SymbolValue(m: Machine, s: nat, scope: Place, st: State): Value
  {
    if s !in m.rules.specials && Has(scope.env, s) then Find(scope.env, s) else GlobalValue(m, s, scope, st)
  }

  // ----- Lambda lists -----

  datatype Var = Var(sym: nat, value: Value, evalp: bool)

  datatype Phase = Required | OptionalPhase | KeyPhase | RestPhase | DonePhase

  function Rank(p: Phase): nat
  {
    match p
    case Required => 0
    case OptionalPhase => 1
    case KeyPhase => 2
    case RestPhase => 3
    case DonePhase => 4
  }

  function PhaseOf(k: Marker): Phase
  {
    match k
    case Optional => OptionalPhase
    case Key => KeyPhase
    case Rest => RestPhase
  }

  /** What is wrong with a lambda list, or with the arguments for it. */
  datatype Fault = NoArgument(spec: Value) | Malformed(rest: Value)

  datatype Params = Vars(vars: seq<Var>) | Bad(fault: Fault)

  function FaultError(fault: Fault, who: Who): Error
  {
    match fault
    case NoArgument(spec) => MissingArg(who.named, who.running, spec)
    case Malformed(rest) => InvalidLambda(rest)
  }

  /** An argument, or Void once a keyword parameter has consumed it. */
  type Args = seq<Value>

  function ToArgs(list: Value): Args
  {
    if list.Pair? then [list.car] + ToArgs(list.cdr) else []
  }

  function FromArgs(args: Args): Value
  {
    if args == [] then Nil
    else if args[0] == Void then FromArgs(args[1..])
    else Pair(args[0], FromArgs(args[1..]))
  }

  /** Position of keyword `s` with a value after it, or -1. */
  function KeyAt(args: Args, s: nat, i: nat): (j: int)
    ensures j == -1 || (i <= j < |args| - 1 && args[j] == Keyword(s) && args[j + 1] != Void)
    decreases |args| - i
  {
    if i + 1 >= |args| then -1
    else if args[i] == Keyword(s) && args[i + 1] != Void then i
    else KeyAt(args, s, i + 1)
  }

  /** Pass 1 of binding a lambda list: what each parameter gets, or which default it needs. */
  function ReadParams(list: Value, args: Args, phase: Phase, done: seq<Var>): Params
    decreases list, 0
  {
    match list
    case Nil => Vars(done)
    case Pair(Mark(k), rest) =>
      if Rank(phase) >= Rank(PhaseOf(k)) then Bad(Malformed(rest)) else ReadParams(rest, args, PhaseOf(k), done)
    case Pair(Sym(s), rest) => OneParam(list.car, s, Nil, rest, args, phase, done)
    case Pair(Pair(Sym(s), more), rest) =>
      OneParam(list.car, s, if more.Pair? then more.car else Nil, rest, args, phase, done)
    case Sym(s) =>
      if Rank(phase) >= Rank(RestPhase) then Bad(Malformed(list)) else Vars(done + [Var(s, FromArgs(args), false)])
    case Pair(_, rest) => Bad(Malformed(rest))
    case _ => Bad(Malformed(list))
  }

  /** The parameter written as `spec`, which is named `s`. */
  function OneParam(spec: Value, s: nat, def: Value, rest: Value, args: Args, phase: Phase, done: seq<Var>): Params
    decreases rest, 1
  {
    match phase
    case Required =>
      if args == [] then Bad(NoArgument(spec))
      else ReadParams(rest, args[1..], phase, done + [Var(s, args[0], false)])
    case OptionalPhase =>
      if args == [] then ReadParams(rest, args, phase, done + [Var(s, def, true)])
      else ReadParams(rest, args[1..], phase, done + [Var(s, args[0], false)])
    case KeyPhase =>
      var i := KeyAt(args, s, 0);
      if i < 0 then ReadParams(rest, args, phase, done + [Var(s, def, true)])
      else ReadParams(rest, args[i := Void][i + 1 := Void], phase, done + [Var(s, args[i + 1], false)])
    case RestPhase => ReadParams(rest, [], DonePhase, done + [Var(s, FromArgs(args), false)])
    case DonePhase => Bad(Malformed(rest))
  }

  /** The current structure may not touch this special variable, so binding it fails. */
  predicate Refused(rules: Rules, structure: nat, s: nat)
  {
    s in rules.specials && rules.refuses(structure, s)
  }

  predicate BindsSpecial(rules: Rules, structure: nat, s: nat)
  {
    s in rules.specials && !rules.refuses(structure, s)
  }

  /** Pass 3: special parameters go to the special environment, the others to the lexical one.  A
      refused parameter is not bound, and the ones after it are bound all the same. */
  function BindEnv(rules: Rules, vars: seq<Var>, env: Env): Env
  {
    if vars == [] then env
    else
      var v := vars[|vars| - 1];
      var e := BindEnv(rules, vars[..|vars| - 1], env);
      if v.sym in rules.specials then e else Bound(v.sym, v.value, e)
  }

  function BindSpecial(rules: Rules, structure: nat, vars: seq<Var>, special: Env): Env
  {
    if vars == [] then special
    else
      var v := vars[|vars| - 1];
      var e := BindSpecial(rules, structure, vars[..|vars| - 1], special);
      if BindsSpecial(rules, structure, v.sym) then Bound(v.sym, v.value, e) else e
  }

  /** How many special bindings the parameters make. */
  function SpecialCount(rules: Rules, structure: nat, vars: seq<Var>): nat
  {
    if vars == [] then 0
    else
      SpecialCount(rules, structure, vars[..|vars| - 1]) +
      (if BindsSpecial(rules, structure, vars[|vars| - 1].sym) then 1 else 0)
  }

  predicate AnyRefused(rules: Rules, structure: nat, vars: seq<Var>)
  {
    exists i :: 0 <= i < |vars| && Refused(rules, structure, vars[i].sym)
  }

  /** The first parameter that could not be bound; its exception is the one that stays. */
  function FirstRefused(rules: Rules, structure: nat, vars: seq<Var>): nat
  {
    if vars == [] then 0
    else if Refused(rules, structure, vars[0].sym) then vars[0].sym
    else FirstRefused(rules, structure, vars[1..])
  }

  function Unbind(env: Env, n: nat): Env
  {
    if n == 0 || env.Top? then env else Unbind(env.rest, n - 1)
  }

  // ----- apply -----

  /** The argument list of `apply`, with its last element spread, unless that is not a list. */
  datatype Spread = Spread(list: Value) | NotAList(last: Value)

  function SpreadArgs(args: Value): Spread
    requires args.Pair?
  {
    if args.cdr.Pair? then
      var r := SpreadArgs(args.cdr);
      if r.NotAList? then r else Spread(Pair(args.car, r.list))
    else if args.car.Pair? || args.car.Nil? then Spread(args.car)
    else NotAList(args.car)
  }

  /** list* of the elements of `list`. */
  function Star(list: Value): Value
  {
    if !list.Pair? then Nil
    else if list.cdr.Pair? then Pair(list.car, Star(list.cdr))
    else list.car
  }

  function Car(v: Value): Value
  {
    if v.Pair? then v.car else Nil
  }

  function Cdr(v: Value): Value
  {
    if v.Pair? then v.cdr else Nil
  }

  /** `apply` means the same in tail position as elsewhere. */
  predicate PlainApply(args: Value)
  {
    args.Pair? ==> if args.cdr.Pair? then SpreadArgs(args.cdr).Spread? else args.car.Nil?
  }

  // ----- Evaluation -----

  datatype Task =
    | Eval(obj: Value, tail: bool, scope: Place)
    | EvalList(list: Value, scope: Place)
    | PrognFrom(forms: Value, result: Value, tail: bool, scope: Place)
    | CondFrom(clauses: Value, tail: bool, scope: Place)
    | Defaults(vars: seq<Var>, scope: Place)
    | ApplyLambda(fun: Value, args: Value, tail: bool, scope: Place)
    | Apply(fun: Value, args: Value, tail: bool)

  predicate LambdaClosure(f: Value)
  {
    f.Closure? && f.fun.Pair? && f.fun.car == Sym(LAMBDA)
  }

  predicate InlineLambda(m: Machine, head: Value, scope: Place, st: State)
  {
    head.Pair? && head.car == Sym(LAMBDA) && GlobalValue(m, LAMBDA, scope, st) == Form(Lambda)
  }

  /** A call that returned neither a value nor an exception returns void. */
  function Settle(o: Outcome): Outcome
  {
    if o.Err? && o.e.NoError? then Val(Void, o.st) else o
  }

  function Values(list: Value, vars: seq<Var>): seq<Var>
    ensures |Values(list, vars)| == |vars|
    decreases |vars|
  {
    if vars == [] then []
    else if vars[0].evalp then [Var(vars[0].sym, Car(list), false)] + Values(Cdr(list), vars[1..])
    else [vars[0]] + Values(list, vars[1..])
  }

  /** Special forms that need no further evaluation. */
  function Immediate(k: FormKind, rest: Value, scope: Place, st: State): Outcome
    requires k.Quote? || k.Lambda?
  {
    if !rest.Pair? then Err(MissingArg(scope.who.named, scope.who.running, Num(1)), st)
    else if k.Quote? then Val(rest.car, st)
    else Val(Closure(Pair(Sym(LAMBDA), rest), Scope(scope.env, scope.structure)), st)
  }

  /** A call in tail position becomes a throw.  No frame is pushed for `apply`, so its missing argument is
      blamed on `named`. */
  function Throw(f: Value, args: Value, named: Value, st: State): Outcome
  {
    if !f.ApplySubr? then TailCall(f, args, st)
    else if !args.Pair? then Err(MissingArg(named, ApplySubr, Num(1)), st)
    else TailCall(args.car, Star(args.cdr), st.(odd := st.odd || !PlainApply(args)))
  }

  // ----- One task at a time -----

  /** What to do with the value of a subtask. */
  datatype Frame =
    | KInline(head: Value, tail: bool, scope: Place)             // arguments of an inline lambda
    | KFun(args: Value, tail: bool, scope: Place)                // the function of a call
    | KArgs(func: Value, tail: bool, scope: Place)               // its arguments
    | KHead(rest: Value, scope: Place)                           // one argument
    | KDot                                                       // a dotted tail of arguments
    | KCons(head: Value)
    | KProgn(rest: Value, tail: bool, scope: Place)
    | KCond(forms: Value, rest: Value, tail: bool, scope: Place)
    | KDefault(more: seq<Var>, scope: Place)
    | KBind(params: seq<Var>, body: Value, tail: bool, scope: Place)
    | KBody(spec: nat, tail: bool, who: Who)
    | KSettle

  /** A task is finished, becomes another task, or needs the outcome of one first. */
  datatype Step = Done(o: Outcome) | Goto(t: Task, st: State) | Sub(t: Task, st: State, k: Frame)

  function FrameRank(k: Frame): nat
  {
    if k.KFun? || k.KHead? || k.KDefault? || k.KBind? then 2 else 1
  }

  function StepRank(s: Step): nat
  {
    if s.Sub? then FrameRank(s.k) else 0
  }

  function Next(m: Machine, t: Task, st: State): Step
  {
    match t
    case Eval(obj, tail, scope) =>
      if obj.Sym? then
        var v := SymbolValue(m, obj.s, scope, st);
        Done(if v == Void then Err(VoidVariable(obj.s), st) else Val(v, st))
      else if !obj.Pair? then Done(Val(obj, st))
      else if InlineLambda(m, obj.car, scope, st) then
        var inner := scope.(who := Calling(m, obj.car));
        Sub(EvalList(obj.cdr, inner), st, KInline(obj.car, tail, inner))
      else Sub(Eval(obj.car, false, scope), st, KFun(obj.cdr, tail, scope))
    case EvalList(list, scope) =>
      if list.Nil? then Done(Val(Nil, st))
      else if !list.Pair? then Sub(Eval(list, false, scope), st, KDot)
      else Sub(Eval(list.car, false, scope), st, KHead(list.cdr, scope))
    case PrognFrom(forms, result, tail, scope) =>
      if !forms.Pair? then Done(Val(result, st))
      else if !forms.cdr.Pair? then Goto(Eval(forms.car, tail, scope), st)
      else Sub(Eval(forms.car, false, scope), st, KProgn(forms.cdr, tail, scope))
    case CondFrom(clauses, tail, scope) =>
      if !clauses.Pair? || !clauses.car.Pair? then Done(Val(Nil, st))
      else if !clauses.car.cdr.Pair? && !clauses.cdr.Pair? then Goto(Eval(clauses.car.car, tail, scope), st)
      else Sub(Eval(clauses.car.car, false, scope), st, KCond(clauses.car.cdr, clauses.cdr, tail, scope))
    case Defaults(vars, scope) =>
      if vars == [] then Done(Val(Nil, st))
      else if !vars[0].evalp then Goto(Defaults(vars[1..], scope), st)
      else Sub(Eval(vars[0].value, false, scope), st, KDefault(vars[1..], scope))
    case ApplyLambda(fun, args, tail, scope) =>
      var lam := Cdr(fun);
      if !lam.Pair? then Done(Err(NoError, st.(odd := true)))
      else
        var ps := ReadParams(lam.car, ToArgs(args), Required, []);
        if ps.Bad? then Done(Err(FaultError(ps.fault, scope.who), st))
        else Sub(Defaults(ps.vars, scope), st, KBind(ps.vars, lam.cdr, tail, scope))
    case Apply(fun, args, tail) =>
      var f := if fun.Closure? then fun.fun else fun;
      if f.Pair? then
        if LambdaClosure(fun) then Sub(ApplyLambda(f, args, tail, Inside(fun.scope, Calling(m, fun))), st, KSettle)
        else Done(Err(InvalidFunction(fun), st))
      else if f.Subr? then
        Done(match m.prim(f.id, args, st.store)
             case Returns(v, store) => Val(v, st.(store := store))
             case Raises(v, store) => Err(Raised(v), st.(store := store)))
      else if f.ApplySubr? then
        if !args.Pair? then Done(Err(MissingArg(Name(m, fun), fun, Num(1)), st))
        else
          var s := SpreadArgs(args);
          if s.NotAList? then Done(Err(BadArg(s.last), st)) else Goto(Apply(Car(s.list), Cdr(s.list), false), st)
      else Done(Err(InvalidFunction(fun), st))
  }

  /** Leaves the frame of a lambda body: special bindings are undone. */
  function Leave(o: Outcome, spec: nat): Outcome
  {
    match o
    case Val(v, st) => Val(v, st.(special := Unbind(st.special, spec)))
    case Err(e, st) => Err(e, st.(special := Unbind(st.special, spec)))
    case TailCall(f, a, st) => TailCall(f, a, st.(special := Unbind(st.special, spec)))
    case Stuck(st) => o
  }

  /** The trampoline: what a lambda application does with the outcome of its body.  A thrown lambda is run
      in the same frame. */
  function Bounce(m: Machine, o: Outcome, tail: bool, who: Who): Step
  {
    if tail || !o.TailCall? then Done(o)
    else if LambdaClosure(o.func) then
      Goto(ApplyLambda(o.func.fun, o.args, false, Inside(o.func.scope, Who(Name(m, who.named), o.func))), o.st)
    else Goto(Apply(o.func, o.args, false), o.st)
  }

  /** Enters the body of a lambda; it is in tail position when no parameter is special.  When binding
      the last parameter fails, the lambda fails at once; when binding an earlier one does, the body
      is still run with the exception pending, which is not followed here.  Either way the special
      bindings made for the other parameters are not undone. */
  function Enter(m: Machine, vars: seq<Var>, body: Value, tail: bool, scope: Place, st: State): Step
  {
    var spec := SpecialCount(m.rules, scope.structure, vars);
    var bound := st.(special := BindSpecial(m.rules, scope.structure, vars, st.special));
    if AnyRefused(m.rules, scope.structure, vars) then
      Done(Err(VoidVariable(FirstRefused(m.rules, scope.structure, vars)),
               bound.(leaks := st.leaks + spec,
                      odd := st.odd || !Refused(m.rules, scope.structure, vars[|vars| - 1].sym))))
    else
      Sub(PrognFrom(body, Nil, spec == 0, scope.(env := BindEnv(m.rules, vars, scope.env))), bound,
        KBody(spec, tail, scope.who))
  }

  function Resume(m: Machine, k: Frame, o: Outcome): (s: Step)
    ensures StepRank(s) < FrameRank(k)
  {
    if k.KBody? then Bounce(m, Leave(o, k.spec), k.tail, k.who)
    else if k.KSettle? then Done(Settle(o))
    // The source stores null in the list when a dotted tail fails, and goes on to make the call.
    else if k.KDot? then Done(if o.Err? then Err(o.e, o.st.(odd := true)) else o)
    else if !o.Val? then Done(o)
    else match k
      case KInline(head, tail, scope) => Goto(ApplyLambda(head, o.v, tail, scope), o.st)
      case KFun(args, tail, scope) =>
        if !o.v.Form? then Sub(EvalList(args, scope), o.st, KArgs(o.v, tail, scope))
        else if o.v.form.Progn? then Goto(PrognFrom(args, Nil, tail, scope), o.st)
        else if o.v.form.Cond? then Goto(CondFrom(args, tail, scope), o.st)
        else Done(Immediate(o.v.form, args, scope, o.st))
      case KArgs(func, tail, scope) =>
        if m.tramp && tail && (func.Closure? || func.ApplySubr?) then
          Done(Throw(func, o.v, Name(m, scope.who.named), o.st))
        else Goto(Apply(func, o.v, tail), o.st)
      case KHead(rest, scope) => Sub(EvalList(rest, scope), o.st, KCons(o.v))
      case KCons(head) => Done(Val(Pair(head, o.v), o.st))
      case KProgn(rest, tail, scope) => Goto(PrognFrom(rest, o.v, tail, scope), o.st)
      case KCond(forms, rest, tail, scope) =>
        if o.v.Nil? then Goto(CondFrom(rest, tail, scope), o.st)
        else if forms.Pair? then Goto(PrognFrom(forms, Nil, tail, scope), o.st)
        else Done(o)
      case KDefault(rest, scope) => Sub(Defaults(rest, scope), o.st, KCons(o.v))
      case KBind(params, body, tail, scope) => Enter(m, Values(o.v, params), body, tail, scope, o.st)
  }

  /** Evaluates a task within a budget. */
  function Run(m: Machine, n: nat, t: Task, st: State): Outcome
    decreases n, 10
  {
    if n == 0 then Stuck(st) else Drive(m, n, Next(m, t, st))
  }

  function Drive(m: Machine, n: nat, s: Step): Outcome
    requires n > 0
    decreases n, StepRank(s)
  {
    match s
    case Done(o) => o
    case Goto(t, st) => Run(m, n - 1, t, st)
    case Sub(t, st, k) =>
      var o := Run(m, n - 1, t, st);
      if o.Stuck? then o else Drive(m, n, Resume(m, k, o))
  }
}
