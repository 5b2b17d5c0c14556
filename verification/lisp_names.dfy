/** What depends on the function that the call stack names: the data of a missing argument and nothing
    else.  With that, the trampoline and recursion on every call have the same outcomes. */
module LispNames {
  import opened LispEval
  import opened LispTail
  import opened LispTrampoline
  import opened LispEquivalence

  // ----- Forgetting the names -----

  function Unnamed(m: Machine): Machine
  {
    m.(named := false)
  }

  function BlankPlace(p: Place): Place
  {
    p.(who := Who(Nil, p.who.running))
  }

  function BlankTask(t: Task): Task
  {
    match t
    case Eval(obj, tail, scope) => Eval(obj, tail, BlankPlace(scope))
    case EvalList(list, scope) => EvalList(list, BlankPlace(scope))
    case PrognFrom(forms, result, tail, scope) => PrognFrom(forms, result, tail, BlankPlace(scope))
    case CondFrom(clauses, tail, scope) => CondFrom(clauses, tail, BlankPlace(scope))
    case Defaults(vars, scope) => Defaults(vars, BlankPlace(scope))
    case ApplyLambda(fun, args, tail, scope) => ApplyLambda(fun, args, tail, BlankPlace(scope))
    case Apply(_, _, _) => t
  }

  function BlankFrame(k: Frame): Frame
  {
    match k
    case KInline(head, tail, scope) => KInline(head, tail, BlankPlace(scope))
    case KFun(args, tail, scope) => KFun(args, tail, BlankPlace(scope))
    case KArgs(func, tail, scope) => KArgs(func, tail, BlankPlace(scope))
    case KHead(rest, scope) => KHead(rest, BlankPlace(scope))
    case KProgn(rest, tail, scope) => KProgn(rest, tail, BlankPlace(scope))
    case KCond(forms, rest, tail, scope) => KCond(forms, rest, tail, BlankPlace(scope))
    case KDefault(more, scope) => KDefault(more, BlankPlace(scope))
    case KBind(params, body, tail, scope) => KBind(params, body, tail, BlankPlace(scope))
    case KBody(spec, tail, who) => KBody(spec, tail, Who(Nil, who.running))
    case _ => k
  }

  function BlankError(e: Error): Error
  {
    if e.MissingArg? then MissingArg(Nil, e.callee, e.arg) else e
  }

  function BlankOutcome(o: Outcome): Outcome
  {
    if o.Err? then Err(BlankError(o.e), o.st) else o
  }

  function BlankStep(s: Step): Step
  {
    match s
    case Done(o) => Done(BlankOutcome(o))
    case Goto(t, st) => Goto(BlankTask(t), st)
    case Sub(t, st, k) => Sub(BlankTask(t), st, BlankFrame(k))
  }

  lemma NextBlank(m: Machine, t: Task, st: State)
    ensures Next(Unnamed(m), BlankTask(t), st) == BlankStep(Next(m, t, st))
  {
    hide ReadParams, Has, Find, SpreadArgs, StructureRef;
  }

  lemma EnterBlank(m: Machine, vars: seq<Var>, body: Value, tail: bool, scope: Place, st: State)
    ensures Enter(Unnamed(m), vars, body, tail, BlankPlace(scope), st) ==
      BlankStep(Enter(m, vars, body, tail, scope, st))
  {
    hide BindEnv, BindSpecial, SpecialCount, AnyRefused, FirstRefused, Refused;
  }

  lemma ResumeBlank(m: Machine, k: Frame, o: Outcome)
    ensures Resume(Unnamed(m), BlankFrame(k), BlankOutcome(o)) == BlankStep(Resume(m, k, o))
  {
    hide Enter, Values, Unbind, PlainApply, Star;
    if k.KBind? && o.Val? { EnterBlank(m, Values(o.v, k.params), k.body, k.tail, k.scope, o.st); }
  }

  /** Evaluation never looks at the names. */
  lemma {:induction false} RunBlank(m: Machine, n: nat, t: Task, st: State)
    ensures Run(Unnamed(m), n, BlankTask(t), st) == BlankOutcome(Run(m, n, t, st))
    decreases n, 10
  {
    hide Next, Resume, BlankTask;
    if n > 0 {
      NextBlank(m, t, st);
      DriveBlank(m, n, Next(m, t, st));
    }
  }

  lemma {:induction false} DriveBlank(m: Machine, n: nat, s: Step)
    requires n > 0
    ensures Drive(Unnamed(m), n, BlankStep(s)) == BlankOutcome(Drive(m, n, s))
    decreases n, StepRank(s)
  {
    hide Next, Resume, Run, BlankTask, BlankFrame, BlankError;
    match s
    case Done(o) =>
    case Goto(t, st) => RunBlank(m, n - 1, t, st);
    case Sub(t, st, k) =>
      RunBlank(m, n - 1, t, st);
      var o := Run(m, n - 1, t, st);
      if !o.Stuck? {
        ResumeBlank(m, k, o);
        DriveBlank(m, n, Resume(m, k, o));
      }
  }

  lemma EvaluatesBlank(m: Machine, t: Task, st: State, o: Outcome)
    requires Evaluates(m, t, st, o)
    ensures Evaluates(Unnamed(m), BlankTask(t), st, BlankOutcome(o))
  {
    hide Run, BlankTask, BlankError;
    var n: nat :| Run(m, n, t, st) == o;
    RunBlank(m, n, t, st);
  }

  lemma BlankEvaluates(m: Machine, t: Task, st: State, b: Outcome) returns (o: Outcome)
    requires Evaluates(Unnamed(m), BlankTask(t), st, b)
    ensures Evaluates(m, t, st, o) && BlankOutcome(o) == b
  {
    hide Run, BlankTask, BlankError;
    var n: nat :| Run(Unnamed(m), n, BlankTask(t), st) == b;
    RunBlank(m, n, t, st);
    o := Run(m, n, t, st);
  }

  lemma RegularBlank(m: Machine, t: Task, st: State)
    requires Regular(m, t, st)
    ensures Regular(Unnamed(m), BlankTask(t), st)
  {
    hide Run, BlankTask, BlankError;
    forall n: nat ensures !Run(Unnamed(m), n, BlankTask(t), st).st.odd { RunBlank(m, n, t, st); }
  }

  // ----- Recursion names the function that is running -----

  predicate Own(p: Place)
  {
    p.who.named == p.who.running
  }

  /** The call stack names the function that is running the task. */
  predicate OwnTask(t: Task)
  {
    t.Apply? || Own(t.scope)
  }

  predicate OwnFrame(k: Frame)
  {
    match k
    case KBody(_, _, who) => true
    case KDot => true
    case KCons(_) => true
    case KSettle => true
    case _ => Own(k.scope)
  }

  predicate OwnStep(s: Step)
  {
    match s
    case Done(o) => NamesCallee(o)
    case Goto(t, _) => OwnTask(t)
    case Sub(t, _, k) => OwnTask(t) && OwnFrame(k)
  }

  /** A missing argument is blamed on the function that was called. */
  predicate NamesCallee(o: Outcome)
  {
    o.Err? && o.e.MissingArg? ==> o.e.fun == o.e.callee
  }

  lemma NextOwn(m: Machine, t: Task, st: State)
    requires m.named && OwnTask(t)
    ensures OwnStep(Next(m, t, st))
  {
    hide ReadParams, SymbolValue, InlineLambda, SpreadArgs;
  }

  lemma ResumeOwn(m: Machine, k: Frame, o: Outcome)
    requires m.named && !m.tramp && OwnFrame(k) && NamesCallee(o) && !o.TailCall?
    ensures OwnStep(Resume(m, k, o))
  {
    hide Values, BindEnv, BindSpecial, SpecialCount, AnyRefused, FirstRefused, Refused, Unbind;
  }

  /** Without the trampoline every missing argument is blamed on the function called. */
  lemma {:induction false} RunOwn(m: Machine, n: nat, t: Task, st: State)
    requires m.named && !m.tramp && OwnTask(t)
    ensures NamesCallee(Run(m, n, t, st))
    decreases n, 10
  {
    hide Next, Resume, OwnTask;
    if n > 0 {
      NextOwn(m, t, st);
      NextQuiet(m, t, st);
      OwnDrive(m, n, Next(m, t, st));
    }
  }

  lemma {:induction false} OwnDrive(m: Machine, n: nat, s: Step)
    requires n > 0 && m.named && !m.tramp && OwnStep(s)
    ensures NamesCallee(Drive(m, n, s))
    decreases n, StepRank(s)
  {
    hide Next, Resume, Run, OwnTask, OwnFrame, NamesCallee;
    match s
    case Done(o) =>
    case Goto(t, st) => RunOwn(m, n - 1, t, st);
    case Sub(t, st, k) =>
      RunOwn(m, n - 1, t, st);
      NoThrow(m, n - 1, t, st);
      var o := Run(m, n - 1, t, st);
      if !o.Stuck? {
        ResumeOwn(m, k, o);
        OwnDrive(m, n, Resume(m, k, o));
      }
  }

  // ----- The two evaluators agree -----

  /** The outcome with a missing argument blamed on the function called. */
  function Renamed(o: Outcome): Outcome
  {
    if o.Err? && o.e.MissingArg? then Err(MissingArg(o.e.callee, o.e.callee, o.e.arg), o.st) else o
  }

  lemma BlankRenamed(o: Outcome, r: Outcome)
    requires BlankOutcome(o) == BlankOutcome(r) && NamesCallee(r)
    ensures r == Renamed(o)
  {
  }

  lemma DirectOwn(m: Machine, t: Task, st: State, r: Outcome)
    requires m.named && OwnTask(t) && Evaluates(Direct(m), t, st, r)
    ensures NamesCallee(r)
  {
    hide Run, NamesCallee;
    var n: nat :| Run(Direct(m), n, t, st) == r;
    RunOwn(Direct(m), n, t, st);
  }

  /** Outside tail position, the trampolined machine and the one that recurses on every call have the same
      values, final states and divergence, and the same errors up to the function that a missing argument is
      blamed on. */
  lemma SameRenamed(m: Machine, t: Task, st: State, o: Outcome)
    requires m.tramp && m.named && !TailOf(t) && OwnTask(t) && Regular(m, t, st)
    ensures Evaluates(m, t, st, o) ==> Evaluates(Direct(m), t, st, Renamed(o))
    ensures Evaluates(Direct(m), t, st, o) ==> exists r :: Evaluates(m, t, st, r) && Renamed(r) == o
  {
    hide Evaluates, Regular, OwnTask, TailOf, BlankTask, Renamed, BlankOutcome, NamesCallee;
    var u := Unnamed(m);
    var b := BlankTask(t);
    RegularBlank(m, t, st);
    BlankTail(t);
    assert Unnamed(Direct(m)) == Direct(u);
    if Evaluates(m, t, st, o) {
      EvaluatesBlank(m, t, st, o);
      SameUnnamed(u, b, st, BlankOutcome(o));
      var r := BlankEvaluates(Direct(m), t, st, BlankOutcome(o));
      DirectOwn(m, t, st, r);
      BlankRenamed(o, r);
    }
    if Evaluates(Direct(m), t, st, o) {
      EvaluatesBlank(Direct(m), t, st, o);
      SameUnnamed(u, b, st, BlankOutcome(o));
      var r := BlankEvaluates(m, t, st, BlankOutcome(o));
      DirectOwn(m, t, st, o);
      BlankRenamed(r, o);
    }
  }

  /** What an evaluation within a budget says about the evaluator that recurses. */
  lemma SoundNamed(m: Machine, n: nat, t: Task, st: State)
    requires m.tramp && m.named && !TailOf(t) && OwnTask(t)
    ensures var o := Run(m, n, t, st);
      !o.Stuck? && !o.st.odd ==>
        Evaluates(Direct(m), t, st, Renamed(o)) && (Evaluates(Direct(m), t, st, o) <==> NamesCallee(o))
  {
    hide Run, Evaluates, MeansTask, OwnTask, TailOf, BlankTask, Renamed, BlankError, NamesCallee;
    var o := Run(m, n, t, st);
    var u, b := Unnamed(m), BlankTask(t);
    if !o.Stuck? && !o.st.odd {
      RunBlank(m, n, t, st);
      BlankTail(t);
      NoEscape(m, n, t, st);
      SoundRun(u, n, b, st);
      MeansValue(u, b, st, BlankOutcome(o));
      assert Unnamed(Direct(m)) == Direct(u);
      var r := BlankEvaluates(Direct(m), t, st, BlankOutcome(o));
      DirectOwn(m, t, st, r);
      BlankRenamed(o, r);
      OnlyOwn(m, t, st, o);
    }
  }

  lemma OnlyOwn(m: Machine, t: Task, st: State, o: Outcome)
    requires m.named && OwnTask(t) && Evaluates(Direct(m), t, st, Renamed(o))
    ensures Evaluates(Direct(m), t, st, o) <==> NamesCallee(o)
  {
    hide Evaluates, OwnTask;
    if Evaluates(Direct(m), t, st, o) { DirectOwn(m, t, st, o); }
  }

  lemma BlankTail(t: Task)
    ensures TailOf(BlankTask(t)) == TailOf(t)
  {
  }

  /** ... and exactly the same outcome if and only if that function is the one that was called. */
  lemma SameOutcomes(m: Machine, t: Task, st: State, o: Outcome)
    requires m.tramp && m.named && !TailOf(t) && OwnTask(t) && Regular(m, t, st)
    ensures Evaluates(m, t, st, o) ==> (Evaluates(Direct(m), t, st, o) <==> NamesCallee(o))
    ensures Evaluates(Direct(m), t, st, o) ==> NamesCallee(o)
  {
    hide Evaluates, Regular, OwnTask, TailOf, Renamed, NamesCallee;
    SameRenamed(m, t, st, o);
    if Evaluates(Direct(m), t, st, o) { DirectOwn(m, t, st, o); }
    if Evaluates(m, t, st, o) { OnlyOwn(m, t, st, o); }
  }
}
