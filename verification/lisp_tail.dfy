/** Throwing tail calls to a trampoline means the same as recursing. */
module LispTail {
  import opened LispEval

  // ----- Budgets -----

  /** A larger budget changes nothing that was already decided, and forgets no oddness. */
  lemma {:induction false} MoreBudget(m: Machine, n: nat, n': nat, t: Task, st: State)
    requires n <= n'
    ensures var o, o' := Run(m, n, t, st), Run(m, n', t, st);
      (!o.Stuck? ==> o' == o) && (o.st.odd ==> o'.st.odd)
    decreases n, 10
  {
    hide Next, Resume;
    if n > 0 {
      MoreDrive(m, n, n', Next(m, t, st));
    } else if st.odd {
      OddStays(m, n', t, st);
    }
  }

  lemma {:induction false} MoreDrive(m: Machine, n: nat, n': nat, s: Step)
    requires 0 < n <= n'
    ensures var o, o' := Drive(m, n, s), Drive(m, n', s);
      (!o.Stuck? ==> o' == o) && (o.st.odd ==> o'.st.odd)
    decreases n, StepRank(s)
  {
    hide Next, Resume, Run;
    match s
    case Done(o) =>
    case Goto(t, st) => MoreBudget(m, n - 1, n' - 1, t, st);
    case Sub(t, st, k) =>
      MoreBudget(m, n - 1, n' - 1, t, st);
      var o := Run(m, n - 1, t, st);
      if !o.Stuck? {
        MoreDrive(m, n, n', Resume(m, k, o));
      } else if o.st.odd {
        var o' := Run(m, n' - 1, t, st);
        if !o'.Stuck? {
          ResumeOdd(m, k, o');
          OddDrive(m, n', Resume(m, k, o'));
        }
      }
  }

  function OddOf(s: Step): bool
  {
    if s.Done? then s.o.st.odd else s.st.odd
  }

  lemma NextOdd(m: Machine, t: Task, st: State)
    requires st.odd
    ensures OddOf(Next(m, t, st))
  {
  }

  lemma ResumeOdd(m: Machine, k: Frame, o: Outcome)
    requires o.st.odd
    ensures OddOf(Resume(m, k, o))
  {
  }

  /** Oddness, once recorded, stays. */
  lemma {:induction false} OddStays(m: Machine, n: nat, t: Task, st: State)
    requires st.odd
    ensures Run(m, n, t, st).st.odd
    decreases n, 10
  {
    hide Next, Resume;
    if n > 0 {
      NextOdd(m, t, st);
      OddDrive(m, n, Next(m, t, st));
    }
  }

  lemma {:induction false} OddDrive(m: Machine, n: nat, s: Step)
    requires n > 0 && OddOf(s)
    ensures Drive(m, n, s).st.odd
    decreases n, StepRank(s)
  {
    hide Next, Resume, Run;
    match s
    case Done(o) =>
    case Goto(t, st) => OddStays(m, n - 1, t, st);
    case Sub(t, st, k) =>
      OddStays(m, n - 1, t, st);
      var o := Run(m, n - 1, t, st);
      if !o.Stuck? {
        ResumeOdd(m, k, o);
        OddDrive(m, n, Resume(m, k, o));
      }
  }

  // ----- Throws -----

  predicate TailOf(t: Task)
  {
    match t
    case Eval(_, tail, _) => tail
    case PrognFrom(_, _, tail, _) => tail
    case CondFrom(_, tail, _) => tail
    case ApplyLambda(_, _, tail, _) => tail
    case Apply(_, _, tail) => tail
    case _ => false
  }

  /** `s` belongs to a task in tail position (`tail`) or not: nothing below it may throw in the second case. */
  predicate Within(s: Step, tail: bool)
  {
    match s
    case Done(o) => o.TailCall? ==> tail
    case Goto(t, _) => TailOf(t) ==> tail
    case Sub(t, _, k) => FrameWithin(k, tail) && (TailOf(t) ==> k.KBody? || (k.KSettle? && tail))
  }

  predicate FrameWithin(k: Frame, tail: bool)
  {
    match k
    case KInline(_, t, _) => t ==> tail
    case KFun(_, t, _) => t ==> tail
    case KArgs(_, t, _) => t ==> tail
    case KProgn(_, t, _) => t ==> tail
    case KCond(_, _, t, _) => t ==> tail
    case KBind(_, _, t, _) => t ==> tail
    case KBody(_, t, _) => t ==> tail
    case _ => true
  }

  lemma NextWithin(m: Machine, t: Task, st: State)
    ensures Within(Next(m, t, st), TailOf(t))
  {
  }

  lemma ResumeWithin(m: Machine, k: Frame, o: Outcome, tail: bool)
    requires FrameWithin(k, tail) && (o.TailCall? ==> k.KBody? || (k.KSettle? && tail))
    ensures Within(Resume(m, k, o), tail)
  {
  }

  /** A throw reaches only those who evaluated something in tail position. */
  lemma {:induction false} NoEscape(m: Machine, n: nat, t: Task, st: State)
    ensures Run(m, n, t, st).TailCall? ==> TailOf(t)
    decreases n, 10
  {
    hide Next, Resume;
    if n > 0 {
      NextWithin(m, t, st);
      NoEscapeDrive(m, n, Next(m, t, st), TailOf(t));
    }
  }

  lemma {:induction false} NoEscapeDrive(m: Machine, n: nat, s: Step, tail: bool)
    requires n > 0 && Within(s, tail)
    ensures Drive(m, n, s).TailCall? ==> tail
    decreases n, StepRank(s)
  {
    hide Next, Resume, Run;
    match s
    case Done(o) =>
    case Goto(t, st) => NoEscape(m, n - 1, t, st);
    case Sub(t, st, k) =>
      NoEscape(m, n - 1, t, st);
      var o := Run(m, n - 1, t, st);
      if !o.Stuck? {
        ResumeWithin(m, k, o, tail);
        NoEscapeDrive(m, n, Resume(m, k, o), tail);
      }
  }

  /** Without the trampoline nothing is thrown. */
  lemma {:induction false} NoThrow(m: Machine, n: nat, t: Task, st: State)
    requires !m.tramp
    ensures !Run(m, n, t, st).TailCall?
    decreases n, 10
  {
    hide Next, Resume;
    if n > 0 {
      NextQuiet(m, t, st);
      NoThrowDrive(m, n, Next(m, t, st));
    }
  }

  lemma NextQuiet(m: Machine, t: Task, st: State)
    ensures Next(m, t, st).Done? ==> !Next(m, t, st).o.TailCall?
  {
  }

  lemma ResumeQuiet(m: Machine, k: Frame, o: Outcome)
    requires !m.tramp && !o.TailCall?
    ensures Resume(m, k, o).Done? ==> !Resume(m, k, o).o.TailCall?
  {
  }

  lemma {:induction false} NoThrowDrive(m: Machine, n: nat, s: Step)
    requires n > 0 && !m.tramp && (s.Done? ==> !s.o.TailCall?)
    ensures !Drive(m, n, s).TailCall?
    decreases n, StepRank(s)
  {
    hide Next, Resume, Run;
    match s
    case Done(o) =>
    case Goto(t, st) => NoThrow(m, n - 1, t, st);
    case Sub(t, st, k) =>
      NoThrow(m, n - 1, t, st);
      var o := Run(m, n - 1, t, st);
      if !o.Stuck? {
        ResumeQuiet(m, k, o);
        NoThrowDrive(m, n, Resume(m, k, o));
      }
  }

  // ----- A failure without an exception is odd -----

  predicate Proper(o: Outcome)
  {
    o.Err? && o.e.NoError? ==> o.st.odd
  }

  lemma NextProper(m: Machine, t: Task, st: State)
    ensures Next(m, t, st).Done? ==> Proper(Next(m, t, st).o)
  {
    hide ReadParams;
  }

  lemma ResumeProper(m: Machine, k: Frame, o: Outcome)
    requires Proper(o)
    ensures Resume(m, k, o).Done? ==> Proper(Resume(m, k, o).o)
  {
  }

  lemma {:induction false} RunProper(m: Machine, n: nat, t: Task, st: State)
    ensures Proper(Run(m, n, t, st))
    decreases n, 10
  {
    hide Next, Resume;
    if n > 0 {
      NextProper(m, t, st);
      ProperDrive(m, n, Next(m, t, st));
    }
  }

  lemma {:induction false} ProperDrive(m: Machine, n: nat, s: Step)
    requires n > 0 && (s.Done? ==> Proper(s.o))
    ensures Proper(Drive(m, n, s))
    decreases n, StepRank(s)
  {
    hide Next, Resume, Run;
    match s
    case Done(o) =>
    case Goto(t, st) => RunProper(m, n - 1, t, st);
    case Sub(t, st, k) =>
      RunProper(m, n - 1, t, st);
      var o := Run(m, n - 1, t, st);
      if !o.Stuck? {
        ResumeProper(m, k, o);
        ProperDrive(m, n, Resume(m, k, o));
      }
  }
}
