/** Evaluation with the trampoline gives the results of evaluation that recurses on every call. */
module LispEquivalence {
  import opened LispEval
  import opened LispTail
  import opened LispTrampoline

  // ----- A thrown call stands for the call itself -----

  /** What outcome `o` of the trampolined machine promises about the direct one started at `s`. */
  ghost predicate Means(m: Machine, s: Step, o: Outcome)
  {
    if o.TailCall? then forall r :: Evaluates(Direct(m), Apply(o.func, o.args, false), o.st, r) ==>
      Steps(Direct(m), s, r)
    else Steps(Direct(m), s, o)
  }

  ghost predicate MeansTask(m: Machine, t: Task, st: State, o: Outcome)
  {
    if o.TailCall? then forall r :: Evaluates(Direct(m), Apply(o.func, o.args, false), o.st, r) ==>
      Evaluates(Direct(m), t, st, r)
    else Evaluates(Direct(m), t, st, o)
  }

  lemma MeansNext(m: Machine, t: Task, st: State, o: Outcome)
    requires Means(m, Next(m, t, st), o)
    ensures MeansTask(m, t, st, o)
  {
    hide Next, Evaluates, Steps;
    NextSame(m, t, st);
    if o.TailCall? {
      forall r | Evaluates(Direct(m), Apply(o.func, o.args, false), o.st, r) ensures Evaluates(Direct(m), t, st, r) {
        EvalSteps(Direct(m), t, st, r);
      }
    } else {
      EvalSteps(Direct(m), t, st, o);
    }
  }

  lemma MeansGoto(m: Machine, t: Task, st: State, o: Outcome)
    requires MeansTask(m, t, st, o)
    ensures Means(m, Goto(t, st), o)
  {
    hide Evaluates, Steps;
    if o.TailCall? {
      forall r | Evaluates(Direct(m), Apply(o.func, o.args, false), o.st, r) ensures Steps(Direct(m), Goto(t, st), r) {
        GotoSteps(Direct(m), t, st, r);
      }
    } else {
      GotoSteps(Direct(m), t, st, o);
    }
  }

  lemma MeansSub(m: Machine, t: Task, st: State, k: Frame, o1: Outcome, o: Outcome)
    requires Evaluates(Direct(m), t, st, o1) && Means(m, Resume(Direct(m), k, o1), o)
    ensures Means(m, Sub(t, st, k), o)
  {
    hide Evaluates, Steps, Resume;
    if o.TailCall? {
      forall r | Evaluates(Direct(m), Apply(o.func, o.args, false), o.st, r)
        ensures Steps(Direct(m), Sub(t, st, k), r)
      {
        SubSteps(Direct(m), t, st, k, o1, r);
      }
    } else {
      SubSteps(Direct(m), t, st, k, o1, o);
    }
  }

  /** A throw promises the call it replaces. */
  lemma MeansThrow(m: Machine, k: Frame, o1: Outcome)
    requires !m.named && Throws(m, k) && o1.Val? && !Throw(k.func, o1.v, Nil, o1.st).st.odd
    ensures Means(m, Resume(Direct(m), k, o1), Throw(k.func, o1.v, Nil, o1.st))
  {
    hide Evaluates, Steps, Resume, Throw;
    var o := Throw(k.func, o1.v, Nil, o1.st);
    ResumeThrows(m, k, o1);
    if o.TailCall? {
      forall r | Evaluates(Direct(m), Apply(o.func, o.args, false), o.st, r)
        ensures Steps(Direct(m), Resume(Direct(m), k, o1), r)
      {
        ThrownCall(Direct(m), k.func, o1.v, k.tail, o1.st, r);
        GotoSteps(Direct(m), Apply(k.func, o1.v, k.tail), o1.st, r);
      }
    } else {
      ThrownCall(Direct(m), k.func, o1.v, k.tail, o1.st, o);
      GotoSteps(Direct(m), Apply(k.func, o1.v, k.tail), o1.st, o);
    }
  }

  /** A call never fails without an exception. */
  lemma {:induction false} CallSettles(m: Machine, n: nat, func: Value, args: Value, tail: bool, st: State)
    ensures var o := Run(m, n, Apply(func, args, tail), st); Settle(o) == o
    decreases n
  {
    hide Resume, Run, Drive, SpreadArgs;
    if n == 0 { Exhausted(m, Apply(func, args, tail), st); return; }
    RunNext(m, n, Apply(func, args, tail), st);
    var s := Next(m, Apply(func, args, tail), st);
    match s
    case Done(o) => DriveDone(m, n, o);
    case Goto(t, st') => DriveGoto(m, n, t, st'); CallSettles(m, n - 1, t.fun, t.args, t.tail, st');
    case Sub(t, st', k) =>
      DriveSub(m, n, t, st', k);
      var o := Run(m, n - 1, t, st');
      if !o.Stuck? { ResumeSettle(m, o); DriveDone(m, n, Settle(o)); }
  }

  lemma DriveDone(m: Machine, n: nat, o: Outcome)
    requires n > 0
    ensures Drive(m, n, Done(o)) == o
  {
  }

  lemma DriveGoto(m: Machine, n: nat, t: Task, st: State)
    requires n > 0
    ensures Drive(m, n, Goto(t, st)) == Run(m, n - 1, t, st)
  {
    hide Run;
  }

  lemma ResumeSettle(m: Machine, o: Outcome)
    ensures Resume(m, KSettle, o) == Done(Settle(o))
  {
  }

  lemma ResumeBody0(m: Machine, o: Outcome, tail: bool, who: Who)
    ensures Resume(m, KBody(0, tail, who), o) == Bounce(m, o, tail, who)
  {
    LeaveNothing(o);
  }

  /** A frame the trampoline leaves alone: what its task threw, it throws. */
  predicate Passes(k: Frame)
  {
    k.KSettle? || (k.KBody? && k.spec == 0)
  }

  lemma DirectPasses(m: Machine, k: Frame, func: Value, args: Value, st: State, r: Outcome)
    requires Passes(k) && Evaluates(Direct(m), Apply(func, args, false), st, r)
    ensures Resume(Direct(m), k, r) == Done(r)
  {
    hide Run, Resume;
    var n: nat :| Run(Direct(m), n, Apply(func, args, false), st) == r;
    NoThrow(Direct(m), n, Apply(func, args, false), st);
    CallSettles(Direct(m), n, func, args, false, st);
    if k.KSettle? { ResumeSettle(Direct(m), r); } else { ResumeBody0(Direct(m), r, k.tail, k.who); }
  }

  lemma MeansPass(m: Machine, t: Task, st: State, k: Frame, o: Outcome)
    requires Passes(k) && o.TailCall? && MeansTask(m, t, st, o)
    ensures Means(m, Sub(t, st, k), o)
  {
    hide Evaluates, Steps, Resume;
    forall r | Evaluates(Direct(m), Apply(o.func, o.args, false), o.st, r) ensures Steps(Direct(m), Sub(t, st, k), r) {
      PassSteps(m, t, st, k, o.func, o.args, o.st, r);
    }
  }

  lemma PassSteps(m: Machine, t: Task, st: State, k: Frame, func: Value, args: Value, st': State, r: Outcome)
    requires Passes(k) && Evaluates(Direct(m), Apply(func, args, false), st', r)
    requires Evaluates(Direct(m), t, st, r)
    ensures Steps(Direct(m), Sub(t, st, k), r)
  {
    hide Steps, Resume, Run;
    DirectPasses(m, k, func, args, st', r);
    DoneSteps(Direct(m), r);
    SubSteps(Direct(m), t, st, k, r, r);
  }

  /** The task the trampoline continues with. */
  function Thrown(m: Machine, o: Outcome, who: Who): Task
    requires o.TailCall?
  {
    if LambdaClosure(o.func) then
      ApplyLambda(o.func.fun, o.args, false, Inside(o.func.scope, Who(Name(m, who.named), o.func)))
    else Apply(o.func, o.args, false)
  }

  lemma BounceThrown(m: Machine, o: Outcome, who: Who)
    requires o.TailCall?
    ensures Bounce(m, o, false, who) == Goto(Thrown(m, o, who), o.st) && !TailOf(Thrown(m, o, who))
  {
  }

  lemma ThrownIsCall(m: Machine, o: Outcome, who: Who, r: Outcome)
    requires !m.named && o.TailCall? && Evaluates(Direct(m), Thrown(m, o, who), o.st, r) && Settle(r) == r
    ensures Evaluates(Direct(m), Apply(o.func, o.args, false), o.st, r)
  {
    hide Evaluates, Steps, Resume;
    var d := Direct(m);
    if LambdaClosure(o.func) {
      ResumeSettle(d, r);
      Decided(d, Thrown(m, o, who), o.st, r);
      DoneSteps(d, r);
      SubSteps(d, Thrown(m, o, who), o.st, KSettle, r, r);
      ApplyClosure(d, o.func, o.args, false, o.st);
      EvalSteps(d, Apply(o.func, o.args, false), o.st, r);
    }
  }

  lemma Decided(m: Machine, t: Task, st: State, r: Outcome)
    requires Evaluates(m, t, st, r)
    ensures !r.Stuck?
  {
  }

  lemma ApplyClosure(m: Machine, func: Value, args: Value, tail: bool, st: State)
    requires LambdaClosure(func)
    ensures Next(m, Apply(func, args, tail), st) ==
      Sub(ApplyLambda(func.fun, args, tail, Inside(func.scope, Calling(m, func))), st, KSettle)
  {
  }

  // ----- Soundness -----

  lemma {:induction false} SoundRun(m: Machine, n: nat, t: Task, st: State)
    requires m.tramp && !m.named
    ensures var o := Run(m, n, t, st); !o.Stuck? && !o.st.odd ==> MeansTask(m, t, st, o)
    decreases n, 10
  {
    hide Next, Resume, Run, Means, MeansTask, Drive;
    var o := Run(m, n, t, st);
    if n == 0 {
      Exhausted(m, t, st);
    } else if !o.Stuck? && !o.st.odd {
      RunNext(m, n, t, st);
      NextWithin(m, t, st);
      NextBody(m, t, st);
      NextQuiet(m, t, st);
      SoundDrive(m, n, Next(m, t, st), TailOf(t));
      MeansNext(m, t, st, o);
    }
  }

  lemma {:induction false} SoundDrive(m: Machine, n: nat, s: Step, tail: bool)
    requires m.tramp && !m.named && n > 0 && Within(s, tail) && BodyOk(s) && (s.Done? ==> !s.o.TailCall?)
    requires !Drive(m, n, s).Stuck? && !Drive(m, n, s).st.odd
    ensures Means(m, s, Drive(m, n, s))
    decreases n, StepRank(s)
  {
    hide Next, Resume, Run, Drive, MeansTask, Within, BodyOk;
    var o := Drive(m, n, s);
    match s
    case Done(o') =>
      DriveDone(m, n, o');
      DoneSteps(Direct(m), o');
      StepsMean(m, s, o);
    case Goto(t, st) =>
      DriveGoto(m, n, t, st);
      SoundRun(m, n - 1, t, st);
      MeansGoto(m, t, st, o);
    case Sub(t, st, k) =>
      DriveSub(m, n, t, st, k);
      var o1 := Run(m, n - 1, t, st);
      if o1.st.odd { ResumeOdd(m, k, o1); OddDrive(m, n, Resume(m, k, o1)); }
      SoundRun(m, n - 1, t, st);
      if o1.TailCall? {
        ThrowsReach(m, n - 1, t, st, k, tail);
        SoundPass(m, n, t, st, k, o1, o);
      } else {
        assert Evaluates(Direct(m), t, st, o1) by { MeansValue(m, t, st, o1); }
        SoundResume(m, n, t, st, k, tail, o1);
      }
  }

  lemma MeansValue(m: Machine, t: Task, st: State, o: Outcome)
    requires MeansTask(m, t, st, o) && !o.TailCall?
    ensures Evaluates(Direct(m), t, st, o)
  {
  }

  lemma WithinFrame(t: Task, st: State, k: Frame, tail: bool)
    requires Within(Sub(t, st, k), tail)
    ensures FrameWithin(k, tail)
  {
  }

  /** A throw gets only to frames that pass it on. */
  lemma ThrowsReach(m: Machine, n: nat, t: Task, st: State, k: Frame, tail: bool)
    requires Run(m, n, t, st).TailCall? && Within(Sub(t, st, k), tail) && BodyOk(Sub(t, st, k))
    ensures Passes(k)
  {
    hide Run;
    NoEscape(m, n, t, st);
  }

  lemma {:induction false} SoundResume(m: Machine, n: nat, t: Task, st: State, k: Frame, tail: bool, o1: Outcome)
    requires m.tramp && !m.named && n > 0 && Within(Sub(t, st, k), tail) && !o1.TailCall?
    requires Evaluates(Direct(m), t, st, o1)
    requires var o := Drive(m, n, Resume(m, k, o1)); !o.Stuck? && !o.st.odd
    ensures Means(m, Sub(t, st, k), Drive(m, n, Resume(m, k, o1)))
    decreases n, FrameRank(k), 0
  {
    hide Next, Resume, Run, Drive, MeansTask, Means, Within, Throw, BodyOk, Evaluates;
    var o := Drive(m, n, Resume(m, k, o1));
    if Throws(m, k) && o1.Val? {
      ResumeThrows(m, k, o1);
      DriveDone(m, n, Throw(k.func, o1.v, Nil, o1.st));
      MeansThrow(m, k, o1);
    } else {
      ResumeSame(m, k, o1);
      ResumeQuiet(Direct(m), k, o1);
      ResumeBody(m, k, o1);
      WithinFrame(t, st, k, tail);
      ResumeWithin(m, k, o1, tail);
      SoundDrive(m, n, Resume(m, k, o1), tail);
    }
    MeansSub(m, t, st, k, o1, o);
  }

  lemma {:induction false} SoundPass(m: Machine, n: nat, t: Task, st: State, k: Frame, o1: Outcome, o: Outcome)
    requires m.tramp && !m.named && n > 0 && Passes(k) && o1.TailCall? && MeansTask(m, t, st, o1)
    requires o == Drive(m, n, Resume(m, k, o1)) && !o.Stuck? && !o.st.odd
    ensures Means(m, Sub(t, st, k), o)
    decreases n, 0
  {
    hide Next, Resume, Run, Drive, MeansTask, Means, Evaluates;
    if k.KSettle? {
      ResumeSettle(m, o1);
      DriveDone(m, n, o1);
      MeansPass(m, t, st, k, o1);
    } else {
      ResumeBody0(m, o1, k.tail, k.who);
      if k.tail {
        DriveDone(m, n, o1);
        MeansPass(m, t, st, k, o1);
      } else {
        BounceThrown(m, o1, k.who);
        DriveGoto(m, n, Thrown(m, o1, k.who), o1.st);
        SoundRun(m, n - 1, Thrown(m, o1, k.who), o1.st);
        NoEscape(m, n - 1, Thrown(m, o1, k.who), o1.st);
        RunProper(m, n - 1, Thrown(m, o1, k.who), o1.st);
        MeansValue(m, Thrown(m, o1, k.who), o1.st, o);
        ThrownIsCall(m, o1, k.who, o);
        MeansCall(m, t, st, o1, o);
        PassSteps(m, t, st, k, o1.func, o1.args, o1.st, o);
        StepsMean(m, Sub(t, st, k), o);
      }
    }
  }

  lemma MeansCall(m: Machine, t: Task, st: State, o1: Outcome, o: Outcome)
    requires o1.TailCall? && MeansTask(m, t, st, o1)
    requires Evaluates(Direct(m), Apply(o1.func, o1.args, false), o1.st, o)
    ensures Evaluates(Direct(m), t, st, o)
  {
    hide Evaluates;
  }

  lemma StepsMean(m: Machine, s: Step, o: Outcome)
    requires Steps(Direct(m), s, o) && !o.TailCall?
    ensures Means(m, s, o)
  {
  }

  // ----- Completeness -----

  /** Outcome `o` of the trampolined machine accounts for the direct outcome `r` found within `n`:
      it is that outcome, or the throw of a call that has it. */
  predicate Matches(m: Machine, n: nat, o: Outcome, r: Outcome)
  {
    o.st.odd || o == r ||
    (o.TailCall? && n > 0 && Run(Direct(m), n - 1, Apply(o.func, o.args, false), o.st) == r)
  }

  ghost predicate Reaches(m: Machine, n: nat, t: Task, st: State, r: Outcome)
  {
    exists k: nat :: Matches(m, n, Run(m, k, t, st), r)
  }

  ghost predicate ReachesStep(m: Machine, n: nat, s: Step, r: Outcome)
  {
    exists k: nat :: k > 0 && Matches(m, n, Drive(m, k, s), r)
  }

  lemma Reached(m: Machine, n: nat, t: Task, st: State, r: Outcome) returns (k: nat)
    requires Reaches(m, n, t, st, r)
    ensures Matches(m, n, Run(m, k, t, st), r)
  {
    hide Run, Matches;
    k :| Matches(m, n, Run(m, k, t, st), r);
  }

  lemma MatchesMore(m: Machine, n: nat, n': nat, o: Outcome, r: Outcome)
    requires Matches(m, n, o, r) && n <= n' && !r.Stuck?
    ensures Matches(m, n', o, r)
  {
    hide Run;
    if o.TailCall? && n > 0 { MoreBudget(Direct(m), n - 1, n' - 1, Apply(o.func, o.args, false), o.st); }
  }

  /** The trampolined machine may take longer: what it then finds still matches. */
  lemma MatchesLater(m: Machine, n: nat, k: nat, k': nat, s: Step, r: Outcome)
    requires 0 < k <= k' && !r.Stuck? && Matches(m, n, Drive(m, k, s), r)
    ensures Matches(m, n, Drive(m, k', s), r)
  {
    hide Run, Drive;
    MoreDrive(m, k, k', s);
  }

  lemma ReachesNext(m: Machine, n: nat, t: Task, st: State, r: Outcome)
    requires ReachesStep(m, n, Next(m, t, st), r)
    ensures Reaches(m, n, t, st, r)
  {
    hide Run, Drive, Next, Matches;
    var k: nat :| k > 0 && Matches(m, n, Drive(m, k, Next(m, t, st)), r);
    RunNext(m, k, t, st);
    assert Matches(m, n, Run(m, k, t, st), r);
  }

  lemma ReachesGoto(m: Machine, n: nat, t: Task, st: State, r: Outcome)
    requires n > 0 && !r.Stuck? && Reaches(m, n - 1, t, st, r)
    ensures ReachesStep(m, n, Goto(t, st), r)
  {
    hide Run, Drive, Next, Matches;
    var k: nat :| Matches(m, n - 1, Run(m, k, t, st), r);
    MatchesMore(m, n - 1, n, Run(m, k, t, st), r);
    DriveGoto(m, k + 1, t, st);
    assert Matches(m, n, Drive(m, k + 1, Goto(t, st)), r);
  }

  /** Once the subtask has its outcome `o1` within `k1`, the frame goes on. */
  lemma ReachesSub(m: Machine, n: nat, k1: nat, t: Task, st: State, k: Frame, o1: Outcome, r: Outcome)
    requires !r.Stuck? && Run(m, k1, t, st) == o1 && !o1.Stuck? && ReachesStep(m, n, Resume(m, k, o1), r)
    ensures ReachesStep(m, n, Sub(t, st, k), r)
  {
    hide Run, Drive, Resume, Matches;
    var k2: nat :| k2 > 0 && Matches(m, n, Drive(m, k2, Resume(m, k, o1)), r);
    var j := k1 + k2 + 1;
    MoreBudget(m, k1, j - 1, t, st);
    MatchesLater(m, n, k2, j, Resume(m, k, o1), r);
    DriveSub(m, j, t, st, k);
    assert Matches(m, n, Drive(m, j, Sub(t, st, k)), r);
  }

  lemma ReachesDone(m: Machine, n: nat, o: Outcome, r: Outcome)
    requires Matches(m, n, o, r)
    ensures ReachesStep(m, n, Done(o), r)
  {
    hide Run, Drive, Matches;
    DriveDone(m, 1, o);
    assert Matches(m, n, Drive(m, 1, Done(o)), r);
  }

  lemma ReachesOdd(m: Machine, n: nat, k1: nat, t: Task, st: State, k: Frame, r: Outcome)
    requires Run(m, k1, t, st).st.odd
    ensures ReachesStep(m, n, Sub(t, st, k), r)
  {
    hide Run, Drive, Resume;
    var o := Run(m, k1 + 1 - 1, t, st);
    DriveSub(m, k1 + 1, t, st, k);
    if !o.Stuck? { ResumeOdd(m, k, o); OddDrive(m, k1 + 1, Resume(m, k, o)); }
    assert Matches(m, n, Drive(m, k1 + 1, Sub(t, st, k)), r);
  }

  lemma {:induction false} CompleteRun(m: Machine, n: nat, t: Task, st: State)
    requires m.tramp && !m.named && !Run(Direct(m), n, t, st).Stuck?
    ensures Reaches(m, n, t, st, Run(Direct(m), n, t, st))
    decreases n, 10
  {
    hide Next, Resume, Run, Drive, Reaches, ReachesStep;
    var d := Direct(m);
    if n == 0 { Exhausted(d, t, st); return; }
    RunNext(d, n, t, st);
    NextSame(m, t, st);
    NextWithin(m, t, st);
    NextBody(m, t, st);
    CompleteDrive(m, n, Next(m, t, st), TailOf(t));
    ReachesNext(m, n, t, st, Run(d, n, t, st));
  }

  lemma {:induction false} CompleteDrive(m: Machine, n: nat, s: Step, tail: bool)
    requires m.tramp && !m.named && n > 0 && Within(s, tail) && BodyOk(s)
    requires !Drive(Direct(m), n, s).Stuck?
    ensures ReachesStep(m, n, s, Drive(Direct(m), n, s))
    decreases n, StepRank(s)
  {
    hide Next, Resume, Run, Drive, Reaches, ReachesStep, Within, BodyOk;
    var d := Direct(m);
    var r := Drive(d, n, s);
    match s
    case Done(o) => DriveDone(d, n, o); ReachesDone(m, n, o, r);
    case Goto(t, st) =>
      DriveGoto(d, n, t, st);
      CompleteRun(m, n - 1, t, st);
      ReachesGoto(m, n, t, st, r);
    case Sub(t, st, k) =>
      DriveSub(d, n, t, st, k);
      var o1 := Run(d, n - 1, t, st);
      CompleteRun(m, n - 1, t, st);
      var k1 := Reached(m, n - 1, t, st, o1);
      var o := Run(m, k1, t, st);
      NoThrow(d, n - 1, t, st);
      if o.st.odd {
        ReachesOdd(m, n, k1, t, st, k, r);
      } else if o == o1 {
        CompleteResume(m, n, k, t, st, tail, o1);
        ReachesSub(m, n, k1, t, st, k, o1, r);
      } else {
        ThrowsReach(m, k1, t, st, k, tail);
        CompletePass(m, n, k, o, o1);
        ReachesSub(m, n, k1, t, st, k, o, r);
      }
  }

  lemma {:induction false} CompleteResume(m: Machine, n: nat, k: Frame, t: Task, st: State, tail: bool, o1: Outcome)
    requires m.tramp && !m.named && n > 0 && Within(Sub(t, st, k), tail) && !o1.TailCall?
    requires !Drive(Direct(m), n, Resume(Direct(m), k, o1)).Stuck?
    ensures ReachesStep(m, n, Resume(m, k, o1), Drive(Direct(m), n, Resume(Direct(m), k, o1)))
    decreases n, FrameRank(k), 0
  {
    hide Next, Resume, Run, Drive, Reaches, ReachesStep, BodyOk, Within, Throw;
    if Throws(m, k) && o1.Val? {
      ResumeThrows(m, k, o1);
      DriveGoto(Direct(m), n, Apply(k.func, o1.v, k.tail), o1.st);
      ThrowMatches(m, n, k.func, o1.v, k.tail, o1.st);
      ReachesDone(m, n, Throw(k.func, o1.v, Nil, o1.st), Run(Direct(m), n - 1, Apply(k.func, o1.v, k.tail), o1.st));
    } else {
      ResumeSame(m, k, o1);
      ResumeBody(m, k, o1);
      WithinFrame(t, st, k, tail);
      ResumeWithin(m, k, o1, tail);
      CompleteDrive(m, n, Resume(m, k, o1), tail);
    }
  }

  lemma ThrowMatches(m: Machine, n: nat, func: Value, args: Value, tail: bool, st: State)
    requires !m.named && (func.Closure? || func.ApplySubr?)
    requires n > 0 && !Run(Direct(m), n - 1, Apply(func, args, tail), st).Stuck?
    ensures Matches(m, n, Throw(func, args, Nil, st), Run(Direct(m), n - 1, Apply(func, args, tail), st))
  {
    hide Next, Run, Drive, Throw;
    var d := Direct(m);
    var o := Throw(func, args, Nil, st);
    if o.st.odd { return; }
    if func.Closure? {
      ThrowClosure(func, args, st);
      FlagIrrelevant(d, n - 1, func, args, tail, st);
    } else {
      ThrowApply(d, args, tail, st);
      if n == 1 { Exhausted(d, Apply(func, args, tail), st); return; }
      RunNext(d, n - 1, Apply(func, args, tail), st);
      if o.TailCall? {
        DriveGoto(d, n - 1, Apply(o.func, o.args, false), o.st);
        MoreBudget(d, n - 2, n - 1, Apply(o.func, o.args, false), o.st);
      } else {
        DriveDone(d, n - 1, o);
      }
    }
  }

  /** The frame that receives a throw `o`, where the direct machine got the outcome `o1` of the call. */
  lemma {:induction false} CompletePass(m: Machine, n: nat, k: Frame, o: Outcome, o1: Outcome)
    requires m.tramp && !m.named && n > 1 && Passes(k) && o.TailCall? && !o1.Stuck? && !o1.TailCall?
    requires Run(Direct(m), n - 2, Apply(o.func, o.args, false), o.st) == o1
    ensures ReachesStep(m, n, Resume(m, k, o), Drive(Direct(m), n, Resume(Direct(m), k, o1)))
    decreases n, 0
  {
    hide Next, Resume, Run, Drive, Reaches, ReachesStep;
    var d := Direct(m);
    CallSettles(d, n - 2, o.func, o.args, false, o.st);
    if k.KSettle? {
      ResumeSettle(d, o1);
      ResumeSettle(m, o);
    } else {
      ResumeBody0(d, o1, k.tail, k.who);
      ResumeBody0(m, o, k.tail, k.who);
    }
    DriveDone(d, n, o1);
    if k.KSettle? || k.tail {
      MoreBudget(d, n - 2, n - 1, Apply(o.func, o.args, false), o.st);
      ReachesDone(m, n, o, o1);
    } else {
      BounceThrown(m, o, k.who);
      CompleteThrown(m, n, o, k.who, o1);
      ReachesGoto(m, n, Thrown(m, o, k.who), o.st, o1);
    }
  }

  lemma {:induction false} CompleteThrown(m: Machine, n: nat, o: Outcome, who: Who, o1: Outcome)
    requires m.tramp && !m.named && n > 1 && o.TailCall? && !o1.Stuck?
    requires Run(Direct(m), n - 2, Apply(o.func, o.args, false), o.st) == o1
    ensures Reaches(m, n - 1, Thrown(m, o, who), o.st, o1)
    decreases n - 1, 0
  {
    hide Next, Resume, Run, Drive, ReachesStep;
    var d := Direct(m);
    var j: nat := n - 2;
    var call := Apply(o.func, o.args, false);
    if LambdaClosure(o.func) {
      if j == 0 { Exhausted(d, call, o.st); return; }
      RunNext(d, j, call, o.st);
      ApplyClosure(d, o.func, o.args, false, o.st);
      DriveSub(d, j, Thrown(m, o, who), o.st, KSettle);
      var x := Run(d, j - 1, Thrown(m, o, who), o.st);
      ResumeSettle(d, x);
      DriveDone(d, j, Settle(x));
      CompleteRun(m, j - 1, Thrown(m, o, who), o.st);
      var j': nat :| Matches(m, j - 1, Run(m, j', Thrown(m, o, who), o.st), x);
      NoEscape(m, j', Thrown(m, o, who), o.st);
      RunProper(m, j', Thrown(m, o, who), o.st);
      assert Matches(m, n - 1, Run(m, j', Thrown(m, o, who), o.st), o1);
    } else {
      CompleteRun(m, j, call, o.st);
      var j': nat :| Matches(m, j, Run(m, j', call, o.st), o1);
      MatchesMore(m, j, n - 1, Run(m, j', call, o.st), o1);
    }
  }

  // ----- The two evaluators agree -----

  /** No evaluation of the task, however long, goes through an odd corner. */
  ghost predicate Regular(m: Machine, t: Task, st: State)
  {
    forall n: nat :: !Run(m, n, t, st).st.odd
  }

  /** Outside tail position the trampolined machine and the one that recurses on every call have the
      same values, errors and final states, and the same divergence, if the call stack names nobody. */
  lemma SameUnnamed(m: Machine, t: Task, st: State, o: Outcome)
    requires m.tramp && !m.named && !TailOf(t) && Regular(m, t, st)
    ensures Evaluates(m, t, st, o) <==> Evaluates(Direct(m), t, st, o)
  {
    hide Run;
    if Evaluates(m, t, st, o) {
      var n: nat :| Run(m, n, t, st) == o;
      NoEscape(m, n, t, st);
      SoundRun(m, n, t, st);
    }
    if Evaluates(Direct(m), t, st, o) {
      var n: nat :| Run(Direct(m), n, t, st) == o;
      CompleteRun(m, n, t, st);
      var k: nat :| Matches(m, n, Run(m, k, t, st), o);
      NoEscape(m, k, t, st);
      assert Run(m, k, t, st) == o;
    }
  }
}
