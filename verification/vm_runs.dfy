/** Whole runs of the byte-code machine. */
module VmRuns {
  import opened VmState
  import opened VmUnwinding

  type Trace = seq<Vm>

  ghost predicate Run(m: Machine, trace: Trace)
  {
    trace != [] && (forall i :: 0 <= i < |trace| ==> Roomy(trace[i])) &&
    forall i :: 0 < i < |trace| ==> Step(m, trace[i - 1]) == Next(trace[i])
  }

  /** A trace without the promise that no frame is full. */
  ghost predicate Chain(m: Machine, trace: Trace)
  {
    trace != [] && forall i :: 0 < i < |trace| ==> Step(m, trace[i - 1]) == Next(trace[i])
  }

  lemma Longer(m: Machine, trace: Trace, v: Vm)
    requires Chain(m, trace) && Step(m, trace[|trace| - 1]) == Next(v)
    ensures Chain(m, trace + [v])
  {
    hide Step;
  }

  lemma Shorter(m: Machine, trace: Trace)
    requires Run(m, trace) && |trace| > 1
    ensures Run(m, trace[..|trace| - 1]) && Step(m, trace[|trace| - 2]) == Next(trace[|trace| - 1])
  {
    hide Step, Roomy;
    var t := trace[..|trace| - 1];
    forall i | 0 < i < |t| ensures Step(m, t[i - 1]) == Next(t[i]) {
      assert t[i] == trace[i] && t[i - 1] == trace[i - 1];
    }
  }

  // ----- One step -----

  /** A refused special binding is the end of the machine: the unwinder takes the null that has
      replaced the frame for a list.  No other special binding fails where there is a frame and two
      operands, so the environments are restored exactly when every special binding was allowed. */
  lemma RefusalBreaks(m: Machine, v: Vm)
    requires v.pc < |v.code| && v.code[v.pc].SpecBind? && 2 <= v.sp < |v.stack| && FrameOnTop(v)
    ensures Step(m, v).Broken? <==> Refuses(m, v)
    ensures !Refuses(m, v) ==>
      Step(m, v).Next? && SpecialAt(Step(m, v).v, 0) == SpecialAt(v, 0) && EnvAt(Step(m, v).v, 0) == EnvAt(v, 0)
  {
    hide EnvAt, SpecialAt, Keeps;
    if !Refuses(m, v) {
      ExecKeeps(m, v, 0);
      KeepsMeans(v, Step(m, v).v, 0);
    }
  }

  lemma NotRefused(m: Machine, v: Vm)
    requires !Step(m, v).Broken?
    ensures !Refuses(m, v)
  {
    hide Drop, Lex, Spec, UnbindTo;
    if Refuses(m, v) { RefusalBreaks(m, v); }
  }

  lemma StepImpure(m: Machine, v: Vm)
    requires Roomy(v) && Step(m, v).Next?
    ensures Impure(v) ==> Impure(Step(m, v).v)
    ensures ExactlyImpure(v) && !PopsHandler(v) ==> ExactlyImpure(Step(m, v).v)
  {
    hide Exec, Unwind, Impure, ExactlyImpure, PopsHandler, Refuses;
    NotRefused(m, v);
    ExecImpure(m, v);
    if Exec(m, v).Raise? { UnwindImpure(Exec(m, v).v); }
  }

  /** A step that leaves the items up to `h` installed keeps what undoing the others will restore. */
  lemma StepKeeps(m: Machine, v: Vm, h: nat)
    requires Roomy(v) && Step(m, v).Next? && !TailCalls(m, v) && (h == 0 || h < |v.binds|)
    ensures Keeps(v, Step(m, v).v, h)
  {
    hide Exec, Unwind, Keeps, TailCalls, Roomy, Refuses;
    NotRefused(m, v);
    ExecKeeps(m, v, h);
    if Exec(m, v).Raise? {
      var u := Exec(m, v).v;
      UnwindMeans(u, h);
      var w := Step(m, v).v;
      if h <= |w.binds| {
        KeepsBoth(v, u, w, h);
      } else {
        KeepsNothing(v, w, h);
      }
    }
  }

  lemma KeepsNothing(v: Vm, w: Vm, h: nat)
    requires h > |w.binds|
    ensures Keeps(v, w, h)
  {
  }

  lemma KeepsMeans(v: Vm, w: Vm, h: nat)
    requires Keeps(v, w, h) && h <= |v.binds| && h <= |w.binds|
    ensures EnvAt(w, h) == EnvAt(v, h) && SpecialAt(w, h) == SpecialAt(v, h) && w.binds[..h] == v.binds[..h]
    ensures h < |v.binds| && h < |w.binds| && v.binds[h].Handler? ==> w.binds[h] == v.binds[h]
  {
  }

  // ----- Impurity over runs -----

  /** Impurity never falls below the special bindings and handlers that are to be undone. */
  lemma {:induction false} ImpurityCovers(m: Machine, trace: Trace)
    requires Run(m, trace) && Impure(trace[0])
    ensures Impure(trace[|trace| - 1])
    decreases |trace|
  {
    hide Step, Impure, Roomy;
    if |trace| > 1 {
      Shorter(m, trace);
      ImpurityCovers(m, trace[..|trace| - 1]);
      StepImpure(m, trace[|trace| - 2]);
    }
  }

  /** ... and is exactly their number as long as no handler is popped as a frame. */
  lemma {:induction false} ImpurityCounts(m: Machine, trace: Trace)
    requires Run(m, trace) && ExactlyImpure(trace[0])
    requires forall i :: 0 <= i < |trace| ==> !PopsHandler(trace[i])
    ensures ExactlyImpure(trace[|trace| - 1])
    decreases |trace|
  {
    hide Step, ExactlyImpure, Roomy, PopsHandler;
    if |trace| > 1 {
      Shorter(m, trace);
      assert !PopsHandler(trace[|trace| - 2]);
      ImpurityCounts(m, trace[..|trace| - 1]);
      StepImpure(m, trace[|trace| - 2]);
    }
  }

  /** Popping a handler as a frame leaves it counted, so later calls are not eliminated needlessly. */
  lemma PoppedHandlerDrifts(m: Machine, v: Vm)
    requires ExactlyImpure(v) && PopsHandler(v) && Step(m, v).Next?
    ensures Step(m, v).v.impurity == SpecAbove(Step(m, v).v.binds, 0) + Handlers(Step(m, v).v.binds) + 1
  {
    Popped(v.binds);
  }

  // ----- Entry and exit -----

  /** The special environment a function was entered with is the one there will be when everything on
      its bind stack is undone, whatever calls were eliminated on the way. */
  lemma {:induction false} EntrySpecialKept(m: Machine, trace: Trace)
    requires Run(m, trace) && Impure(trace[0])
    ensures SpecialAt(trace[|trace| - 1], 0) == SpecialAt(trace[0], 0)
    decreases |trace|
  {
    hide Step, Impure, Roomy, SpecAbove, Drop, TailCalls;
    if |trace| > 1 {
      Shorter(m, trace);
      var v := trace[|trace| - 2];
      EntrySpecialKept(m, trace[..|trace| - 1]);
      ImpurityCovers(m, trace[..|trace| - 1]);
      if TailCalls(m, v) {
        TailCallIsClean(m, v);
        TailCallSteps(m, v);
      } else {
        StepKeeps(m, v, 0);
        KeepsMeans(v, trace[|trace| - 1], 0);
      }
    }
  }

  lemma TailCallSteps(m: Machine, v: Vm)
    requires TailCalls(m, v)
    ensures Step(m, v) == Exec(m, v)
  {
    hide Fresh;
  }

  /** On return and on an uncaught exception alike, the special environment is the one at entry. */
  lemma SpecialRestored(m: Machine, trace: Trace, w: Vm, value: Option<Value>)
    requires Run(m, trace) && Impure(trace[0]) && Step(m, trace[|trace| - 1]) == Finished(w, value)
    ensures w.special == SpecialAt(trace[0], 0)
  {
    hide Step, Impure, Roomy, SpecAbove, Drop;
    EntrySpecialKept(m, trace);
    FinishUndoes(m, trace[|trace| - 1]);
  }

  lemma LeftClean(m: Machine, trace: Trace, w: Vm, value: Option<Value>)
    requires Chain(m, trace) && Step(m, trace[|trace| - 1]) == Finished(w, value)
    requires Impure(trace[0]) && forall v :: v in trace ==> Roomy(v)
    ensures w.special == SpecialAt(trace[0], 0)
  {
    hide Step, Impure, Roomy;
    assert Run(m, trace);
    SpecialRestored(m, trace, w, value);
  }

  /** Leaving a function undoes everything on its bind stack. */
  lemma FinishUndoes(m: Machine, v: Vm)
    requires Step(m, v).Finished? && Roomy(v)
    ensures Step(m, v).v.special == SpecialAt(v, 0) && Step(m, v).v.env == EnvAt(v, 0)
  {
    hide Unwind, UnbindTo, Keeps, Drop, Lex, Spec, LexAbove, SpecAbove, Roomy, Refuses;
    NotRefused(m, v);
    if Exec(m, v).Raise? {
      var u := Exec(m, v).v;
      UnwindMeans(u, 0);
      assert !TailCalls(m, v) by { if TailCalls(m, v) { JumpNeverRaises(m, v); } }
      ExecKeeps(m, v, 0);
      KeepsMeans(v, u, 0);
    } else {
      assert v.code[v.pc].Return?;
      var u := v.(pc := v.pc + 1);
      UnbindKeeps(u, 0, 0);
      AtTop(UnbindTo(u, 0), 0);
    }
  }

  lemma JumpNeverRaises(m: Machine, v: Vm)
    requires TailCalls(m, v)
    ensures !Exec(m, v).Raise?
  {
    hide Fresh;
  }

  /** Within one function the lexical environment is restored too. */
  lemma {:induction false} EntryEnvKept(m: Machine, trace: Trace)
    requires Run(m, trace) && (forall i :: 0 <= i < |trace| ==> !TailCalls(m, trace[i]))
    ensures EnvAt(trace[|trace| - 1], 0) == EnvAt(trace[0], 0)
    decreases |trace|
  {
    hide Step, Roomy, LexAbove, Drop, TailCalls;
    if |trace| > 1 {
      Shorter(m, trace);
      var v := trace[|trace| - 2];
      EntryEnvKept(m, trace[..|trace| - 1]);
      StepKeeps(m, v, 0);
      KeepsMeans(v, trace[|trace| - 1], 0);
    }
  }

  lemma EnvRestored(m: Machine, trace: Trace, w: Vm, value: Option<Value>)
    requires Run(m, trace) && (forall i :: 0 <= i < |trace| ==> !TailCalls(m, trace[i]))
    requires Step(m, trace[|trace| - 1]) == Finished(w, value)
    ensures w.env == EnvAt(trace[0], 0)
  {
    hide Step, Roomy, LexAbove, Drop, TailCalls;
    EntryEnvKept(m, trace);
    FinishUndoes(m, trace[|trace| - 1]);
  }

  // ----- Handlers -----

  /** While a handler stays installed no call is eliminated, the handler is not disturbed, and undoing
      what is above it would restore the environments there were when it was installed. */
  lemma {:induction false} HandlerStands(m: Machine, trace: Trace, h: nat)
    requires Run(m, trace) && Impure(trace[0])
    requires forall i :: 0 <= i < |trace| ==> h < |trace[i].binds|
    requires trace[0].binds[h].Handler?
    ensures var v := trace[|trace| - 1];
      v.binds[..h + 1] == trace[0].binds[..h + 1] && EnvAt(v, h) == EnvAt(trace[0], h) &&
        SpecialAt(v, h) == SpecialAt(trace[0], h)
    ensures !TailCalls(m, trace[|trace| - 1])
    decreases |trace|
  {
    hide Step, Impure, Roomy, SpecAbove, LexAbove, Drop, TailCalls, Keeps;
    ImpurityCovers(m, trace);
    var w := trace[|trace| - 1];
    if |trace| > 1 {
      Shorter(m, trace);
      var v := trace[|trace| - 2];
      HandlerStands(m, trace[..|trace| - 1], h);
      StepKeeps(m, v, h);
      KeepsMeans(v, w, h);
      assert v.binds[h] == v.binds[..h + 1][h] == trace[0].binds[h];
      assert w.binds[..h + 1] == w.binds[..h] + [w.binds[h]];
      assert v.binds[..h + 1] == v.binds[..h] + [v.binds[h]];
    }
    assert w.binds[h] == w.binds[..h + 1][h] == trace[0].binds[h];
    if TailCalls(m, w) { TailCallIsClean(m, w); }
  }

  /** An exception that reaches a handler finds the lexical and special environments of the BINDERR that
      installed it and the operand stack at its depth, with the exception on top, and runs the handler's code. */
  lemma HandlerRestores(m: Machine, trace: Trace, h: nat, w: Vm)
    requires Run(m, trace) && |trace| > 1 && Impure(trace[0])
    requires h == |trace[0].binds| && Installs(m, trace[0])
    requires forall i :: 1 <= i < |trace| ==> h < |trace[i].binds|
    requires Catches(m, trace[|trace| - 1], w) && |w.binds| == h
    ensures var v := trace[0];
      w.env == v.env && w.special == v.special && w.binds == v.binds &&
      w.sp == v.sp && w.pc == v.stack[v.sp].n && w.thrown == None
    ensures var u := Exec(m, trace[|trace| - 1]).v;
      u.thrown.Some? && w.sp < |u.stack| && w.stack == u.stack[w.sp := u.thrown.value]
  {
    hide Step, Exec, Unwind, Impure, Roomy, SpecAbove, LexAbove, Drop, TailCalls, Keeps;
    var body := trace[1..];
    RunTail(m, trace);
    CatchesSteps(m, trace[|trace| - 1], w);
    NotRefused(m, trace[|trace| - 1]);
    var v, first, last := trace[0], trace[1], trace[|trace| - 1];
    BindErrSteps(m, v, first);
    StepImpure(m, v);
    HandlerStands(m, body, h);
    var u := Exec(m, last).v;
    ExecKeeps(m, last, h);
    UnwindMeans(u, h);
    RaisedAbove(m, last, h);
    KeepsMeans(last, u, h);
    assert last.binds[h] == last.binds[..h + 1][h] == first.binds[h];
    assert last.binds[..h] == last.binds[..h + 1][..h] == first.binds[..h + 1][..h] == v.binds;
  }

  /** The instruction about to be run installs a handler. */
  predicate Installs(m: Machine, v: Vm)
  {
    v.pc < |v.code| && v.code[v.pc].BindErr? && Exec(m, v).Next?
  }

  /** The instruction about to be run raises an exception, which some handler takes. */
  predicate Catches(m: Machine, v: Vm, w: Vm)
  {
    Exec(m, v).Raise? && Unwind(Exec(m, v).v) == Next(w)
  }

  lemma CatchesSteps(m: Machine, v: Vm, w: Vm)
    requires Catches(m, v, w)
    ensures Step(m, v) == Next(w) && Exec(m, v).Raise? && Unwind(Exec(m, v).v) == Next(w)
  {
  }

  lemma RunTail(m: Machine, trace: Trace)
    requires Run(m, trace) && |trace| > 1
    ensures Run(m, trace[1..]) && Step(m, trace[0]) == Next(trace[1])
  {
    hide Step, Roomy;
    var t := trace[1..];
    forall i | 0 < i < |t| ensures Step(m, t[i - 1]) == Next(t[i]) {
      assert t[i] == trace[i + 1] && t[i - 1] == trace[i];
    }
  }

  lemma BindErrSteps(m: Machine, v: Vm, w: Vm)
    requires Installs(m, v) && Step(m, v) == Next(w)
    ensures v.sp > 0 && v.sp < |v.stack| && v.stack[v.sp].Int? && v.stack[v.sp].n >= 0
    ensures w.binds == v.binds + [Handler(v.stack[v.sp].n, v.sp - 1)] && w.stack == v.stack
    ensures EnvAt(w, |v.binds|) == v.env && SpecialAt(w, |v.binds|) == v.special
  {
    hide Unwind;
    Pushed(v.binds, Handler(v.stack[v.sp].n, v.sp - 1), |v.binds|);
    AtTop(v, |v.binds|);
  }

  /** Raising an exception takes nothing off the bind stack. */
  lemma RaisedAbove(m: Machine, v: Vm, h: nat)
    requires Exec(m, v).Raise? && !Refuses(m, v)
    ensures Exec(m, v).v.binds == v.binds
  {
    hide UnbindTo, Fresh, Unbind;
  }
}
