/** Eliminating a call preserves its meaning: the callee runs as it would if it were entered anew, and the
    caller leaves behind what it would have if it had waited for the value and returned it. */
module VmTail {
  import opened VmState
  import opened VmUnwinding
  import opened VmRuns

  /** The state in which the function called at `v` would be entered anew, by a call that is not eliminated. */
  function Entered(m: Machine, v: Vm): Vm
    requires TailCalls(m, v)
  {
    var argc := v.code[v.pc].argc;
    var f := v.stack[v.sp - argc];
    Start(m.funs[f.id], v.stack[v.sp - argc + 1..v.sp + 1], f.env, f.structure, v.special, v.cells)
      .(thrown := v.thrown)
  }

  // ----- What a function can tell apart -----

  /** Two states of the machine that differ only in their buffers: `v` has at least as much room as `w`, and
      the first `h` cells of the stacks, the only ones in use, are the same. */
  predicate Alike(v: Vm, w: Vm, h: nat)
  {
    && v.code == w.code && v.pc == w.pc && v.sp == w.sp && v.args == w.args && SameScope(v, w)
    && v.binds == w.binds && v.impurity == w.impurity
    && v.sp < h <= |w.stack| <= |v.stack| && SameCells(v.stack, w.stack, h) && Below(v.binds, h)
    && w.bindCap <= v.bindCap && v.spare.Spare? && SpareSize(w.spare) <= SpareSize(v.spare)
  }

  /** Environments, structure, memory and exception. */
  predicate SameScope(v: Vm, w: Vm)
  {
    v.env == w.env && v.structure == w.structure && v.special == w.special && v.cells == w.cells &&
    v.thrown == w.thrown
  }

  predicate SameCells(s: seq<Value>, t: seq<Value>, h: nat)
  {
    h <= |s| && h <= |t| && forall i :: 0 <= i < h ==> s[i] == t[i]
  }

  /** The handlers cut the stack to a depth within the cells in use. */
  predicate Below(binds: seq<Item>, h: nat)
  {
    forall i :: 0 <= i < |binds| && binds[i].Handler? ==> binds[i].depth + 1 < h
  }

  /** If `s`, the outcome with less room, is not that the machine breaks, then `r` is the same outcome. */
  ghost predicate SameOutcome(r: Result, s: Result)
  {
    match s
    case Next(w) => r.Next? && exists h :: Alike(r.v, w, h)
    case Raise(w) => r.Raise? && exists h :: Alike(r.v, w, h)
    case Finished(w, value) => r.Finished? && r.value == value && SameScope(r.v, w)
    case Broken => true
  }

  predicate SameEffect(e: Effect, d: Effect, v: Vm, w: Vm, h: nat)
  {
    |d.stack| == |w.stack| && d.sp < |d.stack| ==>
      && |e.stack| == |v.stack| && e.sp == d.sp && e.pc == d.pc && e.cells == d.cells && e.thrown == d.thrown
      && e.raised == d.raised && SameCells(e.stack, d.stack, if d.sp < h then h else d.sp + 1)
  }

  /** Plain instructions and calls see nothing of the buffers but the cells in use, and a plain instruction
      takes up no cell above the top of the stack. */
  ghost predicate Blind(m: Machine)
  {
    && (forall op, v, w, h :: Alike(v, w, h) ==> SameEffect(m.plain(op, v), m.plain(op, w), v, w, h))
    && (forall f, args, v, w, h :: Alike(v, w, h) ==> m.call(f, args, v) == m.call(f, args, w))
  }

  // ----- Entering -----

  /** An eliminated call enters the callee as a call that is not eliminated would: with its own code,
      environment and structure, the arguments above the function, and the caller's special environment
      and memory.  Only the buffers differ, and they are at least as large. */
  lemma TailCallEnters(m: Machine, v: Vm)
    requires TailCalls(m, v) && Step(m, v).Next?
    ensures var w, s := Step(m, v).v, Entered(m, v);
      && w.code == s.code && w.pc == s.pc && w.sp == s.sp && w.args == s.args && w.binds == s.binds
      && w.impurity == s.impurity && w.env == s.env && w.structure == s.structure && w.special == s.special
      && w.cells == s.cells && w.thrown == s.thrown && w.stack[0] == s.stack[0]
      && |w.stack| >= |s.stack| && w.bindCap >= s.bindCap && Alike(w, s, 1)
  {
  }

  // ----- One step -----

  lemma Set(s: seq<Value>, t: seq<Value>, h: nat, i: nat, x: Value)
    requires SameCells(s, t, h) && i < h
    ensures SameCells(s[i := x], t[i := x], h)
  {
  }

  lemma Slice(s: seq<Value>, t: seq<Value>, h: nat, i: nat, j: nat)
    requires SameCells(s, t, h) && i <= j <= h
    ensures s[i..j] == t[i..j]
  {
  }

  lemma BelowPart(binds: seq<Item>, h: nat, n: nat)
    requires Below(binds, h) && n <= |binds|
    ensures Below(binds[..n], h)
  {
  }

  lemma BelowMore(binds: seq<Item>, h: nat, item: Item)
    requires Below(binds, h) && (item.Handler? ==> item.depth + 1 < h)
    ensures Below(binds + [item], h)
  {
  }

  lemma {:induction false} UnbindSame(v: Vm, w: Vm, n: nat)
    requires v.binds == w.binds && v.env == w.env && v.special == w.special
    ensures UnbindTo(v, n).env == UnbindTo(w, n).env && UnbindTo(v, n).special == UnbindTo(w, n).special
    decreases |v.binds|
  {
    if |v.binds| > n {
      var item := Last(v.binds);
      UnbindSame(Unbind(v, item).(binds := Butlast(v.binds)), Unbind(w, item).(binds := Butlast(w.binds)), n);
    }
  }

  lemma PlainAlike(m: Machine, v: Vm, w: Vm, h: nat, op: nat)
    requires Blind(m) && Alike(v, w, h)
    ensures SameOutcome(PlainOp(m, v, op), PlainOp(m, w, op))
  {
    var e, d := m.plain(op, v), m.plain(op, w);
    assert SameEffect(e, d, v, w, h);
    if |d.stack| == |w.stack| && d.sp < |d.stack| {
      var k := if d.sp < h then h else d.sp + 1;
      assert Alike(v.(stack := e.stack, sp := e.sp, pc := e.pc, cells := e.cells, thrown := e.thrown),
        w.(stack := d.stack, sp := d.sp, pc := d.pc, cells := d.cells, thrown := d.thrown), k);
    }
  }

  lemma BindAlike(m: Machine, v: Vm, w: Vm, h: nat, op: Insn)
    requires Alike(v, w, h)
    ensures SameOutcome(BindOp(m, v, op), BindOp(m, w, op))
  {
    var r, s := BindOp(m, v, op), BindOp(m, w, op);
    if s.Next? || s.Raise? {
      BelowPart(v.binds, h, |v.binds| - 1);
      BelowMore(Butlast(v.binds), h, Last(s.v.binds));
      assert Alike(r.v, s.v, h);
    }
  }

  lemma FrameAlike(v: Vm, w: Vm, h: nat, op: Insn)
    requires Alike(v, w, h)
    ensures SameOutcome(FrameOp(v, op), FrameOp(w, op))
  {
    hide UnbindTo, Drop, Lex, Spec, Below;
    var r, s := FrameOp(v, op), FrameOp(w, op);
    var a, b := v.(pc := v.pc + 1), w.(pc := w.pc + 1);
    if s.Next? {
      if op.PushFrame? {
        BelowMore(v.binds, h, Frame(0));
      } else if op.PopFrame? {
        BelowPart(v.binds, h, |v.binds| - 1);
      } else {
        var n := if op.PopFrames? then 1 else 0;
        UnbindSame(a, b, n);
        UnbindKeeps(a, n, 0);
        UnbindKeeps(b, n, 0);
        BelowPart(v.binds, h, n);
      }
      assert Alike(r.v, s.v, h);
    }
  }

  lemma HandlerAlike(m: Machine, v: Vm, w: Vm, h: nat)
    requires Alike(v, w, h)
    ensures SameOutcome(BindErrOp(v), BindErrOp(w)) && SameOutcome(ErrorProOp(m, v), ErrorProOp(m, w))
  {
    hide Below;
    if BindErrOp(w).Next? {
      BelowMore(v.binds, h, Last(BindErrOp(w).v.binds));
      assert Alike(BindErrOp(v).v, BindErrOp(w).v, h);
    }
    if ErrorProOp(m, w).Next? {
      BelowMore(v.binds, h, Frame(1));
      Set(v.stack, w.stack, h, v.sp - 1, Nil);
      assert Alike(ErrorProOp(m, v).v, ErrorProOp(m, w).v, h);
    }
  }

  lemma ThrowAlike(v: Vm, w: Vm, h: nat, op: Insn)
    requires Alike(v, w, h)
    ensures SameOutcome(ThrowOp(v, op), ThrowOp(w, op))
  {
    hide Below;
    var r, s := ThrowOp(v, op), ThrowOp(w, op);
    if s.Next? || s.Raise? {
      if v.stack[v.sp - 1].Pair? {
        var x := v.stack[v.sp - 1].cdr;
        Set(v.stack, w.stack, h, v.sp - 1, x);
        Set(v.stack[v.sp - 1 := x], w.stack[w.sp - 1 := x], h, v.sp, Nil);
      }
      assert Alike(r.v, s.v, h);
    }
  }

  lemma ApplyAlike(m: Machine, v: Vm, w: Vm, h: nat, argc: nat)
    requires Blind(m) && Alike(v, w, h) && argc < v.sp
    ensures SameOutcome(ApplyOp(m, v, argc), ApplyOp(m, w, argc))
  {
    hide Below;
    var f, args := v.stack[v.sp - argc], v.stack[v.sp - argc + 1..v.sp + 1];
    Slice(v.stack, w.stack, h, v.sp - argc + 1, v.sp + 1);
    assert m.call(f, args, v) == m.call(f, args, w);
    if m.call(f, args, v).value.Some? {
      Set(v.stack, w.stack, h, v.sp - argc, m.call(f, args, v).value.value);
    }
    assert Alike(ApplyOp(m, v, argc).v, ApplyOp(m, w, argc).v, h);
  }

  /** The callee's stack is one of the buffers there were, or a new one. */
  lemma JumpAlike(m: Machine, v: Vm, w: Vm, h: nat)
    requires Alike(v, w, h) && TailCalls(m, w)
    ensures TailCalls(m, v)
    ensures var argc := v.code[v.pc].argc; var f := v.stack[v.sp - argc];
      SameOutcome(Jump(m, v, f, argc), Jump(m, w, f, argc))
  {
    var argc := v.code[v.pc].argc;
    var f := v.stack[v.sp - argc];
    var r, s := Jump(m, v, f, argc), Jump(m, w, f, argc);
    Slice(v.stack, w.stack, h, v.sp - argc + 1, v.sp + 1);
    if s.Next? {
      assert Alike(r.v, s.v, 1);
    }
  }

  lemma NothingAfter(r: Result)
    ensures SameOutcome(r, Broken)
  {
  }

  lemma CallAlike(m: Machine, v: Vm, w: Vm, h: nat, argc: nat)
    requires Blind(m) && Alike(v, w, h) && v.pc < |v.code| && v.code[v.pc] == Call(argc)
    ensures SameOutcome(CallOp(m, v, argc), CallOp(m, w, argc))
  {
    hide Jump, ApplyOp, SameOutcome, Blind, Below;
    NothingAfter(CallOp(m, v, argc));
    if v.sp > argc {
      if TailCalls(m, w) { JumpAlike(m, v, w, h); } else { ApplyAlike(m, v, w, h, argc); }
    }
  }

  lemma ReturnAlike(v: Vm, w: Vm, h: nat)
    requires Alike(v, w, h)
    ensures SameOutcome(ReturnOp(v), ReturnOp(w))
  {
    hide UnbindTo, Drop, Lex, Spec;
    var a, b := v.(pc := v.pc + 1), w.(pc := w.pc + 1);
    UnbindSame(a, b, 0);
    UnbindKeeps(a, 0, 0);
    UnbindKeeps(b, 0, 0);
  }

  lemma ExecAlike(m: Machine, v: Vm, w: Vm, h: nat)
    requires Blind(m) && Alike(v, w, h)
    ensures SameOutcome(Exec(m, v), Exec(m, w))
  {
    hide PlainOp, BindOp, FrameOp, BindErrOp, ErrorProOp, ThrowOp, CallOp, ReturnOp, Blind, SameOutcome, Below;
    if w.pc < |w.code| {
      var op := v.code[v.pc];
      BindAlike(m, v, w, h, op);
      FrameAlike(v, w, h, op);
      HandlerAlike(m, v, w, h);
      ThrowAlike(v, w, h, op);
      ReturnAlike(v, w, h);
      if op.Plain? { PlainAlike(m, v, w, h, op.op); }
      if op.Call? { CallAlike(m, v, w, h, op.argc); }
    }
    NothingAfter(Exec(m, v));
  }

  lemma {:induction false} UnwindAlike(v: Vm, w: Vm, h: nat)
    requires Alike(v, w, h)
    ensures SameOutcome(Unwind(v), Unwind(w))
    decreases |v.binds|
  {
    hide Drop, Lex, Spec;
    if v.binds != [] {
      var item := Last(v.binds);
      var a, b := v.(binds := Butlast(v.binds)), w.(binds := Butlast(w.binds));
      BelowPart(v.binds, h, |v.binds| - 1);
      if item.Frame? {
        UnwindAlike(Unbind(a, item).(impurity := v.impurity - Spec(item)),
          Unbind(b, item).(impurity := w.impurity - Spec(item)), h);
      } else if item.Handler? {
        if v.thrown.None? {
          UnwindAlike(a.(impurity := v.impurity - 1), b.(impurity := w.impurity - 1), h);
        } else {
          Set(v.stack, w.stack, h, item.depth + 1, v.thrown.value);
          if item.depth + 1 < |w.stack| { assert Alike(Unwind(v).v, Unwind(w).v, h); }
        }
      }
    }
  }

  lemma StepAlike(m: Machine, v: Vm, w: Vm, h: nat)
    requires Blind(m) && Alike(v, w, h)
    ensures SameOutcome(Step(m, v), Step(m, w))
  {
    hide Exec, Unwind, Alike, Blind;
    ExecAlike(m, v, w, h);
    if Exec(m, w).Raise? {
      var a, b := Exec(m, v).v, Exec(m, w).v;
      var k :| Alike(a, b, k);
      UnwindAlike(a, b, k);
    }
  }

  // ----- Runs -----

  /** The outcome of `n` steps, or of fewer if the function is left before. */
  function Steps(m: Machine, v: Vm, n: nat): Result
  {
    if n == 0 then Next(v)
    else
      var r := Steps(m, v, n - 1);
      if r.Next? then Step(m, r.v) else r
  }

  lemma {:induction false} StepsAlike(m: Machine, v: Vm, w: Vm, h: nat, n: nat)
    requires Blind(m) && Alike(v, w, h)
    ensures SameOutcome(Steps(m, v, n), Steps(m, w, n))
  {
    hide Step, Alike, Blind;
    if n > 0 {
      StepsAlike(m, v, w, h, n - 1);
      var s := Steps(m, w, n - 1);
      if s.Next? {
        var a, b := Steps(m, v, n - 1).v, s.v;
        var k :| Alike(a, b, k);
        StepAlike(m, a, b, k);
      }
    }
  }

  lemma {:induction false} StepFirst(m: Machine, v: Vm, w: Vm, n: nat)
    requires Step(m, v) == Next(w)
    ensures Steps(m, v, n + 1) == Steps(m, w, n)
  {
    hide Step;
    if n > 0 {
      StepFirst(m, v, w, n - 1);
    } else {
      assert Steps(m, v, 0) == Next(v);
    }
  }

  /** After an eliminated call the machine does what the callee does when entered anew, as long as the
      callee gets along with the room it asks for: the same steps, the same value or exception, and the same
      memory and environments at the end. */
  lemma TailCallRuns(m: Machine, v: Vm, n: nat)
    requires Blind(m) && TailCalls(m, v) && Step(m, v).Next?
    ensures SameOutcome(Steps(m, v, n + 1), Steps(m, Entered(m, v), n))
  {
    hide Step, Steps, TailCalls, Entered, Alike, Blind;
    TailCallEnters(m, v);
    StepsAlike(m, Step(m, v).v, Entered(m, v), 1, n);
    StepFirst(m, v, Step(m, v).v, n);
  }

  /** The call at `v` and the return after it, when the call is not eliminated. */
  function CallAndReturn(m: Machine, v: Vm): Result
    requires TailCalls(m, v)
  {
    var r := ApplyOp(m, v, v.code[v.pc].argc);
    if r.Raise? then Unwind(r.v) else Step(m, r.v)
  }

  lemma {:induction false} UnwindsAll(v: Vm)
    requires forall i :: 0 <= i < |v.binds| ==> v.binds[i].Frame?
    ensures Unwind(v).Finished? && Unwind(v).v.cells == v.cells && Unwind(v).v.thrown == v.thrown
    decreases |v.binds|
  {
    hide Drop, Lex, Spec;
    if v.binds != [] {
      var item := Last(v.binds);
      UnwindsAll(Unbind(v.(binds := Butlast(v.binds)), item).(impurity := v.impurity - Spec(item)));
    }
  }

  /** Waiting for the value and returning it. */
  lemma ReturnsValue(m: Machine, v: Vm)
    requires TailCalls(m, v) && Impure(v) && forall i :: 0 <= i < |v.binds| ==> !v.binds[i].Null?
    ensures var argc := v.code[v.pc].argc;
      var c := m.call(v.stack[v.sp - argc], v.stack[v.sp - argc + 1..v.sp + 1], v); var r := CallAndReturn(m, v);
      r.Finished? && r.value == c.value && r.v.cells == c.cells && r.v.thrown == c.thrown && r.v.special == v.special
  {
    hide Unwind, UnbindTo, Drop, Lex, Spec, LexAbove, SpecAbove, Handlers;
    TailCallIsClean(m, v);
    var r := ApplyOp(m, v, v.code[v.pc].argc);
    if r.Raise? {
      UnwindsAll(r.v);
      UnwindMeans(r.v, 0);
    } else {
      var u := r.v.(pc := r.v.pc + 1);
      UnbindKeeps(u, 0, 0);
      AtTop(UnbindTo(u, 0), 0);
    }
  }

  /** No frame is full during the run of `n` steps. */
  ghost predicate AllRoomy(m: Machine, v: Vm, n: nat)
  {
    forall i :: 0 <= i < n && Steps(m, v, i).Next? ==> Roomy(Steps(m, v, i).v)
  }

  lemma {:induction false} StepsTrace(m: Machine, v: Vm, n: nat) returns (trace: Trace)
    requires Steps(m, v, n).Next? && AllRoomy(m, v, n + 1)
    ensures Run(m, trace) && trace[0] == v && trace[|trace| - 1] == Steps(m, v, n).v
  {
    hide Step, Roomy;
    if n == 0 {
      assert Steps(m, v, 0) == Next(v);
      trace := [v];
    } else {
      var t := StepsTrace(m, v, n - 1);
      trace := t + [Steps(m, v, n).v];
      assert Step(m, t[|t| - 1]) == Next(trace[|t|]);
    }
  }

  /** The last of the steps that leave a function. */
  lemma {:induction false} LastStep(m: Machine, v: Vm, n: nat) returns (k: nat)
    requires Steps(m, v, n).Finished?
    ensures k < n && Steps(m, v, k).Next? && Step(m, Steps(m, v, k).v) == Steps(m, v, n)
  {
    hide Step;
    if Steps(m, v, n - 1).Next? { k := n - 1; } else { k := LastStep(m, v, n - 1); }
  }

  lemma EnteredSpecial(m: Machine, v: Vm, n: nat)
    requires TailCalls(m, v) && Steps(m, Entered(m, v), n).Finished? && AllRoomy(m, Entered(m, v), n)
    ensures Steps(m, Entered(m, v), n).v.special == v.special
  {
    hide Step, Steps, Roomy, Fresh, Drop;
    var s := Entered(m, v);
    var k := LastStep(m, s, n);
    assert AllRoomy(m, s, k + 1);
    var trace := StepsTrace(m, s, k);
    NoMarks();
    OneFrame(s.binds);
    SpecialRestored(m, trace, Steps(m, s, n).v, Steps(m, s, n).value);
    DropNone(v.special);
  }

  /** Suppose that a call runs the function from its entry.  Then the caller gets the same value or exception,
      the same memory and the same special environment whether the call is eliminated or waited for. */
  lemma TailCallMeans(m: Machine, v: Vm, n: nat)
    requires Blind(m) && TailCalls(m, v) && Step(m, v).Next?
    requires Impure(v) && forall i :: 0 <= i < |v.binds| ==> !v.binds[i].Null?
    requires AllRoomy(m, Entered(m, v), n)
    requires var argc := v.code[v.pc].argc; var callee := Steps(m, Entered(m, v), n);
      callee.Finished? && m.call(v.stack[v.sp - argc], v.stack[v.sp - argc + 1..v.sp + 1], v)
      == Called(callee.value, callee.v.cells, callee.v.thrown)
    ensures var r, s := Steps(m, v, n + 1), CallAndReturn(m, v);
      r.Finished? && s.Finished? && r.value == s.value && r.v.cells == s.v.cells && r.v.thrown == s.v.thrown &&
      r.v.special == s.v.special
  {
    hide Step, Steps, TailCalls, Entered, Blind, AllRoomy, CallAndReturn, Impure;
    TailCallRuns(m, v, n);
    ReturnsValue(m, v);
    EnteredSpecial(m, v, n);
  }
}
