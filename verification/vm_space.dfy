/** Space: eliminated tail calls allocate a bounded number of stacks, and a frame holds a bounded
    number of lexical bindings. */
module VmSpace {
  import opened VmState
  import opened VmUnwinding
  import opened VmRuns

  const MAX_REQ: nat := 1023

  /** Buffers are as large as some function asks for, plus the cell below the stack. */
  predicate Sized(v: Vm)
  {
    1 <= |v.stack| <= MAX_REQ + 1 && (v.spare.Spare? ==> 1 <= |v.spare.buf| <= MAX_REQ + 1) && v.bindCap <= MAX_REQ
  }

  /** The two buffer sizes together. */
  function Room(v: Vm): int
  {
    |v.stack| - 1 + SpareSize(v.spare)
  }

  function Callee(m: Machine, v: Vm): Function
    requires TailCalls(m, v)
  {
    m.funs[v.stack[v.sp - v.code[v.pc].argc].id]
  }

  /** The call about to be eliminated needs a stack larger than the spare buffer. */
  predicate Allocates(m: Machine, v: Vm)
  {
    TailCalls(m, v) && SpareSize(v.spare) < StackReq(Callee(m, v).req)
  }

  predicate AllocatesBinds(m: Machine, v: Vm)
  {
    TailCalls(m, v) && v.bindCap < BindReq(Callee(m, v).req)
  }

  /** How many of the eliminated calls of a run allocate a stack. */
  function Stacks(m: Machine, trace: Trace): nat
  {
    if |trace| <= 1 then 0
    else Stacks(m, trace[..|trace| - 1]) + if Allocates(m, trace[|trace| - 2]) then 1 else 0
  }

  function BindStacks(m: Machine, trace: Trace): nat
  {
    if |trace| <= 1 then 0
    else BindStacks(m, trace[..|trace| - 1]) + if AllocatesBinds(m, trace[|trace| - 2]) then 1 else 0
  }

  /** An eliminated call goes wrong in one case only: the callee needs no stack at all and there is no
      spare buffer to give it. */
  lemma TailCallBreaks(m: Machine, v: Vm)
    requires TailCalls(m, v) && Sized(v)
    ensures Exec(m, v).Broken? <==> v.spare.NoSpare? && StackReq(Callee(m, v).req) == 0
  {
  }

  /** Buffers only ever change places or grow; the arguments are what was above the function, and the
      buffer that holds them is the spare one, not the new stack. */
  lemma TailCallBuffers(m: Machine, v: Vm)
    requires TailCalls(m, v) && Sized(v) && Exec(m, v).Next?
    ensures var w := Exec(m, v).v; var argc := v.code[v.pc].argc;
      Sized(w) && StackReq(Callee(m, v).req) < |w.stack| && BindReq(Callee(m, v).req) <= w.bindCap &&
      w.spare == Spare(v.stack) && w.args == w.spare.buf[v.sp - argc + 1..v.sp + 1] && |w.args| == argc &&
      (if Allocates(m, v) then Room(w) > Room(v) else Room(w) == Room(v)) &&
      (if AllocatesBinds(m, v) then w.bindCap > v.bindCap else w.bindCap == v.bindCap)
  {
  }

  lemma {:induction false} UnwindBuffers(v: Vm)
    ensures match Unwind(v)
      case Next(w) => |w.stack| == |v.stack| && w.spare == v.spare && w.args == v.args && w.bindCap == v.bindCap
      case _ => true
    decreases |v.binds|
  {
    hide Drop;
    if v.binds != [] {
      var item := Last(v.binds);
      var w := v.(binds := Butlast(v.binds));
      if item.Frame? { UnwindBuffers(Unbind(w, item).(impurity := v.impurity - Spec(item))); }
      else if item.Handler? && v.thrown.None? { UnwindBuffers(w.(impurity := v.impurity - 1)); }
    }
  }

  lemma ExecBuffers(m: Machine, v: Vm)
    requires !TailCalls(m, v)
    ensures match Exec(m, v)
      case Next(w) => |w.stack| == |v.stack| && w.spare == v.spare && w.args == v.args && w.bindCap == v.bindCap
      case Raise(w) => |w.stack| == |v.stack| && w.spare == v.spare && w.args == v.args && w.bindCap == v.bindCap
      case _ => true
  {
    hide Drop, UnbindTo, Lex, Spec, TailCalls;
    var u := v.(pc := v.pc + 1);
    if v.binds != [] { UnbindKeeps(u, 1, 0); }
    UnbindKeeps(u, 0, 0);
  }

  /** Every other step leaves the buffers where they are. */
  lemma StepBuffers(m: Machine, v: Vm)
    requires !TailCalls(m, v) && Step(m, v).Next?
    ensures var w := Step(m, v).v;
      |w.stack| == |v.stack| && w.spare == v.spare && w.args == v.args && w.bindCap == v.bindCap
  {
    hide Exec, Unwind, TailCalls;
    ExecBuffers(m, v);
    if Exec(m, v).Raise? { UnwindBuffers(Exec(m, v).v); }
  }

  lemma StepSized(m: Machine, v: Vm)
    requires Sized(v) && Step(m, v).Next?
    ensures var w := Step(m, v).v;
      Sized(w) && (if Allocates(m, v) then Room(w) > Room(v) else Room(w) == Room(v)) &&
      (if AllocatesBinds(m, v) then w.bindCap > v.bindCap else w.bindCap == v.bindCap)
  {
    hide Step, Exec, TailCalls;
    if TailCalls(m, v) {
      TailCallSteps(m, v);
      TailCallBuffers(m, v);
    } else {
      StepBuffers(m, v);
    }
  }

  /** Over any run, the calls eliminated allocate at most 2046 stacks and 1023 bind stacks. */
  lemma {:induction false} BoundedStacks(m: Machine, trace: Trace)
    requires Run(m, trace) && Sized(trace[0])
    ensures var v := trace[|trace| - 1];
      Sized(v) && Stacks(m, trace) + Room(trace[0]) <= Room(v) <= 2 * MAX_REQ && Stacks(m, trace) <= 2 * MAX_REQ &&
      BindStacks(m, trace) + trace[0].bindCap <= v.bindCap <= MAX_REQ
    decreases |trace|
  {
    hide Step, Roomy, Allocates, AllocatesBinds;
    if |trace| > 1 {
      Shorter(m, trace);
      BoundedStacks(m, trace[..|trace| - 1]);
      StepSized(m, trace[|trace| - 2]);
    }
  }

  lemma StartSized(fun: Function, args: seq<Value>, env: Env, structure: nat, special: Env, cells: seq<Value>)
    ensures var v := Start(fun, args, env, structure, special, cells);
      Sized(v) && ExactlyImpure(v) && EnvAt(v, 0) == env && SpecialAt(v, 0) == special
  {
    var v := Start(fun, args, env, structure, special, cells);
    NoMarks();
    OneFrame(v.binds);
    assert Butlast(v.binds) == [];
  }

  // ----- Full frames -----

  function Depth(env: Env): nat
  {
    if env.Top? then 0 else 1 + Depth(env.rest)
  }

  lemma {:induction false} DropDepth(env: Env, n: nat)
    ensures Depth(Drop(env, n)) <= Depth(env)
  {
    if n > 0 && env.Link? { DropDepth(env.rest, n - 1); }
  }

  /** A lexical binding is undone with its frame exactly when the frame held fewer than 65535: one more
      is counted as a special binding instead, and undoing the frame leaves the lexical ones and takes
      one special binding too many. */
  lemma FrameLimit(v: Vm, value: Value)
    requires FrameOnTop(v)
    ensures var w := BindCell(v, value); var h := |v.binds| - 1;
      (EnvAt(w, h) == EnvAt(v, h) <==> Lex(Last(v.binds)) + 1 < LEX_LIMIT) &&
      (Lex(Last(v.binds)) + 1 == LEX_LIMIT ==>
        EnvAt(w, h) == w.env && SpecialAt(w, h) == Drop(v.special, Spec(Last(v.binds)) + 1))
  {
    hide Lex, Spec, Drop, Keeps;
    var w, h := BindCell(v, value), |v.binds| - 1;
    Marks(Last(v.binds));
    assert Butlast(w.binds) == Butlast(v.binds);
    DropDrop(w.env, Lex(Last(w.binds)), 0);
    if Lex(Last(v.binds)) + 1 < LEX_LIMIT {
      LexicalKeeps(v, w, h);
      KeepsMeans(v, w, h);
    } else {
      LexBound(Last(v.binds));
      TopOnly(w.binds);
      DropNone(w.env);
      DropDepth(v.env, LexAbove(v.binds, h));
    }
  }

  lemma TopOnly(binds: seq<Item>)
    requires binds != []
    ensures LexAbove(binds, |binds| - 1) == Lex(Last(binds)) && SpecAbove(binds, |binds| - 1) == Spec(Last(binds))
  {
    assert LexAbove(Butlast(binds), |binds| - 1) == 0;
  }

  lemma LexBound(item: Item)
    ensures Lex(item) < LEX_LIMIT
  {
  }
}
