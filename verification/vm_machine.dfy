/** The byte-code machine as it runs: registers, an operand stack, a bind stack and a second buffer
    that holds the arguments of an eliminated call. */
module VmMachine {
  import opened VmState
  import opened VmUnwinding
  import opened VmRuns

  datatype Status = Running | Raised | Returned(value: Option<Value>) | Crashed

  class ByteVm {
    const m: Machine
    var code: seq<Insn>
    var pc: nat
    var stack: array<Value>
    var sp: nat
    var argvBase: array?<Value>
    var argv: array<Value>
    var argvOff: nat
    var argc: nat
    var bindings: array<Item>
    var bp: int
    var impurity: int
    var env: Env              // rep_env
    var structure: nat        // rep_structure
    var special: Env          // rep_special_env
    var cells: seq<Value>
    var thrown: Option<Value> // rep_throw_value

    /** The stack, the spare buffer and the arguments do not overlap, except that the spare buffer may
        hold the arguments. */
    ghost predicate Valid()
      reads this`stack, this`argvBase, this`argv, this`argvOff, this`argc, this`bindings, this`bp
    {
      stack != argvBase && argv != stack && argvOff + argc <= argv.Length &&
      -1 <= bp < bindings.Length && 0 < bindings.Length && 0 < stack.Length &&
        (argvBase != null ==> 0 < argvBase.Length) &&
      bindings as object != stack && bindings as object != argv && bindings as object != argvBase
    }

    function Operands(): seq<Value>
      reads this`stack, stack
    {
      stack[..]
    }

    function Args(): seq<Value>
      reads this`argv, this`argvOff, this`argc, argv
      requires argvOff + argc <= argv.Length
    {
      argv[argvOff..argvOff + argc]
    }

    function SpareBuffer(): Spare
      reads this`argvBase, argvBase
    {
      if argvBase == null then NoSpare else Spare(argvBase[..])
    }

    function Binds(): seq<Item>
      reads this`bindings, this`bp, bindings
      requires -1 <= bp < bindings.Length
    {
      bindings[..bp + 1]
    }

    function Abs(): Vm
      reads this, stack, argv, argvBase, bindings
      requires Valid()
    {
      Vm(code, pc, Operands(), sp, SpareBuffer(), Args(), Binds(), bindings.Length - 1, impurity, env, structure,
        special, cells, thrown)
    }

    ghost function Repr(): set<object>
      reads this`stack, this`argvBase, this`bindings
    {
      (if argvBase == null then {} else {argvBase as object}) + {stack as object, bindings as object}
    }

    /** Returning `s` now is result `r`. */
    ghost predicate Shows(r: Result, s: Status)
      reads this, stack, argv, argvBase, bindings
    {
      match s
      case Running => Valid() && r == Next(Abs())
      case Raised => Valid() && r == Raise(Abs())
      case Returned(value) => Valid() && r == Finished(Abs(), value)
      case Crashed => r.Broken?
    }

    constructor (m: Machine, fun: Function, args: array<Value>, env: Env, structure: nat, special: Env,
      cells: seq<Value>)
      ensures this.m == m && Valid() && Abs() == Start(fun, args[..], env, structure, special, cells)
      ensures fresh(Repr())
    {
      var n := StackReq(fun.req);
      this.m, code, pc := m, fun.code, 0;
      var stack := new Value[n + 1](_ => Nil);
      stack[0] := T;
      var bindings := new Item[BindReq(fun.req) + 1](_ => Frame(0));
      this.stack, this.bindings, sp, bp, impurity := stack, bindings, 0, 0, 0;
      argvBase, argv, argvOff, argc := null, args, 0, args.Length;
      this.env, this.structure, this.special, this.cells, thrown := env, structure, special, cells, None;
      new;
      assert stack[..] == Fresh(n)[0 := T];
      assert bindings[..1] == [Frame(0)];
    }

    // ----- Memory -----

    lemma Views()
      requires Valid()
      ensures |Operands()| == stack.Length && forall i :: 0 <= i < stack.Length ==> Operands()[i] == stack[i]
      ensures |Binds()| == bp + 1 && (forall i :: 0 <= i <= bp ==> Binds()[i] == bindings[i])
      ensures bp >= 0 ==> Last(Binds()) == bindings[bp]
    {
    }

    lemma Sizes()
      requires Valid()
      ensures |Operands()| == stack.Length && |Binds()| == bp + 1
    {
    }

    method Put(i: nat, value: Value)
      requires Valid() && i < stack.Length
      modifies stack
      ensures Abs() == old(Abs()).(stack := old(Operands())[i := value])
    {
      hide Args, SpareBuffer, Binds;
      stack[i] := value;
    }

    method PushItem(item: Item)
      requires Valid() && bp + 1 < bindings.Length
      modifies this`bp, bindings
      ensures Valid() && Abs() == old(Abs()).(binds := old(Binds()) + [item])
    {
      hide Args, SpareBuffer, Operands;
      bp := bp + 1;
      bindings[bp] := item;
    }

    method PopItem() returns (item: Item)
      requires Valid() && bp >= 0
      modifies this`bp
      ensures Valid() && bp == old(bp) - 1 && item == Last(old(Binds())) &&
        Abs() == old(Abs()).(binds := Butlast(old(Binds())))
    {
      hide Args, SpareBuffer, Operands;
      item := bindings[bp];
      bp := bp - 1;
    }

    method Retop(item: Item)
      requires Valid() && bp >= 0
      modifies bindings
      ensures Abs() == old(Abs()).(binds := Butlast(old(Binds())) + [item])
    {
      hide Args, SpareBuffer, Operands;
      bindings[bp] := item;
      assert Binds() == Butlast(old(Binds())) + [item];
    }

    // ----- Bindings and frames -----

    /** unbind_n on the bindings from `base` up. */
    method UnbindN(base: nat)
      requires Valid() && base <= bp + 1
      modifies this`env, this`special
      ensures var r := UnbindTo(old(Abs()), base); Abs() == old(Abs()).(env := r.env, special := r.special)
    {
      hide Drop, Lex, Spec, Args, SpareBuffer, Operands;
      ghost var v := Abs();
      var i := bp + 1;
      assert v.binds == v.binds[..i];
      while i > base
        invariant base <= i <= bp + 1 && Abs() == v.(env := env, special := special)
        invariant UnbindTo(v, base) == UnbindTo(v.(binds := v.binds[..i], env := env, special := special), base)
      {
        i := i - 1;
        assert Butlast(v.binds[..i + 1]) == v.binds[..i] && Last(v.binds[..i + 1]) == bindings[i];
        env := Drop(env, Lex(bindings[i]));
        special := Drop(special, Spec(bindings[i]));
      }
    }

    method BindLexical(value: Value)
      requires Valid() && bp >= 0 && bindings[bp].Frame?
      modifies this`env, this`cells, bindings
      ensures FrameOnTop(old(Abs())) && Abs() == BindCell(old(Abs()), value)
    {
      hide Args, SpareBuffer, Operands, Binds;
      Views();
      Retop(Frame(bindings[bp].marks + 1));
      env, cells := Link(|cells|, env), cells + [value];
    }

    method BindSpecial(key: Value, value: Value)
      requires Valid() && bp >= 0 && bindings[bp].Frame?
      modifies this`special, this`cells, this`impurity, bindings
      ensures FrameOnTop(old(Abs())) && Abs() == BindSpecialCell(old(Abs()), key, value)
    {
      hide Args, SpareBuffer, Operands, Binds;
      Views();
      Retop(Frame(bindings[bp].marks + LEX_LIMIT));
      special, cells := Link(|cells|, special), cells + [Pair(key, value)];
      impurity := impurity + 1;
    }

    method Refuse(sym: Value)
      requires Valid() && bp >= 0 && bindings[bp].Frame?
      modifies this`impurity, this`thrown, bindings
      ensures FrameOnTop(old(Abs())) && Abs() == RefuseCell(old(Abs()), sym)
    {
      hide Args, SpareBuffer, Operands, Binds;
      Views();
      Retop(Null);
      impurity := impurity + 1;
      if thrown.None? { thrown := Some(Pair(ERROR, Pair(VOID_VALUE, Pair(sym, Nil)))); }
    }

    /** Moves on to the next instruction with `n` operands fewer. */
    method Advance(n: nat)
      requires n <= sp
      modifies this`pc, this`sp
      ensures pc == old(pc) + 1 && sp == old(sp) - n
      ensures old(Valid()) ==> Valid() && Abs() == old(Abs()).(pc := pc, sp := sp)
    {
      hide Args, SpareBuffer, Operands, Binds;
      pc, sp := pc + 1, sp - n;
    }

    method ExecBind(op: Insn) returns (s: Status)
      requires Valid() && sp < stack.Length && (op.Bind? || op.SpecBind? || op.FluidBind?)
      modifies this`pc, this`sp, this`impurity, this`env, this`special, this`cells, this`thrown, bindings
      ensures Shows(BindOp(m, old(Abs()), op), s)
    {
      hide Args, SpareBuffer, Operands, Binds, BindCell, BindSpecialCell, RefuseCell;
      Views();
      if bp < 0 || !bindings[bp].Frame? { return Crashed; }
      if op.Bind? {
        if sp == 0 { return Crashed; }
        var value := stack[sp];
        Advance(1);
        BindLexical(value);
      } else {
        if sp < 2 { return Crashed; }
        var first, second := stack[sp], stack[sp - 1];
        Advance(2);
        if op.SpecBind? && m.refuses(structure, first) {
          Refuse(first);
          return Raised;
        }
        if op.SpecBind? { BindSpecial(first, second); } else { BindSpecial(second, first); }
      }
      return Running;
    }

    method PopFrame() returns (s: Status)
      requires Valid()
      modifies this`pc, this`bp, this`impurity, this`env, this`special
      ensures Shows(FrameOp(old(Abs()), Insn.PopFrame), s)
    {
      hide Args, SpareBuffer, Operands, Binds, Drop, Lex, Spec;
      Views();
      if bp <= 0 { return Crashed; }
      pc := pc + 1;
      var item := PopItem();
      Undo(item);
      return Running;
    }

    /** unbind, with the bindings no longer counted. */
    method Undo(item: Item)
      requires Valid()
      modifies this`impurity, this`env, this`special
      ensures Abs() == Unbind(old(Abs()), item).(impurity := old(impurity) - Spec(item))
    {
      hide Args, SpareBuffer, Operands, Binds, Drop, Lex, Spec;
      env, special, impurity := Drop(env, Lex(item)), Drop(special, Spec(item)), impurity - Spec(item);
    }

    method PopFrames(op: Insn) returns (s: Status)
      requires Valid() && (op.PopFrames? || op.ResetFrames?)
      modifies this`pc, this`bp, this`impurity, this`env, this`special
      ensures Shows(FrameOp(old(Abs()), op), s)
    {
      hide Args, SpareBuffer, Operands, Binds, Drop, Lex, Spec, UnbindTo;
      Views();
      if op.PopFrames? && (bp < 0 || !bindings[0].Frame?) { return Crashed; }
      pc := pc + 1;
      PopTo(if op.PopFrames? then 1 else 0);
      impurity := if op.PopFrames? then Spec(bindings[0]) else 0;
      return Running;
    }

    method ExecFrame(op: Insn) returns (s: Status)
      requires Valid() && (op.PushFrame? || op.PopFrame? || op.PopFrames? || op.ResetFrames?)
      modifies this`pc, this`bp, this`impurity, this`env, this`special, bindings
      ensures Shows(FrameOp(old(Abs()), op), s)
    {
      hide Args, SpareBuffer, Operands, Binds, Drop, Lex, Spec, UnbindTo;
      if op.PushFrame? {
        Views();
        if bp + 1 >= bindings.Length { return Crashed; }
        pc := pc + 1;
        PushItem(Frame(0));
        return Running;
      }
      if op.PopFrame? { s := PopFrame(); } else { s := PopFrames(op); }
    }

    /** Undoes the items from `n` up. */
    method PopTo(n: nat)
      requires Valid() && n <= bp + 1
      modifies this`env, this`special, this`bp
      ensures Valid() && Abs() == UnbindTo(old(Abs()), n) && bp == n - 1
    {
      hide Args, SpareBuffer, Operands, UnbindTo;
      UnbindKeeps(Abs(), n, 0);
      UnbindN(n);
      bp := n - 1;
      assert Binds() == old(Binds())[..n];
    }

    // ----- Exceptions -----

    method ExecBindErr() returns (s: Status)
      requires Valid() && sp < stack.Length
      modifies this`pc, this`sp, this`bp, this`impurity, bindings
      ensures Shows(BindErrOp(old(Abs())), s)
    {
      hide Args, SpareBuffer, Operands, Binds;
      Views();
      if sp == 0 || bp + 1 >= bindings.Length || !stack[sp].Int? || stack[sp].n < 0 { return Crashed; }
      PushItem(Handler(stack[sp].n, sp - 1));
      pc, sp, impurity := pc + 1, sp - 1, impurity + 1;
      return Running;
    }

    /** Binds the error data in a frame of its own. */
    method BindError(data: Value)
      requires Valid() && bp + 1 < bindings.Length
      modifies this`bp, this`env, this`cells, bindings
      ensures Valid() && Abs() == old(Abs()).(env := Link(old(|cells|), old(env)), cells := old(cells) + [data],
        binds := old(Binds()) + [Frame(1)])
    {
      hide Args, SpareBuffer, Operands, Binds;
      PushItem(Frame(1));
      env, cells := Link(|cells|, env), cells + [data];
    }

    method ExecErrorPro() returns (s: Status)
      requires Valid() && sp < stack.Length
      modifies this`pc, this`sp, this`bp, this`env, this`cells, bindings, stack
      ensures Shows(ErrorProOp(m, old(Abs())), s)
    {
      hide Args, SpareBuffer, Operands, Binds;
      Views();
      if sp < 2 { return Crashed; }
      var top, value := stack[sp], stack[sp - 1];
      var accepted := value.Pair? && value.car == ERROR && m.accepts(value.cdr, top);
      if accepted && bp + 1 >= bindings.Length { return Crashed; }
      Advance(1);
      if accepted {
        BindError(value.cdr);
        Put(sp, Nil);
      }
      return Running;
    }

    method ExecCatch() returns (s: Status)
      requires Valid() && sp < stack.Length
      modifies this`pc, this`sp, stack
      ensures Shows(ThrowOp(old(Abs()), Catch), s)
    {
      hide Args, SpareBuffer, Operands, Binds;
      Views();
      if sp < 2 { return Crashed; }
      var top, value := stack[sp], stack[sp - 1];
      if value.Pair? && value.car == top {
        Put(sp - 1, value.cdr);
        Put(sp, Nil);
        Advance(0);
      } else {
        Advance(1);
      }
      return Running;
    }

    method ExecThrow(op: Insn) returns (s: Status)
      requires Valid() && sp < stack.Length && (op.EJmp? || op.Throw?)
      modifies this`pc, this`sp, this`thrown
      ensures Shows(ThrowOp(old(Abs()), op), s)
    {
      hide Args, SpareBuffer, Operands, Binds;
      Views();
      if sp == 0 || (sp == 1 && op.Throw?) { return Crashed; }
      Advance(1);
      var top := stack[sp + 1];
      if op.EJmp? {
        if top.Nil? { pc := op.target; return Running; }
        thrown := Some(top);
      } else {
        if thrown.Some? { return Running; }
        thrown := Some(Pair(stack[sp], top));
      }
      return Raised;
    }

    /** Runs the code of a handler, the exception on top of the stack cut to its depth. */
    method EnterHandler(handler: nat, depth: nat)
      requires Valid() && depth + 1 < stack.Length && thrown.Some?
      modifies this`pc, this`sp, this`thrown, this`impurity, stack
      ensures Abs() == old(Abs()).(stack := old(Operands())[depth + 1 := old(thrown).value], sp := depth + 1,
        thrown := None,
                                   pc := handler, impurity := old(impurity) - 1)
    {
      hide Args, SpareBuffer, Operands, Binds;
      Put(depth + 1, thrown.value);
      sp, thrown, pc, impurity := depth + 1, None, handler, impurity - 1;
    }

    /** The error path. */
    method HandleError() returns (s: Status)
      requires Valid()
      modifies this`pc, this`sp, this`bp, this`impurity, this`env, this`special, this`thrown, stack
      ensures Shows(Unwind(old(Abs())), s) && !s.Raised?
    {
      hide Args, SpareBuffer, Operands, Binds, Unwind, Unbind;
      ghost var r := Unwind(Abs());
      while bp >= 0
        invariant Valid() && Unwind(Abs()) == r
        decreases bp
      {
        Sizes();
        UnwindUnfolds(Abs());
        var item := PopItem();
        if item.Frame? {
          Undo(item);
        } else if item.Null? {
          return Crashed;
        } else if thrown.Some? {
          if item.depth + 1 >= stack.Length { return Crashed; }
          EnterHandler(item.pc, item.depth);
          return Running;
        } else {
          impurity := impurity - 1;
        }
      }
      Sizes();
      UnwindUnfolds(Abs());
      return Returned(None);
    }

    // ----- Calls -----

    method ExecPlain(op: nat) returns (s: Status)
      requires Valid()
      modifies this`pc, this`sp, this`cells, this`thrown, stack
      ensures Shows(PlainOp(m, old(Abs()), op), s)
    {
      hide Args, SpareBuffer, Binds;
      var e := m.plain(op, Abs());
      if |e.stack| != stack.Length || e.sp >= |e.stack| { return Crashed; }
      FillStack(e.stack);
      sp, pc, cells, thrown := e.sp, e.pc, e.cells, e.thrown;
      if e.raised { return Raised; }
      return Running;
    }

    method FillStack(values: seq<Value>)
      requires Valid() && |values| == stack.Length
      modifies stack
      ensures Abs() == old(Abs()).(stack := values)
    {
      hide Args, SpareBuffer, Binds;
      forall i | 0 <= i < stack.Length { stack[i] := values[i]; }
      assert Operands() == values;
    }

    /** The stack and the buffer of the previous arguments change places if that buffer is large enough;
        otherwise a new stack is made. */
    method SwitchStacks(need: nat)
      requires Valid() && (argvBase == null ==> need > 0)
      modifies this`stack, this`argvBase, argvBase
      ensures stack != old(stack) && argvBase == old(stack) && (stack == old(argvBase) || fresh(stack))
      ensures bindings as object != stack && stack.Length > 0
      ensures Operands() == (if SpareSize(old(SpareBuffer())) >= need then old(SpareBuffer()).buf
        else Fresh(need))[0 := T]
      ensures argvBase[..] == old(Operands())
    {
      var former := stack;
      if (if argvBase == null then 0 else argvBase.Length - 1) >= need {
        stack := argvBase;
      } else {
        stack := new Value[need + 1](_ => Nil);
        assert stack[..] == Fresh(need);
      }
      stack[0] := T;
      argvBase := former;
    }

    method ClearBindings(need: nat)
      requires Valid()
      modifies this`bindings, this`bp, bindings
      ensures Valid() && (bindings == old(bindings) || fresh(bindings))
      ensures Abs() == old(Abs()).(binds := [Frame(0)], bindCap := bindings.Length - 1)
      ensures bindings.Length == (if old(bindings.Length) - 1 < need then need + 1 else old(bindings.Length))
    {
      hide Operands, Args, SpareBuffer;
      if bindings.Length - 1 < need { bindings := new Item[need + 1](_ => Frame(0)); }
      bindings[0] := Frame(0);
      bp := 0;
      assert Binds() == [Frame(0)];
    }

    /** The registers of a function about to run. */
    method Enter(fun: Function, scope: Env, home: nat)
      requires Valid()
      modifies this`bindings, this`bp, this`env, this`structure, this`code, this`pc, this`sp, this`impurity, bindings
      ensures Valid() && (bindings == old(bindings) || fresh(bindings))
      ensures var v := old(Abs());
        Abs() == v.(code := fun.code, pc := 0, sp := 0, binds := [Frame(0)], impurity := 0, env := scope,
          structure := home,
                    bindCap := if v.bindCap < BindReq(fun.req) then BindReq(fun.req) else v.bindCap)
    {
      hide Operands, Args, SpareBuffer, Binds;
      ClearBindings(BindReq(fun.req));
      env, structure, code, pc, sp, impurity := scope, home, fun.code, 0, 0, 0;
    }

    /** Tail-calling in place. */
    method TailCall(f: Value, n: nat) returns (s: Status)
      requires Valid() && f.Code? && f.id < |m.funs| && n < sp < stack.Length
      modifies this, bindings, argvBase
      ensures Shows(Jump(m, old(Abs()), f, n), s)
      ensures bindings == old(bindings) || fresh(bindings)
      ensures s.Crashed? || (argv == argvBase == old(stack) && (stack == old(argvBase) || fresh(stack)))
      ensures s.Crashed? ==> stack == old(stack) && argvBase == old(argvBase)
    {
      hide Operands, Binds, Args, SpareBuffer;
      var fun := m.funs[f.id];
      var need := StackReq(fun.req);
      SpareNull();
      if argvBase == null && need == 0 { return Crashed; }
      MoveBuffers(need, n);
      Enter(fun, f.env, f.structure);
      return Running;
    }

    lemma SpareNull()
      ensures SpareBuffer().NoSpare? <==> argvBase == null
      ensures argvBase != null ==> |SpareBuffer().buf| == argvBase.Length
    {
    }

    /** The old stack, with the `n` arguments on top of it, becomes the spare buffer. */
    method MoveBuffers(need: nat, n: nat)
      requires Valid() && n < sp < stack.Length && (argvBase == null ==> need > 0)
      modifies this`stack, this`argvBase, this`argv, this`argvOff, this`argc, argvBase
      ensures Valid() && argv == argvBase == old(stack) && (stack == old(argvBase) || fresh(stack))
      ensures Abs() == old(Abs()).(
        stack := (if SpareSize(old(SpareBuffer())) >= need then old(SpareBuffer()).buf else Fresh(need))[0 := T],
        spare := Spare(old(Operands())), args := old(Operands())[sp - n + 1..sp + 1])
    {
      hide Binds;
      SwitchStacks(need);
      argv, argvOff, argc := argvBase, sp - n + 1, n;
    }

    method CallOut(f: Value, n: nat) returns (s: Status)
      requires Valid() && n < sp < stack.Length && f == stack[sp - n]
      modifies this`pc, this`sp, this`cells, this`thrown, stack
      ensures Shows(ApplyOp(m, old(Abs()), n), s)
    {
      hide Args, SpareBuffer, Operands, Binds;
      Views();
      var r := m.call(f, Operands()[sp - n + 1..sp + 1], Abs());
      Advance(n);
      cells, thrown := r.cells, r.thrown;
      if r.value.None? { return Raised; }
      Put(sp, r.value.value);
      return Running;
    }

    method ExecCall(n: nat) returns (s: Status)
      requires Valid() && pc < |code| && sp < stack.Length && code[pc] == Call(n)
      modifies this, bindings, stack, argvBase
      ensures Shows(CallOp(m, old(Abs()), n), s) && fresh(Repr() - old(Repr()))
    {
      hide Args, SpareBuffer, Operands, Binds, Jump;
      Views();
      if sp <= n { return Crashed; }
      var f := stack[sp - n];
      if f.Code? && f.id < |m.funs| && impurity == 0 && pc + 1 < |code| && code[pc + 1].Return? {
        s := TailCall(f, n);
      } else {
        s := CallOut(f, n);
      }
    }

    method ExecReturn() returns (s: Status)
      requires Valid() && sp < stack.Length
      modifies this`pc, this`bp, this`env, this`special
      ensures Shows(ReturnOp(old(Abs())), s)
    {
      hide Args, SpareBuffer, Operands, Binds, UnbindTo;
      Views();
      pc := pc + 1;
      PopTo(0);
      return Returned(Some(stack[sp]));
    }

    /** One instruction. */
    method Execute() returns (s: Status)
      requires Valid()
      modifies this, bindings, stack, argvBase
      ensures Shows(Exec(m, old(Abs())), s) && fresh(Repr() - old(Repr()))
    {
      hide Args, SpareBuffer, Operands, Binds;
      hide PlainOp, BindOp, FrameOp, BindErrOp, ErrorProOp, ThrowOp, CallOp, ReturnOp;
      Views();
      if pc >= |code| || sp >= stack.Length { return Crashed; }
      match code[pc] {
        case Plain(op) => s := ExecPlain(op);
        case Bind => s := ExecBind(code[pc]);
        case SpecBind => s := ExecBind(code[pc]);
        case FluidBind => s := ExecBind(code[pc]);
        case PushFrame => s := ExecFrame(code[pc]);
        case PopFrame => s := ExecFrame(code[pc]);
        case PopFrames => s := ExecFrame(code[pc]);
        case ResetFrames => s := ExecFrame(code[pc]);
        case BindErr => s := ExecBindErr();
        case ErrorPro => s := ExecErrorPro();
        case Call(n) => s := ExecCall(n);
        case Return => s := ExecReturn();
        case Catch => s := ExecCatch();
        case _ => s := ExecThrow(code[pc]);
      }
    }

    /** One step: an instruction, and the error path if it raised an exception. */
    method StepOnce() returns (s: Status)
      requires Valid()
      modifies this, Repr()
      ensures Shows(Step(m, old(Abs())), s) && !s.Raised? && fresh(Repr() - old(Repr()))
    {
      hide Exec, Unwind;
      s := Execute();
      if s.Raised? { s := HandleError(); }
    }

    /** Runs at most `n` steps.  However the function is left, the special environment is the one it was
        entered with. */
    method Interpret(n: nat) returns (s: Status, ghost trace: Trace)
      requires Valid()
      modifies this, Repr()
      ensures trace != [] && Chain(m, trace) && trace[0] == old(Abs()) && Shows(Step(m, trace[|trace| - 1]), s)
      ensures s.Returned? && Impure(old(Abs())) && (forall v :: v in trace ==> Roomy(v)) ==>
        special == SpecialAt(old(Abs()), 0)
    {
      hide Step, Chain, Repr, Args, SpareBuffer, Operands, Binds, SpecialAt, Impure, Roomy;
      ghost var start := Abs();
      trace := [start];
      SingleChain(m, start);
      s := StepOnce();
      var i := 0;
      while i < n && s.Running?
        invariant trace != [] && Chain(m, trace) && trace[0] == start && Shows(Step(m, trace[|trace| - 1]), s) &&
          fresh(Repr() - old(Repr()))
      {
        Longer(m, trace, Abs());
        trace := trace + [Abs()];
        ghost var before := Repr();
        label step:
        s := StepOnce();
        forall x | x in Repr() && x !in before ensures fresh(x) {
          assert fresh@step(x);
        }
        i := i + 1;
      }
      if s.Returned? && Impure(start) && forall v :: v in trace ==> Roomy(v) {
        LeftClean(m, trace, Abs(), s.value);
      }
    }
  }

  lemma SingleChain(m: Machine, v: Vm)
    ensures Chain(m, [v])
  {
  }

  lemma UnwindUnfolds(v: Vm)
    ensures Unwind(v) ==
      if v.binds == [] then Finished(v, None)
      else
        var item := Last(v.binds);
        var w := v.(binds := Butlast(v.binds));
        if item.Frame? then Unwind(Unbind(w, item).(impurity := v.impurity - Spec(item)))
        else if item.Null? then Broken
        else if v.thrown.None? then Unwind(w.(impurity := v.impurity - 1))
        else if item.depth + 1 >= |v.stack| then Broken
        else Next(w.(stack := v.stack[item.depth + 1 := v.thrown.value], sp := item.depth + 1, thrown := None,
          pc := item.pc,
                     impurity := v.impurity - 1))
  {
  }
}
