/** The byte-code machine's bind stack: variable frames and exception handlers, and the environments
    they account for. */
module VmState {

  datatype Option<T> = None | Some(value: T)

  datatype Value =
    | Nil | T
    | Int(n: int)
    | Sym(id: nat)
    | Pair(car: Value, cdr: Value)
    | Code(id: nat, env: Env, structure: nat)    // a compiled closure

  /** An environment is a list of memory cells, so its bindings can be assigned without changing it. */
  datatype Env = Top | Link(cell: nat, rest: Env)

  /** A frame counts its bindings: lexical ones in the low 16 bits, special ones above.  Null is what
      is left of a frame when a special binding in it is refused. */
  datatype Item = Frame(marks: nat) | Handler(pc: nat, depth: nat) | Null

  const ERROR := Sym(0)
  const VOID_VALUE := Sym(1)
  const LEX_LIMIT: nat := 65536

  datatype Insn =
    | Plain(op: nat)          // touches only the operand stack, the memory and the program counter
    | Bind | SpecBind | FluidBind
    | PushFrame | PopFrame | PopFrames | ResetFrames
    | BindErr | ErrorPro | Catch | EJmp(target: nat) | Throw
    | Call(argc: nat) | Return

  /** `req` packs the stack size, the bind stack size and the register count. */
  datatype Function = Function(code: seq<Insn>, req: nat)

  function StackReq(req: nat): nat { req % 1024 }
  function BindReq(req: nat): nat { req / 1024 % 1024 }

  datatype Spare = NoSpare | Spare(buf: seq<Value>)

  datatype Vm = Vm(
    code: seq<Insn>, pc: nat,
    stack: seq<Value>, sp: nat, spare: Spare, args: seq<Value>,
    binds: seq<Item>, bindCap: nat, impurity: int,
    env: Env, structure: nat, special: Env, cells: seq<Value>, thrown: Option<Value>)

  datatype Effect = Effect(stack: seq<Value>, sp: nat, pc: nat, cells: seq<Value>, thrown: Option<Value>, raised: bool)

  datatype Called = Called(value: Option<Value>, cells: seq<Value>, thrown: Option<Value>)

  /** What the machine runs on: the code of functions, what plain instructions do, what calls that are
      not eliminated do, which errors a handler accepts, and which special variables a structure may
      not touch.  Plain instructions and calls leave both environments and the bind stack alone. */
  datatype Machine = Machine(
    funs: seq<Function>,
    plain: (nat, Vm) -> Effect,
    call: (Value, seq<Value>, Vm) -> Called,
    accepts: (Value, Value) -> bool,
    refuses: (nat, Value) -> bool)

  datatype Result =
    | Next(v: Vm)
    | Raise(v: Vm)
    | Finished(v: Vm, value: Option<Value>)
    | Broken                               // an assertion fails, or null is dereferenced

  // ----- Frames -----

  function Lex(item: Item): nat
  {
    if item.Frame? then item.marks % LEX_LIMIT else 0
  }

  function Spec(item: Item): nat
  {
    if item.Frame? then item.marks / LEX_LIMIT else 0
  }

  function Drop(env: Env, n: nat): Env
  {
    if n == 0 || env.Top? then env else Drop(env.rest, n - 1)
  }

  function Butlast(binds: seq<Item>): seq<Item>
    requires binds != []
  {
    binds[..|binds| - 1]
  }

  function Last(binds: seq<Item>): Item
    requires binds != []
  {
    binds[|binds| - 1]
  }

  // ----- Unwinding -----

  /** unbind */
  function Unbind(v: Vm, item: Item): Vm
  {
    v.(env := Drop(v.env, Lex(item)), special := Drop(v.special, Spec(item)))
  }

  /** unbind_n: undoes the items from `n` up, the newest first. */
  function UnbindTo(v: Vm, n: nat): Vm
    decreases |v.binds|
  {
    if |v.binds| <= n then v
    else UnbindTo(Unbind(v, Last(v.binds)).(binds := Butlast(v.binds)), n)
  }

  /** The error path: undoes frames down to the newest handler that can take the exception. */
  function Unwind(v: Vm): Result
    decreases |v.binds|
  {
    if v.binds == [] then Finished(v, None)
    else
      var item := Last(v.binds);
      var w := v.(binds := Butlast(v.binds));
      match item
      case Frame(_) => Unwind(Unbind(w, item).(impurity := v.impurity - Spec(item)))
      case Handler(pc, depth) =>
        if v.thrown.None? then Unwind(w.(impurity := v.impurity - 1))
        else if depth + 1 >= |v.stack| then Broken
        else Next(w.(stack := v.stack[depth + 1 := v.thrown.value], sp := depth + 1, thrown := None, pc := pc,
                     impurity := v.impurity - 1))
      case Null => Broken
  }

  // ----- Instructions -----

  function BindCell(v: Vm, value: Value): Vm
    requires v.binds != [] && Last(v.binds).Frame?
  {
    v.(env := Link(|v.cells|, v.env), cells := v.cells + [value],
       binds := Butlast(v.binds) + [Frame(Last(v.binds).marks + 1)])
  }

  function BindSpecialCell(v: Vm, key: Value, value: Value): Vm
    requires v.binds != [] && Last(v.binds).Frame?
  {
    v.(special := Link(|v.cells|, v.special), cells := v.cells + [Pair(key, value)],
       binds := Butlast(v.binds) + [Frame(Last(v.binds).marks + LEX_LIMIT)], impurity := v.impurity + 1)
  }

  /** A special binding that the structure may not make: the frame is overwritten by the null that
      the failed call returns. */
  function RefuseCell(v: Vm, sym: Value): Vm
    requires v.binds != []
  {
    v.(binds := Butlast(v.binds) + [Null], impurity := v.impurity + 1,
       thrown := if v.thrown.None? then Some(Pair(ERROR, Pair(VOID_VALUE, Pair(sym, Nil)))) else v.thrown)
  }

  predicate FrameOnTop(v: Vm)
  {
    v.binds != [] && Last(v.binds).Frame?
  }

  predicate RoomToPush(v: Vm)
  {
    |v.binds| <= v.bindCap
  }

  /** The call about to be made can be eliminated. */
  predicate TailCalls(m: Machine, v: Vm)
  {
    v.pc < |v.code| && v.code[v.pc].Call? && v.code[v.pc].argc < v.sp < |v.stack| &&
    (var f := v.stack[v.sp - v.code[v.pc].argc]; f.Code? && f.id < |m.funs|) &&
    v.impurity == 0 && v.pc + 1 < |v.code| && v.code[v.pc + 1].Return?
  }

  function SpareSize(s: Spare): int
  {
    if s.Spare? then |s.buf| - 1 else 0
  }

  function Fresh(n: nat): seq<Value>
  {
    seq(n + 1, _ => Nil)
  }

  /** Enters `f` in place of the running function: the old stack, which holds the arguments, becomes
      the spare buffer, and the old spare one the stack if it is large enough. */
  function Jump(m: Machine, v: Vm, f: Value, argc: nat): Result
    requires f.Code? && f.id < |m.funs| && argc < v.sp < |v.stack|
  {
    var fun := m.funs[f.id];
    var n := StackReq(fun.req);
    if SpareSize(v.spare) >= n && v.spare.NoSpare? then Broken
    else
      var stack := if SpareSize(v.spare) >= n then v.spare.buf else Fresh(n);
      if stack == [] then Broken
      else Next(Vm(fun.code, 0, stack[0 := T], 0, Spare(v.stack), v.stack[v.sp + 1 - argc..v.sp + 1],
                   [Frame(0)], if v.bindCap < BindReq(fun.req) then BindReq(fun.req) else v.bindCap, 0,
                   f.env, f.structure, v.special, v.cells, v.thrown))
  }

  function PlainOp(m: Machine, v: Vm, op: nat): Result
  {
    var e := m.plain(op, v);
    if |e.stack| != |v.stack| || e.sp >= |e.stack| then Broken
    else
      var w := v.(stack := e.stack, sp := e.sp, pc := e.pc, cells := e.cells, thrown := e.thrown);
      if e.raised then Raise(w) else Next(w)
  }

  function BindOp(m: Machine, v: Vm, op: Insn): Result
    requires v.sp < |v.stack|
  {
    var w := v.(pc := v.pc + 1);
    if !FrameOnTop(v) then Broken
    else if op.Bind? then
      if v.sp == 0 then Broken else Next(BindCell(w.(sp := v.sp - 1), v.stack[v.sp]))
    else if v.sp < 2 then Broken
    else if op.SpecBind? then
      if m.refuses(v.structure, v.stack[v.sp]) then Raise(RefuseCell(w.(sp := v.sp - 2), v.stack[v.sp]))
      else Next(BindSpecialCell(w.(sp := v.sp - 2), v.stack[v.sp], v.stack[v.sp - 1]))
    else Next(BindSpecialCell(w.(sp := v.sp - 2), v.stack[v.sp - 1], v.stack[v.sp]))
  }

  function FrameOp(v: Vm, op: Insn): Result
  {
    var w := v.(pc := v.pc + 1);
    if op.PushFrame? then
      if !RoomToPush(v) then Broken else Next(w.(binds := v.binds + [Frame(0)]))
    else if op.PopFrame? then
      if |v.binds| <= 1 then Broken
      else Next(Unbind(w, Last(v.binds)).(binds := Butlast(v.binds), impurity := v.impurity - Spec(Last(v.binds))))
    else if op.PopFrames? then
      if v.binds == [] || !v.binds[0].Frame? then Broken
      else Next(UnbindTo(w, 1).(impurity := Spec(v.binds[0])))
    else Next(UnbindTo(w, 0).(impurity := 0))
  }

  function BindErrOp(v: Vm): Result
    requires v.sp < |v.stack|
  {
    if v.sp == 0 || !RoomToPush(v) || !v.stack[v.sp].Int? || v.stack[v.sp].n < 0 then Broken
    else Next(v.(pc := v.pc + 1, sp := v.sp - 1, binds := v.binds + [Handler(v.stack[v.sp].n, v.sp - 1)],
                 impurity := v.impurity + 1))
  }

  function ErrorProOp(m: Machine, v: Vm): Result
    requires v.sp < |v.stack|
  {
    if v.sp < 2 then Broken
    else
      var w := v.(pc := v.pc + 1, sp := v.sp - 1);
      var thrown := v.stack[v.sp - 1];
      if !thrown.Pair? || thrown.car != ERROR || !m.accepts(thrown.cdr, v.stack[v.sp]) then Next(w)
      else if !RoomToPush(v) then Broken
      else Next(w.(stack := v.stack[v.sp - 1 := Nil], env := Link(|v.cells|, v.env),
                   cells := v.cells + [thrown.cdr], binds := v.binds + [Frame(1)]))
  }

  function ThrowOp(v: Vm, op: Insn): Result
    requires v.sp < |v.stack|
  {
    var w := v.(pc := v.pc + 1);
    if v.sp == 0 then Broken
    else
      var top := v.stack[v.sp];
      if op.EJmp? then
        if top.Nil? then Next(w.(sp := v.sp - 1, pc := op.target)) else Raise(w.(sp := v.sp - 1, thrown := Some(top)))
      else if v.sp < 2 then Broken
      else
        var value := v.stack[v.sp - 1];
        if op.Throw? then
          if v.thrown.None? then Raise(w.(sp := v.sp - 1, thrown := Some(Pair(value,
            top)))) else Next(w.(sp := v.sp - 1))
        else if value.Pair? && value.car == top then Next(w.(stack := v.stack[v.sp - 1 := value.cdr][v.sp := Nil]))
        else Next(w.(sp := v.sp - 1))
  }

  /** Calls the function below the arguments and waits for its value. */
  function ApplyOp(m: Machine, v: Vm, argc: nat): Result
    requires argc < v.sp < |v.stack|
  {
    var r := m.call(v.stack[v.sp - argc], v.stack[v.sp - argc + 1..v.sp + 1], v);
    var w := v.(pc := v.pc + 1, sp := v.sp - argc, cells := r.cells, thrown := r.thrown);
    if r.value.None? then Raise(w) else Next(w.(stack := v.stack[v.sp - argc := r.value.value]))
  }

  function CallOp(m: Machine, v: Vm, argc: nat): Result
    requires v.pc < |v.code| && v.code[v.pc] == Call(argc) && v.sp < |v.stack|
  {
    if v.sp <= argc then Broken
    else
      var f := v.stack[v.sp - argc];
      if TailCalls(m, v) then Jump(m, v, f, argc) else ApplyOp(m, v, argc)
  }

  function ReturnOp(v: Vm): Result
    requires v.sp < |v.stack|
  {
    Finished(UnbindTo(v.(pc := v.pc + 1), 0), Some(v.stack[v.sp]))
  }

  function Exec(m: Machine, v: Vm): Result
  {
    if v.pc >= |v.code| || v.sp >= |v.stack| then Broken
    else
      var op := v.code[v.pc];
      if op.Plain? then PlainOp(m, v, op.op)
      else if op.Bind? || op.SpecBind? || op.FluidBind? then BindOp(m, v, op)
      else if op.PushFrame? || op.PopFrame? || op.PopFrames? || op.ResetFrames? then FrameOp(v, op)
      else if op.BindErr? then BindErrOp(v)
      else if op.ErrorPro? then ErrorProOp(m, v)
      else if op.Call? then CallOp(m, v, op.argc)
      else if op.Return? then ReturnOp(v)
      else ThrowOp(v, op)
  }

  /** One instruction, and what an exception it raises leads to. */
  function Step(m: Machine, v: Vm): Result
  {
    var r := Exec(m, v);
    if r.Raise? then Unwind(r.v) else r
  }

  /** Entering a function: its closure's environment, one empty frame, no spare buffer. */
  function Start(fun: Function, args: seq<Value>, env: Env, structure: nat, special: Env, cells: seq<Value>): Vm
  {
    Vm(fun.code, 0, Fresh(StackReq(fun.req))[0 := T], 0, NoSpare, args, [Frame(0)], BindReq(fun.req), 0,
       env, structure, special, cells, None)
  }
}
