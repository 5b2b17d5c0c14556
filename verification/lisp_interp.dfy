/** The interpreter as it runs: environments and the pending throw are global variables, and null is
    returned when something has been thrown. */
module LispInterp {
  import opened LispEval
  import opened LispTail
  import opened LispTrampoline
  import opened LispEquivalence
  import opened LispUnfold
  import opened LispSpecials
  import opened LispNames
  import opened LispClean

  /** rep_throw_value. */
  datatype Pending = Nothing | Exception(e: Error) | TailCell(func: Value, args: Value)

  /** A binding frame: null once a binding was refused, and a stray word, which undoes nothing, if
      further parameters were bound after that. */
  datatype BindingFrame = Counted(lex: nat, spec: nat) | NullFrame | Stray

  /** What a function returns: a value, null, or nothing because the step budget ran out. */
  datatype Result = Ret(v: Value) | Null | Spent

  /** rep_list_length followed by copy_to_vector. */
  method CopyToVector(list: Value) returns (argv: array<Value>)
    ensures fresh(argv) && argv[..] == ToArgs(list)
  {
    var n := 0;
    var l := list;
    while l.Pair?
      invariant n + ListLength(l) == ListLength(list)
      decreases l
    {
      n := n + 1;
      l := l.cdr;
    }
    argv := new Value[n](_ => Nil);
    ArgsLength(list);
    ghost var all := ToArgs(list);
    l := list;
    for i := 0 to n
      invariant ToArgs(l) == all[i..]
      invariant forall k :: 0 <= k < i ==> argv[k] == all[k]
    {
      assert all[i] == ToArgs(l)[0];
      argv[i] := l.car;
      l := l.cdr;
    }
    assert argv[..] == all;
  }

  /** How many parameters a lambda list can introduce. */
  function Slots(list: Value): (n: nat)
    ensures n <= ListLength(list) + 1
  {
    if list.Pair? then 1 + Slots(list.cdr) else if list.Sym? then 1 else 0
  }

  /** Position of keyword `s` with a value after it in `argv[off..]`, or -1. */
  method FindKey(argv: array<Value>, off: nat, s: nat) returns (i: int)
    requires off <= argv.Length
    ensures i == KeyAt(argv[off..], s, 0)
  {
    var j := 0;
    while j < argv.Length - off - 1
      invariant 0 <= j
      invariant KeyAt(argv[off..], s, 0) == KeyAt(argv[off..], s, j)
    {
      if argv[off + j] == Keyword(s) && argv[off + j + 1] != Void { return j; }
      j := j + 1;
    }
    return -1;
  }

  /** The arguments left over, without those that were consumed. */
  method CollectRest(argv: array<Value>, off: nat) returns (list: Value)
    requires off <= argv.Length
    ensures list == FromArgs(argv[off..])
  {
    var items: seq<Value> := [];
    var i := off;
    while i < argv.Length
      invariant off <= i <= argv.Length
      invariant FromArgs(argv[off..]) == Append(items, FromArgs(argv[i..]))
    {
      assert argv[i..][1..] == argv[i + 1..];
      if argv[i] != Void {
        AppendOne(items, argv[i], FromArgs(argv[i + 1..]));
        items := items + [argv[i]];
      }
      i := i + 1;
    }
    list := Build(items, Nil);
  }

  /** A keyword parameter clears the two arguments it consumes. */
  method TakeKeyword(argv: array<Value>, off: nat, sym: nat, def: Value) returns (v: Var)
    requires off <= argv.Length
    modifies argv
    ensures var args := old(argv[off..]);
      var i := KeyAt(args, sym, 0);
      v == (if i < 0 then Var(sym, def, true) else Var(sym, args[i + 1], false)) &&
      argv[off..] == (if i < 0 then args else args[i := Void][i + 1 := Void])
  {
    hide KeyAt;
    ghost var args := argv[off..];
    var i := FindKey(argv, off, sym);
    if i < 0 { return Var(sym, def, true); }
    v := Var(sym, argv[off + i + 1], false);
    argv[off + i], argv[off + i + 1] := Void, Void;
    assert argv[off..] == args[i := Void][i + 1 := Void];
  }

  lemma OneKey(spec: Value, s: nat, def: Value, rest: Value, args: Args, done: seq<Var>)
    ensures var i := KeyAt(args, s, 0);
      OneParam(spec, s, def, rest, args, KeyPhase, done) ==
        (if i < 0 then ReadParams(rest, args, KeyPhase, done + [Var(s, def, true)])
         else ReadParams(rest, args[i := Void][i + 1 := Void], KeyPhase, done + [Var(s, args[i + 1], false)]))
  {
    hide ReadParams, KeyAt;
  }

  lemma OneGiven(spec: Value, s: nat, def: Value, rest: Value, args: Args, phase: Phase, done: seq<Var>)
    requires (phase.Required? || phase.OptionalPhase?) && args != []
    ensures OneParam(spec, s, def, rest, args, phase, done) ==
      ReadParams(rest, args[1..], phase, done + [Var(s, args[0], false)])
  {
    hide ReadParams;
  }

  lemma OneAbsent(spec: Value, s: nat, def: Value, rest: Value, phase: Phase, done: seq<Var>)
    ensures phase.Required? ==> OneParam(spec, s, def, rest, [], phase, done) == Bad(NoArgument(spec))
    ensures phase.OptionalPhase? ==>
      OneParam(spec, s, def, rest, [], phase, done) == ReadParams(rest, [], phase, done + [Var(s, def, true)])
  {
    hide ReadParams;
  }

  lemma OneRest(spec: Value, s: nat, def: Value, rest: Value, args: Args, done: seq<Var>)
    ensures OneParam(spec, s, def, rest, args, RestPhase, done) ==
      ReadParams(rest, [], DonePhase, done + [Var(s, FromArgs(args), false)])
    ensures OneParam(spec, s, def, rest, args, DonePhase, done) == Bad(Malformed(rest))
  {
    hide ReadParams, FromArgs;
  }

  /** Gives a required or optional parameter its argument, or the default it is to have. */
  method TakeArgument(argv: array<Value>, off: nat, phase: Phase, spec: Value, sym: nat, def: Value, ghost rest: Value,
                      ghost done: seq<Var>)
    returns (v: Var, off': nat, failed: Verdict)
    requires off <= argv.Length && (phase.Required? || phase.OptionalPhase?)
    ensures off <= off' <= argv.Length
    ensures OneParam(spec, sym, def, rest, argv[off..], phase, done) ==
      if failed.Fine? then ReadParams(rest, argv[off'..], phase, done + [v]) else Bad(failed.fault)
  {
    hide OneParam, ReadParams;
    v, off', failed := Var(sym, def, true), off, Fine;
    if off < argv.Length {
      OneGiven(spec, sym, def, rest, argv[off..], phase, done);
      v, off' := Var(sym, argv[off], false), off + 1;
      assert argv[off..][1..] == argv[off'..];
    } else {
      OneAbsent(spec, sym, def, rest, phase, done);
      assert argv[off..] == [];
      if phase.Required? { failed := Faulty(NoArgument(spec)); }
    }
  }

  /** Gives a parameter its argument, or the default it is to have.  `rest` is what is left of the
      lambda list. */
  method AssignParam(vars: array<Var>, count: nat, argv: array<Value>, off: nat, phase: Phase, spec: Value, sym: nat,
                     def: Value, rest: Value)
    returns (off': nat, phase': Phase, failed: Verdict)
    requires count < vars.Length && off <= argv.Length
    modifies vars, argv
    ensures off' <= argv.Length
    ensures OneParam(spec, sym, def, rest, old(argv[off..]), phase, old(vars[..count])) ==
      if failed.Fine? then ReadParams(rest, argv[off'..], phase', vars[..count + 1]) else Bad(failed.fault)
  {
    hide KeyAt, FromArgs, ReadParams, OneParam;
    off', phase', failed := off, phase, Fine;
    ghost var args, done := argv[off..], vars[..count];
    var v := Var(sym, def, true);
    match phase {
      case KeyPhase =>
        OneKey(spec, sym, def, rest, args, done);
        v := TakeKeyword(argv, off, sym, def);
      case RestPhase =>
        OneRest(spec, sym, def, rest, args, done);
        var items := CollectRest(argv, off);
        v, off', phase' := Var(sym, items, false), argv.Length, DonePhase;
        assert argv[off'..] == [];
      case DonePhase =>
        OneRest(spec, sym, def, rest, args, done);
        failed := Faulty(Malformed(rest));
      case _ =>
        v, off', failed := TakeArgument(argv, off, phase, spec, sym, def, rest, done);
    }
    ghost var left := argv[off'..];
    vars[count] := v;
    assert vars[..count + 1] == done + [v] && argv[off'..] == left;
  }

  datatype Verdict = Fine | Faulty(fault: Fault)

  /** The symbol of a parameter and its default, if `spec` is a parameter. */
  datatype Spec = Spec(sym: nat, def: Value) | NotAParameter

  function ParamSpec(spec: Value): Spec
  {
    if spec.Sym? then Spec(spec.s, Nil)
    else if spec.Pair? && spec.car.Sym? then Spec(spec.car.s, if spec.cdr.Pair? then spec.cdr.car else Nil)
    else NotAParameter
  }

  lemma ReadOne(list: Value, args: Args, phase: Phase, done: seq<Var>)
    requires list.Pair? && !list.car.Mark?
    ensures ReadParams(list, args, phase, done) ==
      match ParamSpec(list.car)
      case NotAParameter => Bad(Malformed(list.cdr))
      case Spec(sym, def) => OneParam(list.car, sym, def, list.cdr, args, phase, done)
  {
    hide OneParam;
  }

  lemma ReadDotted(list: Value, args: Args, phase: Phase, done: seq<Var>)
    requires list.Sym? && Rank(phase) < Rank(RestPhase)
    ensures ReadParams(list, args, phase, done) == OneParam(list, list.s, Nil, Nil, args, RestPhase, done)
  {
    hide FromArgs;
  }

  /** Pass 1 of binding a lambda list: fills `vars`, which has room for every parameter. */
  method ReadLambdaList(list: Value, argv: array<Value>) returns (ps: Params)
    modifies argv
    ensures ps == ReadParams(list, old(argv[..]), Required, [])
  {
    hide OneParam;
    ghost var all := argv[..];
    var vars: array<Var> := new Var[ListLength(list) + 1](_ => Var(0, Nil, false));
    var count: nat, off: nat := 0, 0;
    var phase := Required;
    var l := list;
    while true
      invariant off <= argv.Length
      invariant count + Slots(l) <= vars.Length
      invariant ReadParams(l, argv[off..], phase, vars[..count]) == ReadParams(list, all, Required, [])
      decreases Slots(l)
    {
      var spec := l;
      if l.Pair? {
        spec := l.car;
        if spec.Mark? {
          if Rank(phase) >= Rank(PhaseOf(spec.mark)) { return Bad(Malformed(l.cdr)); }
          phase := PhaseOf(spec.mark);
          l := l.cdr;
          continue;
        }
        ReadOne(l, argv[off..], phase, vars[..count]);
        l := l.cdr;
      } else if l.Nil? {
        break;
      } else if l.Sym? {
        if Rank(phase) >= Rank(RestPhase) { return Bad(Malformed(l)); }
        ReadDotted(l, argv[off..], phase, vars[..count]);
        phase := RestPhase;
        l := Nil;
      } else {
        return Bad(Malformed(l));
      }
      var p := ParamSpec(spec);
      if p.NotAParameter? { return Bad(Malformed(l)); }
      var failed;
      off, phase, failed := AssignParam(vars, count, argv, off, phase, spec, p.sym, p.def, l);
      if failed.Faulty? { return Bad(failed.fault); }
      count := count + 1;
    }
    return Vars(vars[..count]);
  }

  /** Conses `items` onto `tail`. */
  method Build(items: seq<Value>, tail: Value) returns (list: Value)
    ensures list == Append(items, tail)
  {
    list := tail;
    var i := |items|;
    while i > 0
      invariant 0 <= i <= |items|
      invariant list == Append(items[i..], tail)
    {
      i := i - 1;
      assert items[i..][1..] == items[i + 1..];
      list := Pair(items[i], list);
    }
    assert items[0..] == items;
  }

  /** The arguments of `apply`, the last one spread. */
  method SpreadLast(args: Value) returns (s: Spread)
    requires args.Pair?
    ensures s == SpreadArgs(args)
  {
    var items: seq<Value> := [];
    var l := args;
    while l.cdr.Pair?
      invariant l.Pair?
      invariant SpreadArgs(args) == (var s := SpreadArgs(l); if s.NotAList? then s else Spread(Append(items, s.list)))
      decreases l
    {
      var rest := SpreadArgs(l.cdr);
      if rest.Spread? { AppendOne(items, l.car, rest.list); }
      items := items + [l.car];
      l := l.cdr;
    }
    if l.car.Pair? || l.car.Nil? {
      var list := Build(items, l.car);
      return Spread(list);
    }
    return NotAList(l.car);
  }

  lemma {:induction false} StarAppends(list: Value)
    requires list.Pair?
    ensures |ToArgs(list)| > 0
    ensures var a := ToArgs(list); Star(list) == Append(a[..|a| - 1], a[|a| - 1])
  {
    var a := ToArgs(list);
    if list.cdr.Pair? {
      StarAppends(list.cdr);
      assert a[1..] == ToArgs(list.cdr);
      assert a[..|a| - 1][1..] == a[1..][..|a| - 2];
    } else {
      assert ToArgs(list.cdr) == [];
    }
  }

  /** list* of the elements of a list. */
  method ListStar(list: Value) returns (r: Value)
    ensures r == Star(list)
  {
    var argv := CopyToVector(list);
    if argv.Length == 0 { return Nil; }
    assert list.Pair?;
    StarAppends(list);
    r := Build(argv[..argv.Length - 1], argv[argv.Length - 1]);
  }

  lemma FirstSoFar(rules: Rules, structure: nat, vars: seq<Var>, i: nat)
    requires i < |vars|
    ensures FirstRefused(rules, structure, vars[..i + 1]) ==
      if AnyRefused(rules, structure, vars[..i]) then FirstRefused(rules, structure, vars[..i])
      else if Refused(rules, structure, vars[i].sym) then vars[i].sym else 0
  {
    hide Refused;
    FirstAppend(rules, structure, vars[..i], vars[i]);
    assert vars[..i] + [vars[i]] == vars[..i + 1];
  }

  lemma {:induction false} FirstAppend(rules: Rules, structure: nat, vars: seq<Var>, v: Var)
    ensures FirstRefused(rules, structure, vars + [v]) ==
      if AnyRefused(rules, structure, vars) then FirstRefused(rules, structure, vars)
      else if Refused(rules, structure, v.sym) then v.sym else 0
  {
    hide Refused;
    if vars == [] {
      assert ([] + [v])[1..] == [];
    } else {
      assert (vars + [v])[1..] == vars[1..] + [v];
      FirstAppend(rules, structure, vars[1..], v);
      AnyFirst(rules, structure, vars);
    }
  }

  lemma AnyFirst(rules: Rules, structure: nat, vars: seq<Var>)
    requires vars != []
    ensures AnyRefused(rules, structure, vars) <==>
      Refused(rules, structure, vars[0].sym) || AnyRefused(rules, structure, vars[1..])
  {
    if j :| 0 <= j < |vars| && Refused(rules, structure, vars[j].sym) {
      if j > 0 { assert vars[1..][j - 1] == vars[j]; }
    }
  }

  lemma RefusedSoFar(rules: Rules, structure: nat, vars: seq<Var>, i: nat)
    requires i < |vars|
    ensures AnyRefused(rules, structure, vars[..i + 1]) <==>
      AnyRefused(rules, structure, vars[..i]) || Refused(rules, structure, vars[i].sym)
  {
    if AnyRefused(rules, structure, vars[..i]) {
      var j :| 0 <= j < i && Refused(rules, structure, vars[..i][j].sym);
      assert vars[..i + 1][j] == vars[..i][j];
    }
    if Refused(rules, structure, vars[i].sym) { assert vars[..i + 1][i] == vars[i]; }
    if AnyRefused(rules, structure, vars[..i + 1]) {
      var j :| 0 <= j < i + 1 && Refused(rules, structure, vars[..i + 1][j].sym);
      if j < i { assert vars[..i][j] == vars[..i + 1][j]; }
    }
  }

  class Interp {
    const m: Machine
    var env: Env              // rep_env
    var structure: nat        // rep_structure
    var fun: Value            // rep_call_stack->fun
    var special: Env          // rep_special_env
    var store: Store          // values in structures
    var odd: bool             // three records the source does not keep; the last is the function that runs
    var leaks: nat
    var running: Value
    var thrown: Pending       // rep_throw_value

    constructor (m: Machine, store: Store)
      ensures this.m == m && Here() == Place(Top, 0, Who(Nil, Nil)) && St() == State(Top, store, false, 0) &&
              thrown.Nothing?
    {
      this.m, this.store, fun, running := m, store, Nil, Nil;
      env, structure, special, odd, leaks, thrown := Top, 0, Top, false, 0, Nothing;
    }

    function Here(): Place reads this { Place(env, structure, Who(fun, running)) }

    function St(): State reads this { State(special, store, odd, leaks) }

    /** Returning `r` in this state is outcome `o`. */
    ghost predicate Shows(o: Outcome, r: Result)
      reads this
    {
      match r
      case Ret(v) => thrown.Nothing? && o == Val(v, St())
      case Spent => o.Stuck?
      case Null =>
        match thrown
        case Nothing => o == Err(NoError, St())
        case Exception(e) => o == Err(e, St()) && !e.NoError?
        case TailCell(f, a) => o == TailCall(f, a, St())
    }

    /** Feval: what it returns or throws is what the evaluator that recurses on every call gives, unless an
        odd corner was met; but a missing argument may be blamed on another function.  A tail call never gets
        out, the place is as before, and the special environment is too if and only if no special binding
        leaked. */
    method Feval(n: nat, form: Value) returns (r: Result)
      requires m.tramp && m.named && thrown.Nothing?
      modifies this
      ensures var o := Run(m, n, Task.Eval(form, false, old(Here())), old(St()));
        var d, t := Direct(m), Task.Eval(form, false, old(Here()));
        Shows(o, r) && (!r.Spent? && !odd && old(fun == running) ==>
          Evaluates(d, t, old(St()), Renamed(o)) && (Evaluates(d, t, old(St()), o) <==> NamesCallee(o)))
      ensures !r.Spent? ==> Here() == old(Here()) && (r.Null? ==> !thrown.TailCell?)
      ensures !r.Spent? ==> (special == old(special) <==> leaks == old(leaks))
      ensures CleanMachine(m) && CleanTask(Task.Eval(form, false, old(Here()))) && CleanState(old(St())) &&
              !r.Spent? ==>
        !odd && leaks == old(leaks)
    {
      hide Run, Evaluates, MeansTask, CleanTask, CleanState, CleanMachine, Renamed, NamesCallee;
      ghost var t, st := Task.Eval(form, false, Here()), St();
      ghost var o := Run(m, n, t, st);
      r := InnerEval(n, form, false);
      SpecialsRestored(m, n, t, st);
      NoEscape(m, n, t, st);
      if CleanMachine(m) && CleanTask(t) && CleanState(st) {
        CleanRun(m, n, t, st);
        CleanEnds(o);
        CleanOpens(m);
        NothingLeaks(m, n, t, st);
      }
      if !r.Spent? && !odd && old(fun == running) { SoundNamed(m, n, t, st); }
    }

    /** rep_PUSH_CALL: the place is saved, and the call stack names the function called. */
    method PushCall(f: Value) returns (saved: Place)
      modifies this`fun, this`running
      ensures saved == old(Here()) && Here() == saved.(who := Who(f, f))
    {
      saved := Here();
      fun, running := f, f;
    }

    /** rep_POP_CALL */
    method PopCall(saved: Place)
      modifies this`env, this`structure, this`fun, this`running
      ensures Here() == saved
    {
      env, structure, fun, running := saved.env, saved.structure, saved.who.named, saved.who.running;
    }

    /** inner_eval */
    method InnerEval(n: nat, obj: Value, tail: bool) returns (r: Result)
      requires m.tramp && m.named && thrown.Nothing?
      modifies this
      ensures Shows(Run(m, n, Task.Eval(obj, tail, old(Here())), old(St())), r)
      ensures r.Spent? || Here() == old(Here())
      decreases n, 0
    {
      hide Run, Drive, Throw, InlineLambda, SymbolValue;
      ghost var t, st := Task.Eval(obj, tail, Here()), St();
      if n == 0 { Exhausted(m, t, st); return Spent; }
      if !obj.Pair? {
        RunNext(m, n, t, st);
        if !obj.Sym? { DriveDone(m, n, Val(obj, st)); return Ret(obj); }
        var v := SymbolValue(m, obj.s, Here(), St());
        DriveDone(m, n, if v == Void then Err(VoidVariable(obj.s), st) else Val(v, st));
        if v != Void { return Ret(v); }
        thrown := Exception(VoidVariable(obj.s));
        return Null;
      }
      EvalUnfolds(m, n, obj, tail, Here(), St());
      if InlineLambda(m, obj.car, Here(), St()) {
        var saved := PushCall(obj.car);
        r := EvalArgs(n - 1, obj.cdr);
        if r.Ret? { r := RunLambda(n - 1, obj.car, r.v, tail); }
        PopCall(saved);
      } else {
        r := InnerEval(n - 1, obj.car, false);
        if r.Ret? { r := Call(n, r.v, obj.cdr, tail); }
      }
    }

    /** The part of inner_eval after its function is known. */
    method Call(n: nat, fun: Value, rest: Value, tail: bool) returns (r: Result)
      requires m.tramp && m.named && thrown.Nothing? && n > 0
      modifies this
      ensures Shows(CallOutcome(m, n, fun, rest, tail, old(Here()), old(St())), r)
      ensures r.Spent? || Here() == old(Here())
      decreases n - 1, 20
    {
      hide Run, Drive, Throw, PlainApply, Star;
      if fun.Form? {
        if fun.form.Progn? { r := Progn(n - 1, rest, tail); return; }
        if fun.form.Cond? { r := Cond(n - 1, rest, tail); return; }
        if !rest.Pair? { thrown := Exception(MissingArg(this.fun, running, Num(1))); return Null; }
        return Ret(if fun.form.Quote? then rest.car else Closure(Pair(Sym(LAMBDA), rest), Scope(env, structure)));
      }
      r := EvalArgs(n - 1, rest);
      if !r.Ret? { return; }
      var args := r.v;
      if tail && (fun.Closure? || fun.ApplySubr?) {
        ThrowUnfolds(fun, args, this.fun, St());
        if fun.Closure? {
          thrown := TailCell(fun, args);
        } else if !args.Pair? {
          thrown := Exception(MissingArg(this.fun, ApplySubr, Num(1)));
        } else {
          var spread := ListStar(args.cdr);
          odd := odd || !PlainApply(args);
          thrown := TailCell(args.car, spread);
        }
        return Null;
      }
      r := Apply_(n - 1, fun, args, tail);
    }

    /** eval_list */
    method EvalArgs(n: nat, list: Value) returns (r: Result)
      requires m.tramp && m.named && thrown.Nothing?
      modifies this
      ensures Shows(Run(m, n, Task.EvalList(list, old(Here())), old(St())), r)
      ensures r.Spent? || Here() == old(Here())
      decreases n, 0
    {
      hide Run, Drive;
      ghost var o, scope := Run(m, n, Task.EvalList(list, Here()), St()), Here();
      var done: seq<Value> := [];
      var b, l := n, list;
      while l.Pair?
        invariant 0 <= b <= n && thrown.Nothing? && Here() == scope
        invariant o == Onto(done, Run(m, b, Task.EvalList(l, scope), St()))
        decreases l
      {
        if b == 0 { Exhausted(m, Task.EvalList(l, scope), St()); return Spent; }
        ListUnfolds(m, b, l, scope, St());
        var v := InnerEval(b - 1, l.car, false);
        if !v.Ret? { return v; }
        OntoOne(done, v.v, Run(m, b - 1, Task.EvalList(l.cdr, scope), St()));
        done := done + [v.v];
        b, l := b - 1, l.cdr;
      }
      if b == 0 { Exhausted(m, Task.EvalList(l, scope), St()); return Spent; }
      ListUnfolds(m, b, l, scope, St());
      var last := Nil;
      if !l.Nil? {
        NoEscape(m, b - 1, Task.Eval(l, false, scope), St());
        var v := InnerEval(b - 1, l, false);
        if v.Null? { odd := true; return v; }
        if v.Spent? { return v; }
        last := v.v;
      }
      var result := Build(done, last);
      return Ret(result);
    }

    /** Fprogn */
    method Progn(n: nat, forms: Value, tail: bool) returns (r: Result)
      requires m.tramp && m.named && thrown.Nothing?
      modifies this
      ensures Shows(Run(m, n, PrognFrom(forms, Nil, tail, old(Here())), old(St())), r)
      ensures r.Spent? || Here() == old(Here())
      decreases n, 0
    {
      hide Run, Drive;
      ghost var o, scope := Run(m, n, PrognFrom(forms, Nil, tail, Here()), St()), Here();
      var b, l, last := n, forms, !forms.Pair?;
      var result := Nil;
      while !last
        invariant 0 <= b <= n && thrown.Nothing? && Here() == scope && last == !l.Pair?
        invariant o == Run(m, b, PrognFrom(l, result, tail, scope), St())
        decreases b
      {
        if b == 0 { Exhausted(m, PrognFrom(l, result, tail, scope), St()); return Spent; }
        PrognUnfolds(m, b, l, result, tail, scope, St());
        var form := l.car;
        l := l.cdr;
        last := !l.Pair?;
        r := InnerEval(b - 1, form, if last then tail else false);
        if !r.Ret? || last { return; }
        result := r.v;
        b := b - 1;
      }
      if b == 0 { Exhausted(m, PrognFrom(l, result, tail, scope), St()); return Spent; }
      PrognUnfolds(m, b, l, result, tail, scope, St());
      return Ret(result);
    }

    /** Fcond */
    method Cond(n: nat, clauses: Value, tail: bool) returns (r: Result)
      requires m.tramp && m.named && thrown.Nothing?
      modifies this
      ensures Shows(Run(m, n, CondFrom(clauses, tail, old(Here())), old(St())), r)
      ensures r.Spent? || Here() == old(Here())
      decreases n, 0
    {
      hide Run, Drive;
      ghost var o, scope := Run(m, n, CondFrom(clauses, tail, Here()), St()), Here();
      var b, l := n, clauses;
      while l.Pair? && l.car.Pair?
        invariant 0 <= b <= n && thrown.Nothing? && Here() == scope
        invariant o == Run(m, b, CondFrom(l, tail, scope), St())
        decreases b
      {
        if b == 0 { Exhausted(m, CondFrom(l, tail, scope), St()); return Spent; }
        CondUnfolds(m, b, l, tail, scope, St());
        var forms := l.car.cdr;
        r := InnerEval(b - 1, l.car.car, tail && !forms.Pair? && !l.cdr.Pair?);
        if !r.Ret? { return; }
        if !r.v.Nil? {
          if forms.Pair? { r := Progn(b - 1, forms, tail); }
          return;
        }
        if !forms.Pair? && !l.cdr.Pair? { return; }
        b, l := b - 1, l.cdr;
      }
      if b == 0 { Exhausted(m, CondFrom(l, tail, scope), St()); return Spent; }
      CondUnfolds(m, b, l, tail, scope, St());
      return Ret(Nil);
    }

    /** Pass 2 of binding a lambda list: evaluates the defaults that are needed, in order. */
    method EvalDefaults(n: nat, vars: seq<Var>) returns (r: Result, out: seq<Var>)
      requires m.tramp && m.named && thrown.Nothing?
      modifies this
      ensures var o := Run(m, n, Defaults(vars, old(Here())), old(St()));
        if r.Ret? then thrown.Nothing? && o.Val? && o.st == St() && out == Values(o.v, vars) else Shows(o, r)
      ensures r.Spent? || Here() == old(Here())
      decreases n, 0
    {
      hide Run, Drive, Values;
      ghost var o, scope := Run(m, n, Defaults(vars, Here()), St()), Here();
      ghost var done: seq<Value> := [];
      var i, b := 0, n;
      out := [];
      assert vars[0..] == vars;
      while i < |vars|
        invariant 0 <= i <= |vars| && 0 <= b <= n && thrown.Nothing? && Here() == scope
        invariant o == Onto(done, Run(m, b, Defaults(vars[i..], scope), St()))
        invariant forall v :: Values(Append(done, v), vars) == out + Values(v, vars[i..])
      {
        if b == 0 { Exhausted(m, Defaults(vars[i..], scope), St()); return Spent, out; }
        DefaultsUnfold(m, b, vars[i..], scope, St());
        assert vars[i..][1..] == vars[i + 1..];
        if vars[i].evalp {
          var v := InnerEval(b - 1, vars[i].value, false);
          if !v.Ret? { return v, out; }
          OntoOne(done, v.v, Run(m, b - 1, Defaults(vars[i + 1..], scope), St()));
          ValuesStep(done, vars, out, i, v.v);
          done := done + [v.v];
          out := out + [Var(vars[i].sym, v.v, false)];
        } else {
          ValuesSkip(done, vars, out, i);
          out := out + [vars[i]];
        }
        i, b := i + 1, b - 1;
      }
      if b == 0 { Exhausted(m, Defaults(vars[i..], scope), St()); return Spent, out; }
      DefaultsUnfold(m, b, vars[i..], scope, St());
      NoValues(Nil);
      assert Values(Append(done, Nil), vars) == out + Values(Nil, vars[i..]);
      return Ret(Nil), out;
    }

    /** Pass 3: rep_bind_symbol for each parameter, whether or not an earlier one was refused. */
    method BindVars(vars: seq<Var>) returns (frame: BindingFrame)
      requires thrown.Nothing?
      modifies this`env, this`special, this`thrown
      ensures env == BindEnv(m.rules, vars, old(env)) && special == BindSpecial(m.rules, structure, vars, old(special))
      ensures if AnyRefused(m.rules, structure, vars) then
          thrown == Exception(VoidVariable(FirstRefused(m.rules, structure, vars))) &&
          frame == (if Refused(m.rules, structure, vars[|vars| - 1].sym) then NullFrame else Stray)
        else thrown.Nothing? && frame == Counted(LexicalCount(m.rules, vars), SpecialCount(m.rules, structure, vars))
    {
      frame := Counted(0, 0);
      for i := 0 to |vars|
        invariant env == BindEnv(m.rules, vars[..i], old(env)) &&
          special == BindSpecial(m.rules, structure, vars[..i], old(special))
        invariant if AnyRefused(m.rules, structure, vars[..i]) then
            thrown == Exception(VoidVariable(FirstRefused(m.rules, structure, vars[..i]))) &&
            frame == (if Refused(m.rules, structure, vars[i - 1].sym) then NullFrame else Stray)
          else thrown.Nothing? && frame == Counted(LexicalCount(m.rules, vars[..i]), SpecialCount(m.rules, structure,
            vars[..i]))
      {
        RefusedSoFar(m.rules, structure, vars, i);
        FirstSoFar(m.rules, structure, vars, i);
        assert vars[..i + 1][..i] == vars[..i];
        var s := vars[i].sym;
        if Refused(m.rules, structure, s) {
          if thrown.Nothing? { thrown := Exception(VoidVariable(s)); }
          frame := NullFrame;
        } else if s in m.rules.specials {
          special := Bound(s, vars[i].value, special);
          frame := if frame.Counted? then Counted(frame.lex, frame.spec + 1) else Stray;
        } else {
          env := Bound(s, vars[i].value, env);
          frame := if frame.Counted? then Counted(frame.lex + 1, frame.spec) else Stray;
        }
      }
      assert vars[..|vars|] == vars;
    }

    /** One application of a lambda: binds its parameters, runs its body and unbinds them. */
    method RunBody(n: nat, vars: seq<Var>, body: Value) returns (r: Result)
      requires m.tramp && m.named && thrown.Nothing? && n > 0
      modifies this
      ensures Shows(BodyOutcome(m, n, vars, body, old(Here()), old(St())), r)
      ensures r.Spent? || thrown.Exception? || Here() == old(Here())
      decreases n - 1, 20
    {
      hide Run, Drive, BindEnv, BindSpecial, SpecialCount, LexicalCount, Unbind;
      UnbindLexical(m.rules, vars, env);
      var frame := BindVars(vars);
      if !frame.Counted? {
        // With a stray frame the source runs the body, the exception pending.
        leaks := leaks + SpecialCount(m.rules, structure, vars);
        odd := odd || frame.Stray?;
        return Null;
      }
      r := Progn(n - 1, body, frame.spec == 0);
      env := Unbind(env, frame.lex);
      special := Unbind(special, frame.spec);
    }

    /** rep_apply_lambda, in the closure's scope: a thrown call is run by the next iteration. */
    method RunLambda(n: nat, fun: Value, args: Value, tail: bool) returns (r: Result)
      requires m.tramp && m.named && thrown.Nothing?
      modifies this
      ensures Shows(Run(m, n, ApplyLambda(fun, args, tail, old(Here())), old(St())), r)
      decreases n, 10
    {
      hide Run, Drive, ReadParams, Values, SpecialCount, BindEnv, BindSpecial, Leave, BodyOutcome;
      ghost var o := Run(m, n, ApplyLambda(fun, args, tail, Here()), St());
      var b, lambda, list := n, fun, args;
      while true
        invariant 0 <= b <= n && thrown.Nothing?
        invariant o == Run(m, b, ApplyLambda(lambda, list, tail, Here()), St())
        decreases b
      {
        if b == 0 { Exhausted(m, ApplyLambda(lambda, list, tail, Here()), St()); return Spent; }
        LambdaUnfolds(m, b, lambda, list, tail, Here(), St());
        var lam := Cdr(lambda);
        if !lam.Pair? { odd := true; return Null; }
        var argv := CopyToVector(list);
        var ps := ReadLambdaList(lam.car, argv);
        if ps.Bad? { thrown := Exception(FaultError(ps.fault, Who(this.fun, running))); return Null; }
        var vars;
        r, vars := EvalDefaults(b - 1, ps.vars);
        if !r.Ret? { return; }
        r := RunBody(b, vars, lam.cdr);
        if tail || !r.Null? || !thrown.TailCell? { return; }
        var f, a := thrown.func, thrown.args;
        thrown := Nothing;
        if !LambdaClosure(f) { r := Apply_(b - 1, f, a, false); return; }
        env, structure, running := f.scope.env, f.scope.structure, f;
        lambda, list, b := f.fun, a, b - 1;
      }
    }

    /** rep_apply_: saves the scope, uses the closure's, and restores it. */
    method Apply_(n: nat, fun: Value, args: Value, tail: bool) returns (r: Result)
      requires m.tramp && m.named && thrown.Nothing?
      modifies this
      ensures Shows(Run(m, n, Task.Apply(fun, args, tail), old(St())), r)
      ensures r.Spent? || Here() == old(Here())
      decreases n, 0
    {
      hide Run, Drive, SpreadArgs;
      if n == 0 { Exhausted(m, Task.Apply(fun, args, tail), St()); return Spent; }
      ApplyUnfolds(m, n, fun, args, tail, St());
      var saved := PushCall(fun);
      var f := fun;
      if fun.Closure? {
        env, structure := fun.scope.env, fun.scope.structure;
        f := fun.fun;
      }
      r := Null;
      if f.Pair? {
        if LambdaClosure(fun) {
          r := RunLambda(n - 1, f, args, tail);
        } else {
          thrown := Exception(InvalidFunction(fun));
        }
      } else if f.Subr? {
        match m.prim(f.id, args, store) {
          case Returns(v, store') => store := store'; r := Ret(v);
          case Raises(v, store') => store := store'; thrown := Exception(Raised(v));
        }
      } else if f.ApplySubr? {
        if !args.Pair? {
          thrown := Exception(MissingArg(this.fun, running, Num(1)));
        } else {
          var s := SpreadLast(args);
          if s.NotAList? {
            thrown := Exception(BadArg(s.last));
          } else {
            r := Apply_(n - 1, Car(s.list), Cdr(s.list), false);
          }
        }
      } else {
        thrown := Exception(InvalidFunction(fun));
      }
      if r.Null? && thrown.Nothing? { r := Ret(Void); }
      PopCall(saved);
    }
  }
}
