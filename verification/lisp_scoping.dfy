/** Scoping: which binding a variable refers to, and what each parameter of a lambda is bound to.  The laws are
    about values of variables and outcomes of calls; none mentions how a binding is looked up. */
module LispScoping {
  import opened LispEval
  import opened LispTrampoline
  import opened LispEquivalence
  import opened LispSpecials
  import opened LispUnfold
  import LispOdd

  // ----- Which binding -----

  /** A lexical binding hides those outside it, and no others. */
  lemma InnermostLexical(m: Machine, t: nat, v: Value, at: Place, s: nat, st: State)
    requires t !in m.rules.specials
    ensures var inner := at.(env := Bound(t, v, at.env));
      SymbolValue(m, s, inner, st) == if s == t then v else SymbolValue(m, s, at, st)
  {
  }

  /** A special binding does too, for special symbols, where the structure may use them. */
  lemma InnermostSpecial(m: Machine, t: nat, v: Value, at: Place, s: nat, st: State)
    requires t in m.rules.specials
    ensures var inner := st.(special := Bound(t, v, st.special));
      SymbolValue(m, s, at, inner) ==
      if s == t && !m.rules.refuses(at.structure, t) then v else SymbolValue(m, s, at, st)
  {
  }

  /** Without a binding, a variable has the value its structure gives it, and a special one the value in the
      structure of the special variables, where the current structure may use it. */
  lemma TopLevelValue(m: Machine, s: nat, at: Place, st: State)
    requires at.env.Top? && st.special.Top?
    ensures var home := if s in m.rules.specials then SPECIALS else at.structure;
      SymbolValue(m, s, at, st) ==
      if Refused(m.rules, at.structure, s) || (home, s) !in st.store then Void else st.store[(home, s)]
  {
  }

  /** Parameter `k` is the last one named `s`. */
  ghost predicate IsLast(vars: seq<Var>, s: nat, k: nat)
  {
    k < |vars| && vars[k].sym == s && forall j :: k < j < |vars| ==> vars[j].sym != s
  }

  ghost predicate Among(vars: seq<Var>, s: nat)
  {
    exists k :: 0 <= k < |vars| && vars[k].sym == s
  }

  function Within(m: Machine, vars: seq<Var>, at: Place): Place
  {
    at.(env := BindEnv(m.rules, vars, at.env))
  }

  function Inner(m: Machine, vars: seq<Var>, at: Place, st: State): State
  {
    st.(special := BindSpecial(m.rules, at.structure, vars, st.special))
  }

  /** The value of `s` inside a lambda with these parameters. */
  function InnerValue(m: Machine, vars: seq<Var>, s: nat, at: Place, st: State): Value
  {
    SymbolValue(m, s, Within(m, vars, at), Inner(m, vars, at, st))
  }

  /** Inside a lambda, a variable has the value of the last parameter of its name, lexical or special, ... */
  lemma {:induction false} LastShadows(m: Machine, vars: seq<Var>, s: nat, at: Place, st: State, k: nat)
    requires IsLast(vars, s, k) && !Refused(m.rules, at.structure, s)
    ensures InnerValue(m, vars, s, at, st) == vars[k].value
  {
    hide InnerValue, Refused;
    var n := |vars| - 1;
    var rest, last := vars[..n], vars[n];
    assert vars == rest + [last];
    OneMore(m, rest, last, s, at, st);
    if k < n {
      LastBefore(rest, last, s, k);
      LastShadows(m, rest, s, at, st, k);
    }
  }

  /** ... and every other variable has the value it has outside. */
  lemma {:induction false} OthersStay(m: Machine, vars: seq<Var>, s: nat, at: Place, st: State)
    requires !Among(vars, s) || Refused(m.rules, at.structure, s)
    ensures InnerValue(m, vars, s, at, st) == SymbolValue(m, s, at, st)
  {
    if vars != [] {
      hide InnerValue, SymbolValue, Refused;
      var n := |vars| - 1;
      var rest, last := vars[..n], vars[n];
      assert vars == rest + [last];
      OneMore(m, rest, last, s, at, st);
      if Among(rest, s) {
        var k :| 0 <= k < |rest| && rest[k].sym == s;
        assert vars[k].sym == s;
      }
      OthersStay(m, rest, s, at, st);
    }
  }

  lemma LastBefore(rest: seq<Var>, last: Var, s: nat, k: nat)
    requires IsLast(rest + [last], s, k) && k < |rest|
    ensures IsLast(rest, s, k) && last.sym != s && (rest + [last])[k] == rest[k]
  {
    var vars := rest + [last];
    assert vars[|rest|] == last;
    forall j | k < j < |rest| ensures rest[j].sym != s { assert vars[j] == rest[j]; }
  }

  lemma OneMore(m: Machine, rest: seq<Var>, last: Var, s: nat, at: Place, st: State)
    ensures InnerValue(m, rest + [last], s, at, st) ==
      if s == last.sym && !Refused(m.rules, at.structure, s) then last.value else InnerValue(m, rest, s, at, st)
  {
    hide SymbolValue;
    var vars := rest + [last];
    assert vars[..|vars| - 1] == rest && vars[|vars| - 1] == last;
    if last.sym in m.rules.specials {
      InnermostSpecial(m, last.sym, last.value, Within(m, rest, at), s, Inner(m, rest, at, st));
    } else {
      InnermostLexical(m, last.sym, last.value, Within(m, rest, at), s, Inner(m, rest, at, st));
    }
  }

  // ----- The body of a lambda -----

  /** `(lambda params s)`, made where `scope` says. */
  function Returning(params: Value, s: nat, scope: Scope): Value
  {
    Closure(Pair(Sym(LAMBDA), Pair(params, Pair(Sym(s), Nil))), scope)
  }

  /** Parameters whose defaults, if they need one, are constants. */
  predicate Ready(vars: seq<Var>)
  {
    forall i :: 0 <= i < |vars| && vars[i].evalp ==> !vars[i].value.Sym? && !vars[i].value.Pair?
  }

  function Evaluated(v: Var): Var
  {
    Var(v.sym, v.value, false)
  }

  function AllEvaluated(vars: seq<Var>): (r: seq<Var>)
    ensures |r| == |vars|
  {
    seq(|vars|, i requires 0 <= i < |vars| => Evaluated(vars[i]))
  }

  /** The values of the defaults that are needed. */
  function DefaultList(vars: seq<Var>): Value
  {
    if vars == [] then Nil
    else if vars[0].evalp then Pair(vars[0].value, DefaultList(vars[1..]))
    else DefaultList(vars[1..])
  }

  lemma {:induction false} DefaultsEvaluate(m: Machine, vars: seq<Var>, at: Place, st: State)
    requires Ready(vars)
    ensures Evaluates(m, Defaults(vars, at), st, Val(DefaultList(vars), st))
    ensures Values(DefaultList(vars), vars) == AllEvaluated(vars)
  {
    hide Evaluates, Steps;
    var o := Val(DefaultList(vars), st);
    if vars == [] {
      LispOdd.Immediately(m, Defaults(vars, at), st, o);
    } else {
      var v, rest := vars[0], vars[1..];
      assert AllEvaluated(vars) == [Evaluated(v)] + AllEvaluated(rest);
      DefaultsEvaluate(m, rest, at, st);
      var o1 := Val(DefaultList(rest), st);
      if v.evalp {
        LispOdd.Immediately(m, Eval(v.value, false, at), st, Val(v.value, st));
        DoneSteps(m, o);
        SubSteps(m, Defaults(rest, at), st, KCons(v.value), o1, o);
        SubSteps(m, Eval(v.value, false, at), st, KDefault(rest, at), Val(v.value, st), o);
      } else {
        GotoSteps(m, Defaults(rest, at), st, o);
      }
      EvalSteps(m, Defaults(vars, at), st, o);
    }
  }

  /** The outcome of reading a variable. */
  function Reads(v: Value, s: nat, st: State): Outcome
  {
    if v == Void then Err(VoidVariable(s), st) else Val(v, st)
  }

  /** The place of the body of `f` before its parameters are bound: where `f` was made, not where it is called. */
  function Made(m: Machine, f: Value): Place
    requires f.Closure?
  {
    Inside(f.scope, Calling(m, f))
  }

  /** Calling a lambda whose body is a variable gives the value this variable has where the lambda was made,
      with its parameters bound, and undoes the bindings. */
  lemma BodyReads(m: Machine, params: Value, s: nat, scope: Scope, args: Value, tail: bool, st: State, vars: seq<Var>)
    requires ReadParams(params, ToArgs(args), Required, []) == Vars(vars) && Ready(vars) &&
      !AnyRefused(m.rules, scope.structure, vars)
    ensures var f := Returning(params, s, scope); var at := Made(m, f); var bound := AllEvaluated(vars);
      Evaluates(m, Apply(f, args, tail), st,
        Reads(InnerValue(m, bound, s, at, st), s, st))
  {
    hide Evaluates, Steps, BindEnv, BindSpecial, SpecialCount, SymbolValue, ReadParams, Unbind, Settle;
    var f := Returning(params, s, scope);
    var at, bound := Made(m, f), AllEvaluated(vars);
    var inner, st1 := Within(m, bound, at), Inner(m, bound, at, st);
    var spec := SpecialCount(m.rules, scope.structure, bound);
    var v := SymbolValue(m, s, inner, st1);
    var body, forms := Reads(v, s, st1), Pair(Sym(s), Nil);
    var o := Reads(v, s, st);
    LispOdd.Immediately(m, Eval(Sym(s), spec == 0, inner), st1, body);
    GotoSteps(m, Eval(Sym(s), spec == 0, inner), st1, body);
    EvalSteps(m, PrognFrom(forms, Nil, spec == 0, inner), st1, body);
    LeavesBody(m, bound, scope.structure, v, s, tail, at.who, st);
    DoneSteps(m, o);
    SubSteps(m, PrognFrom(forms, Nil, spec == 0, inner), st1, KBody(spec, tail, at.who), body, o);
    NotRefused(m, vars, scope.structure);
    DefaultsEvaluate(m, vars, at, st);
    SubSteps(m, Defaults(vars, at), st, KBind(vars, forms, tail, at), Val(DefaultList(vars), st), o);
    EvalSteps(m, ApplyLambda(f.fun, args, tail, at), st, o);
    SettlesReads(m, v, s, st);
    SubSteps(m, ApplyLambda(f.fun, args, tail, at), st, KSettle, o, o);
    ApplyClosure(m, f, args, tail, st);
    EvalSteps(m, Apply(f, args, tail), st, o);
  }

  lemma LeavesBody(m: Machine, vars: seq<Var>, structure: nat, v: Value, s: nat, tail: bool, who: Who, st: State)
    ensures var st1 := st.(special := BindSpecial(m.rules, structure, vars, st.special));
      Resume(m, KBody(SpecialCount(m.rules, structure, vars), tail, who), Reads(v, s, st1)) == Done(Reads(v, s, st))
  {
    UnbindSpecial(m.rules, structure, vars, st.special);
  }

  lemma SettlesReads(m: Machine, v: Value, s: nat, st: State)
    ensures Resume(m, KSettle, Reads(v, s, st)) == Done(Reads(v, s, st))
  {
  }

  lemma NotRefused(m: Machine, vars: seq<Var>, structure: nat)
    requires !AnyRefused(m.rules, structure, vars)
    ensures !AnyRefused(m.rules, structure, AllEvaluated(vars))
  {
    forall i | 0 <= i < |vars| ensures !Refused(m.rules, structure, AllEvaluated(vars)[i].sym) {
      assert !Refused(m.rules, structure, vars[i].sym);
    }
  }

  // ----- What the parameters get -----

  /** The symbols `names`, then `rest`. */
  function Names(names: seq<nat>, rest: Value): Value
  {
    if names == [] then rest else Pair(Sym(names[0]), Names(names[1..], rest))
  }

  /** The list of a parameter and the marker before it. */
  function Marked(k: Marker, x: nat): Value
  {
    Pair(Mark(k), Pair(Sym(x), Nil))
  }

  /** `(required... #!optional optional... #!rest rest)` */
  function LambdaList(required: seq<nat>, optional: seq<nat>, rest: nat): Value
  {
    Names(required, Pair(Mark(Optional), Names(optional, Marked(Rest, rest))))
  }

  /** What optional parameter `s` gets as argument number `i`: nil when there are no more arguments. */
  function OptionalVar(s: nat, args: Args, i: nat): Var
  {
    if i < |args| then Var(s, args[i], false) else Var(s, Nil, true)
  }

  function RequiredVars(names: seq<nat>, args: Args): (r: seq<Var>)
    requires |names| <= |args|
    ensures |r| == |names|
  {
    seq(|names|, i requires 0 <= i < |names| => Var(names[i], args[i], false))
  }

  /** The optional parameters, of which the first is argument number `at`. */
  function OptionalVars(names: seq<nat>, args: Args, at: nat): (r: seq<Var>)
    ensures |r| == |names|
  {
    seq(|names|, i requires 0 <= i < |names| => OptionalVar(names[i], args, at + i))
  }

  function Smaller(i: nat, j: nat): nat
  {
    if i < j then i else j
  }

  /** Required parameters first, then optional ones, then what is left over. */
  function Given(required: seq<nat>, optional: seq<nat>, rest: nat, args: Args): seq<Var>
    requires |required| <= |args|
  {
    RequiredVars(required, args) + OptionalVars(optional, args, |required|) +
    [Var(rest, Append(args[Smaller(|required| + |optional|, |args|)..], Nil), false)]
  }

  lemma RequiredParts(names: seq<nat>, args: Args, done: seq<Var>)
    requires names != [] && |names| <= |args|
    ensures args[1..][|names| - 1..] == args[|names|..]
    ensures done + [Var(names[0], args[0], false)] + RequiredVars(names[1..], args[1..]) ==
      done + RequiredVars(names, args)
  {
  }

  lemma OptionalParts(names: seq<nat>, args: Args, left: Args, done: seq<Var>)
    requires names != [] && left == if args == [] then [] else args[1..]
    ensures left[Smaller(|names| - 1, |left|)..] == args[Smaller(|names|, |args|)..]
    ensures done + [OptionalVar(names[0], args, 0)] + OptionalVars(names[1..], left, 0) ==
      done + OptionalVars(names, args, 0)
  {
  }

  lemma OneName(s: nat, rest: Value, args: Args, done: seq<Var>)
    ensures ReadParams(Pair(Sym(s), rest), args, Required, done) ==
      if args == [] then Bad(NoArgument(Sym(s)))
      else ReadParams(rest, args[1..], Required, done + [Var(s, args[0], false)])
    ensures ReadParams(Pair(Sym(s), rest), args, OptionalPhase, done) ==
      ReadParams(rest, if args == [] then [] else args[1..], OptionalPhase, done + [OptionalVar(s, args, 0)])
  {
  }

  lemma {:induction false} RequiredGet(names: seq<nat>, rest: Value, args: Args, done: seq<Var>)
    ensures ReadParams(Names(names, rest), args, Required, done) ==
      if |args| < |names| then Bad(NoArgument(Sym(names[|args|])))
      else ReadParams(rest, args[|names|..], Required, done + RequiredVars(names, args))
  {
    hide ReadParams;
    if names == [] {
      assert args[0..] == args && RequiredVars(names, args) == [] && done + [] == done;
    } else {
      OneName(names[0], Names(names[1..], rest), args, done);
      if args != [] {
        RequiredGet(names[1..], rest, args[1..], done + [Var(names[0], args[0], false)]);
        if |names| <= |args| { RequiredParts(names, args, done); }
      }
    }
  }

  lemma {:induction false} OptionalGet(names: seq<nat>, rest: Value, args: Args, done: seq<Var>)
    ensures ReadParams(Names(names, rest), args, OptionalPhase, done) ==
      ReadParams(rest, args[Smaller(|names|, |args|)..], OptionalPhase, done + OptionalVars(names, args, 0))
  {
    hide ReadParams;
    if names == [] {
      assert args[0..] == args && OptionalVars(names, args, 0) == [] && done + [] == done;
    } else {
      var left := if args == [] then [] else args[1..];
      OneName(names[0], Names(names[1..], rest), args, done);
      OptionalGet(names[1..], rest, left, done + [OptionalVar(names[0], args, 0)]);
      OptionalParts(names, args, left, done);
    }
  }

  lemma {:induction false} NothingTaken(args: Args)
    requires Void !in args
    ensures FromArgs(args) == Append(args, Nil)
  {
    if args != [] { NothingTaken(args[1..]); }
  }

  lemma RestGets(rest: nat, args: Args, done: seq<Var>)
    requires Void !in args
    ensures ReadParams(Marked(Rest, rest), args, OptionalPhase, done) ==
      Vars(done + [Var(rest, Append(args, Nil), false)])
  {
    hide FromArgs, Append;
    NothingTaken(args);
    assert ReadParams(Pair(Sym(rest), Nil), args, RestPhase, done) ==
      ReadParams(Nil, [], DonePhase, done + [Var(rest, FromArgs(args), false)]);
  }

  /** A call gives each required parameter its argument, each optional one its argument or nil, and the last
      parameter the list of the others; with too few arguments the first parameter that gets none is blamed. */
  lemma ParametersGet(required: seq<nat>, optional: seq<nat>, rest: nat, args: Args)
    requires Void !in args
    ensures ReadParams(LambdaList(required, optional, rest), args, Required, []) ==
      if |args| < |required| then Bad(NoArgument(Sym(required[|args|])))
      else Vars(Given(required, optional, rest, args))
  {
    hide ReadParams, Append, RequiredVars, OptionalVars, Names, Marked, Given;
    var last := Marked(Rest, rest);
    RequiredGet(required, Pair(Mark(Optional), Names(optional, last)), args, []);
    if |required| <= |args| {
      var left, first := args[|required|..], RequiredVars(required, args);
      assert [] + first == first;
      ToOptional(Names(optional, last), left, first);
      OptionalGet(optional, last, left, first);
      LeftOver(required, optional, rest, args);
      RestGets(rest, left[Smaller(|optional|, |left|)..], first + OptionalVars(optional, left, 0));
    }
  }

  lemma LeftOver(required: seq<nat>, optional: seq<nat>, rest: nat, args: Args)
    requires |required| <= |args| && Void !in args
    ensures var left := args[|required|..]; var more := left[Smaller(|optional|, |left|)..];
      Void !in more && Given(required, optional, rest, args) ==
      RequiredVars(required, args) + OptionalVars(optional, left, 0) + [Var(rest, Append(more, Nil), false)]
  {
    hide RequiredVars;
    var left := args[|required|..];
    assert OptionalVars(optional, left, 0) == OptionalVars(optional, args, |required|);
    assert left[Smaller(|optional|, |left|)..] == args[Smaller(|required| + |optional|, |args|)..];
  }

  lemma ToOptional(list: Value, args: Args, done: seq<Var>)
    ensures ReadParams(Pair(Mark(Optional), list), args, Required, done) == ReadParams(list, args, OptionalPhase, done)
  {
  }

  /** A lambda list of a marker and one parameter. */
  lemma MarkedParameter(k: Marker, s: nat, args: Args)
    ensures ReadParams(Marked(k, s), args, Required, []) ==
      OneParam(Sym(s), s, Nil, Nil, args, PhaseOf(k), [])
  {
    hide OneParam;
    var list := Pair(Sym(s), Nil);
    assert ReadParams(Pair(Mark(k), list), args, Required, []) == ReadParams(list, args, PhaseOf(k), []);
  }

  lemma {:induction false} KeyFound(before: Args, s: nat, v: Value, after: Args, i: nat)
    requires Keyword(s) !in before && v != Void && i <= |before|
    ensures KeyAt(before + [Keyword(s), v] + after, s, i) == |before|
    decreases |before| - i
  {
    var args := before + [Keyword(s), v] + after;
    assert args[|before|] == Keyword(s) && args[|before| + 1] == v;
    if i < |before| {
      assert args[i] == before[i];
      KeyFound(before, s, v, after, i + 1);
    }
  }

  lemma {:induction false} KeyMissing(args: Args, s: nat, i: nat)
    requires Keyword(s) !in args
    ensures KeyAt(args, s, i) == -1
    decreases |args| - i
  {
    if i + 1 < |args| { KeyMissing(args, s, i + 1); }
  }

  /** A keyword parameter gets the value after the first keyword of its name, wherever that is. */
  lemma KeyGets(s: nat, before: Args, v: Value, after: Args)
    requires Keyword(s) !in before && v != Void
    ensures ReadParams(Marked(Key, s), before + [Keyword(s), v] + after, Required, []) ==
      Vars([Var(s, v, false)])
  {
    hide KeyAt;
    KeyFound(before, s, v, after, 0);
    var args := before + [Keyword(s), v] + after;
    assert args[|before| + 1] == v && [] + [Var(s, v, false)] == [Var(s, v, false)];
    MarkedParameter(Key, s, args);
  }

  lemma KeyGetsNothing(s: nat, args: Args)
    requires Keyword(s) !in args
    ensures ReadParams(Marked(Key, s), args, Required, []) == Vars([Var(s, Nil, true)])
  {
    hide KeyAt;
    KeyMissing(args, s, 0);
    assert [] + [Var(s, Nil, true)] == [Var(s, Nil, true)];
    MarkedParameter(Key, s, args);
  }

  // ----- Calls -----

  /** A lambda whose only parameter is its body. */
  lemma OneParameter(m: Machine, params: Value, x: nat, scope: Scope, args: Value, tail: bool, st: State, got: Var)
    requires ReadParams(params, ToArgs(args), Required, []) == Vars([got]) && Ready([got]) && got.sym == x
    requires !Refused(m.rules, scope.structure, x) && got.value != Void
    ensures Evaluates(m, Apply(Returning(params, x, scope), args, tail), st, Val(got.value, st))
  {
    hide Evaluates, ReadParams, InnerValue, Refused;
    var vars := [got];
    assert !AnyRefused(m.rules, scope.structure, vars);
    BodyReads(m, params, x, scope, args, tail, st, vars);
    var at := Made(m, Returning(params, x, scope));
    assert AllEvaluated(vars) == [Evaluated(got)];
    assert IsLast(AllEvaluated(vars), x, 0);
    LastShadows(m, AllEvaluated(vars), x, at, st, 0);
  }

  /** `(lambda (x) x)` returns its argument, whatever x is bound to where it was made, where it is called and
      among the special variables. */
  lemma ParameterIsArgument(m: Machine, x: nat, scope: Scope, tail: bool, st: State, v: Value)
    requires !Refused(m.rules, scope.structure, x) && v != Void
    ensures Evaluates(m, Apply(Returning(Pair(Sym(x), Nil), x, scope), Pair(v, Nil), tail), st, Val(v, st))
  {
    OneParameter(m, Pair(Sym(x), Nil), x, scope, Pair(v, Nil), tail, st, Var(x, v, false));
  }

  lemma ListOfOne(v: Value)
    ensures ToArgs(Pair(v, Nil)) == [v]
  {
    assert ToArgs(Nil) == [];
  }

  lemma OptionalGets(x: nat, v: Value)
    ensures ReadParams(Marked(Optional, x), ToArgs(Pair(v, Nil)), Required, []) == Vars([Var(x, v, false)])
    ensures ReadParams(Marked(Optional, x), ToArgs(Nil), Required, []) == Vars([Var(x, Nil, true)])
  {
    ListOfOne(v);
    MarkedParameter(Optional, x, [v]);
    MarkedParameter(Optional, x, []);
    assert [] + [Var(x, v, false)] == [Var(x, v, false)] && [] + [Var(x, Nil, true)] == [Var(x, Nil, true)];
  }

  /** `(lambda (#!optional x) x)` returns its argument, or nil without one. */
  lemma OptionalIsArgument(m: Machine, x: nat, scope: Scope, tail: bool, st: State, v: Value)
    requires !Refused(m.rules, scope.structure, x) && v != Void
    ensures var f := Returning(Marked(Optional, x), x, scope);
      Evaluates(m, Apply(f, Pair(v, Nil), tail), st, Val(v, st)) && Evaluates(m, Apply(f, Nil, tail), st, Val(Nil, st))
  {
    hide ReadParams, Evaluates, Refused;
    OptionalGets(x, v);
    OneParameter(m, Marked(Optional, x), x, scope, Pair(v, Nil), tail, st, Var(x, v, false));
    OneParameter(m, Marked(Optional, x), x, scope, Nil, tail, st, Var(x, Nil, true));
  }

  /** `(lambda (#!rest x) x)` returns the list of its arguments. */
  lemma RestIsArguments(m: Machine, x: nat, scope: Scope, tail: bool, st: State, args: Args)
    requires !Refused(m.rules, scope.structure, x) && Void !in args
    ensures Evaluates(m, Apply(Returning(Marked(Rest, x), x, scope), Append(args, Nil), tail), st,
      Val(Append(args, Nil), st))
  {
    hide ReadParams, Evaluates, Refused, OneParam, Append;
    var list := Append(args, Nil);
    ArgsOf(args);
    MarkedParameter(Rest, x, args);
    RestParameter(x, args);
    OneParameter(m, Marked(Rest, x), x, scope, list, tail, st, Var(x, list, false));
  }

  lemma {:induction false} ArgsOf(args: Args)
    ensures ToArgs(Append(args, Nil)) == args && Append(args, Nil) != Void
  {
    if args != [] { ArgsOf(args[1..]); }
  }

  lemma RestParameter(x: nat, args: Args)
    requires Void !in args
    ensures OneParam(Sym(x), x, Nil, Nil, args, PhaseOf(Rest), []) == Vars([Var(x, Append(args, Nil), false)])
  {
    hide Append, FromArgs;
    NothingTaken(args);
    assert [] + [Var(x, Append(args, Nil), false)] == [Var(x, Append(args, Nil), false)];
  }

  /** `(lambda (#!key x) x)` returns the value after the keyword, or nil. */
  lemma KeyIsArgument(m: Machine, x: nat, scope: Scope, tail: bool, st: State, v: Value)
    requires !Refused(m.rules, scope.structure, x) && v != Void
    ensures var f := Returning(Marked(Key, x), x, scope);
      Evaluates(m, Apply(f, Pair(Keyword(x), Pair(v, Nil)), tail), st, Val(v, st)) &&
      Evaluates(m, Apply(f, Nil, tail), st, Val(Nil, st))
  {
    hide ReadParams, Evaluates, Refused, KeyAt;
    KeyGets(x, [], v, []);
    ListOfOne(v);
    assert ToArgs(Pair(Keyword(x), Pair(v, Nil))) == [Keyword(x)] + [v] == [] + [Keyword(x), v] + [];
    OneParameter(m, Marked(Key, x), x, scope, Pair(Keyword(x), Pair(v, Nil)), tail, st, Var(x, v, false));
    KeyGetsNothing(x, []);
    OneParameter(m, Marked(Key, x), x, scope, Nil, tail, st, Var(x, Nil, true));
  }

  /** The whole of it: the call of `(lambda (required... #!optional optional... #!rest rest) s)` returns what the last
      parameter named s was given, and if there is none, the value s has where the lambda was made. */
  lemma CallReads(m: Machine, required: seq<nat>, optional: seq<nat>, rest: nat, s: nat, scope: Scope, args: Args,
                  tail: bool, st: State, k: nat)
    requires Void !in args && |required| <= |args| && !Refused(m.rules, scope.structure, s)
    requires var vars := Given(required, optional, rest, args);
      !AnyRefused(m.rules, scope.structure, vars) && (IsLast(vars, s, k) || !Among(vars, s))
    ensures var f := Returning(LambdaList(required, optional, rest), s, scope);
      var vars := Given(required, optional, rest, args);
      Evaluates(m, Apply(f, Append(args, Nil), tail), st,
        Reads(if Among(vars, s) then vars[k].value else SymbolValue(m, s, Made(m, f), st), s, st))
  {
    hide Evaluates, ReadParams, SymbolValue, InnerValue, Refused, Given, LambdaList, Append, IsLast, Among;
    var vars := Given(required, optional, rest, args);
    var list := LambdaList(required, optional, rest);
    var at := Made(m, Returning(list, s, scope));
    ArgsOf(args);
    ParametersGet(required, optional, rest, args);
    GivenReady(required, optional, rest, args);
    BodyReads(m, list, s, scope, Append(args, Nil), tail, st, vars);
    SameNames(vars, s, k);
    if IsLast(vars, s, k) {
      LastShadows(m, AllEvaluated(vars), s, at, st, k);
    } else {
      OthersStay(m, AllEvaluated(vars), s, at, st);
    }
  }

  lemma GivenReady(required: seq<nat>, optional: seq<nat>, rest: nat, args: Args)
    requires |required| <= |args|
    ensures Ready(Given(required, optional, rest, args))
  {
    hide Append;
  }

  lemma SameNames(vars: seq<Var>, s: nat, k: nat)
    ensures Among(AllEvaluated(vars), s) <==> Among(vars, s)
    ensures IsLast(vars, s, k) ==>
      IsLast(AllEvaluated(vars), s, k) && AllEvaluated(vars)[k].value == vars[k].value && Among(vars, s)
  {
    var e := AllEvaluated(vars);
    assert forall j :: 0 <= j < |vars| ==> e[j] == Evaluated(vars[j]) && e[j].sym == vars[j].sym;
    if Among(e, s) { var j :| 0 <= j < |e| && e[j].sym == s; assert vars[j].sym == s; }
    if Among(vars, s) { var j :| 0 <= j < |vars| && vars[j].sym == s; assert e[j].sym == s; }
  }
}
