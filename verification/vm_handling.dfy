/** What bindings hold and what handlers get: laws across the instructions that make and use them. */
module VmHandling {
  import opened VmState
  import opened VmUnwinding

  /** A binding instruction makes one new cell and links it before the others: BIND the value it pops; the binding of
      a special variable pops the symbol first, and that of a fluid the value first. */
  lemma BindingHolds(m: Machine, v: Vm)
    requires v.pc < |v.code| && v.sp < |v.stack| && Exec(m, v).Next?
    requires var op := v.code[v.pc]; op.Bind? || op.SpecBind? || op.FluidBind?
    ensures var op, w := v.code[v.pc], Exec(m, v).v;
      && |w.cells| == |v.cells| + 1 && w.cells[..|v.cells|] == v.cells && w.stack == v.stack
      && (if op.Bind? then
            w.env.Link? && w.env.rest == v.env && w.special == v.special && w.sp == v.sp - 1 &&
            w.env.cell < |w.cells| && w.cells[w.env.cell] == v.stack[v.sp]
          else
            w.special.Link? && w.special.rest == v.special && w.env == v.env && w.sp == v.sp - 2 &&
            w.special.cell < |w.cells| && w.cells[w.special.cell] == var x, y := v.stack[v.sp], v.stack[v.sp - 1];
              if op.SpecBind? then Pair(x, y) else Pair(y, x))
  {
  }

  predicate TopIs(v: Vm, value: Value)
  {
    v.sp < |v.stack| && v.stack[v.sp] == value
  }

  /** The exception for `value` thrown to `tag`, which are on top of the stack. */
  predicate Throws(v: Vm, tag: Value, value: Value)
  {
    v.pc < |v.code| && v.code[v.pc].Throw? && v.thrown.None? && TopIs(v, value) && 2 <= v.sp && v.stack[v.sp - 1] == tag
  }

  /** The code of a handler that catches `tag`: the tag is on top of what was thrown, and CATCH and EJMP follow. */
  predicate Catching(v: Vm, w: Vm, tag: Value, target: nat)
  {
    && w.sp == v.sp + 1 && w.sp < |v.stack| && w.stack == v.stack[w.sp := tag] && w.thrown.None? && w.code == v.code
    && w.pc + 1 < |w.code| && w.code[w.pc].Catch? && w.code[w.pc + 1] == EJmp(target)
  }

  /** Two instructions. */
  function Twice(m: Machine, v: Vm): Result
  {
    var r := Exec(m, v);
    if r.Next? then Exec(m, r.v) else r
  }

  /** A throw that arrives at a handler which catches `tag` goes on at the handler's target with the value thrown on
      top of the stack if its tag is `tag`, and is thrown on as it was if it is another. */
  lemma CatchGetsThrow(m: Machine, v: Vm, w: Vm, u: Vm, thrown: Value, value: Value, tag: Value, target: nat)
    requires Throws(v, thrown, value) && Step(m, v) == Next(w) && Catching(w, u, tag, target)
    ensures TopIs(w, Pair(thrown, value))
    ensures match Twice(m, u)
      case Next(x) => thrown == tag && x.pc == target && x.sp == w.sp && TopIs(x, value)
      case Raise(x) => thrown != tag && x.thrown == Some(Pair(thrown, value)) && x.sp == w.sp - 1
      case _ => false
  {
    hide Unwind, Catching, Twice;
    var r := Exec(m, v);
    assert r.Raise? && r.v.thrown == Some(Pair(thrown, value));
    UnwindMeans(r.v, 0);
    Caught(m, w, u, thrown, value, tag, target);
  }

  lemma Caught(m: Machine, w: Vm, u: Vm, thrown: Value, value: Value, tag: Value, target: nat)
    requires 0 < w.sp && TopIs(w, Pair(thrown, value)) && Catching(w, u, tag, target)
    ensures match Twice(m, u)
      case Next(x) => thrown == tag && x.pc == target && x.sp == w.sp && TopIs(x, value)
      case Raise(x) => thrown != tag && x.thrown == Some(Pair(thrown, value)) && x.sp == w.sp - 1
      case _ => false
  {
    assert TopIs(u, tag) && u.stack[u.sp - 1] == Pair(thrown, value);
    var x := Exec(m, u).v;
    assert TopIs(x, if thrown == tag then Nil else Pair(thrown, value));
  }

  /** An error handler that accepts an error has its data in a new lexical binding, in a frame of its own, and nil in
      its place; otherwise the error is still there. */
  lemma ErrorGetsData(m: Machine, v: Vm)
    requires v.pc < |v.code| && v.code[v.pc].ErrorPro? && 2 <= v.sp < |v.stack| && Exec(m, v).Next?
    ensures var w, thrown := Exec(m, v).v, v.stack[v.sp - 1];
      && w.sp == v.sp - 1 && w.special == v.special && w.impurity == v.impurity
      && (if thrown.Pair? && thrown.car == ERROR && m.accepts(thrown.cdr, v.stack[v.sp]) then
            w.env.Link? && w.env.rest == v.env && w.env.cell < |w.cells| && w.cells[w.env.cell] == thrown.cdr &&
            w.stack[w.sp] == Nil && |w.binds| == |v.binds| + 1 && Lex(Last(w.binds)) == 1 && Spec(Last(w.binds)) == 0
          else w.env == v.env && w.stack[w.sp] == thrown && w.binds == v.binds)
  {
    NoMarks();
  }
}
