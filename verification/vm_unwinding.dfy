/** What the bind stack guarantees: environments are restored when frames are undone, exceptions find
    their handler's environments and depth, and no eliminated tail call drops a binding or handler. */
module VmUnwinding {
  import opened VmState

  // ----- What is on the bind stack -----

  function LexAbove(binds: seq<Item>, h: nat): nat
  {
    if |binds| <= h then 0 else LexAbove(Butlast(binds), h) + Lex(Last(binds))
  }

  function SpecAbove(binds: seq<Item>, h: nat): nat
  {
    if |binds| <= h then 0 else SpecAbove(Butlast(binds), h) + Spec(Last(binds))
  }

  function Handlers(binds: seq<Item>): nat
  {
    if binds == [] then 0 else Handlers(Butlast(binds)) + if Last(binds).Handler? then 1 else 0
  }

  /** The environments there will be once the items from `h` up are undone. */
  function EnvAt(v: Vm, h: nat): Env { Drop(v.env, LexAbove(v.binds, h)) }
  function SpecialAt(v: Vm, h: nat): Env { Drop(v.special, SpecAbove(v.binds, h)) }

  /** The frame a lexical binding is about to be counted in is not full. */
  predicate Roomy(v: Vm)
  {
    v.pc < |v.code| && v.code[v.pc].Bind? && FrameOnTop(v) ==> Lex(Last(v.binds)) + 1 < LEX_LIMIT
  }

  lemma {:induction false} DropDrop(env: Env, a: nat, b: nat)
    ensures Drop(Drop(env, a), b) == Drop(env, a + b)
  {
    if a > 0 && env.Link? { DropDrop(env.rest, a - 1, b); }
  }

  /** One more mark is one more binding of its kind. */
  lemma Marks(item: Item)
    requires item.Frame?
    ensures Spec(Frame(item.marks + LEX_LIMIT)) == Spec(item) + 1 && Lex(Frame(item.marks + LEX_LIMIT)) == Lex(item)
    ensures Lex(item) + 1 < LEX_LIMIT ==>
      Lex(Frame(item.marks + 1)) == Lex(item) + 1 && Spec(Frame(item.marks + 1)) == Spec(item)
    ensures Lex(item) + 1 == LEX_LIMIT ==>
      Lex(Frame(item.marks + 1)) == 0 && Spec(Frame(item.marks + 1)) == Spec(item) + 1
  {
    var q, r := item.marks / LEX_LIMIT, item.marks % LEX_LIMIT;
    assert item.marks == q * LEX_LIMIT + r;
  }

  lemma Pushed(binds: seq<Item>, item: Item, h: nat)
    requires h <= |binds|
    ensures LexAbove(binds + [item], h) == LexAbove(binds, h) + Lex(item)
    ensures SpecAbove(binds + [item], h) == SpecAbove(binds, h) + Spec(item)
    ensures Handlers(binds + [item]) == Handlers(binds) + if item.Handler? then 1 else 0
  {
    assert Butlast(binds + [item]) == binds;
  }

  /** Undoing what is above `h` is the same before and after, and what is below it is untouched. */
  predicate Keeps(v: Vm, w: Vm, h: nat)
  {
    h <= |w.binds| && h <= |v.binds| ==>
      EnvAt(w, h) == EnvAt(v, h) && SpecialAt(w, h) == SpecialAt(v, h) && w.binds[..h] == v.binds[..h] &&
      (h < |w.binds| && h < |v.binds| && v.binds[h].Handler? ==> w.binds[h] == v.binds[h])
  }

  // ----- Undoing frames -----

  lemma {:induction false} UnbindKeeps(v: Vm, n: nat, h: nat)
    requires h <= n <= |v.binds|
    ensures var r := UnbindTo(v, n); r == v.(binds := v.binds[..n], env := r.env, special := r.special)
    ensures EnvAt(UnbindTo(v, n), h) == EnvAt(v, h) && SpecialAt(UnbindTo(v, n), h) == SpecialAt(v, h)
    decreases |v.binds|
  {
    if |v.binds| > n {
      var item := Last(v.binds);
      var w := Unbind(v, item).(binds := Butlast(v.binds));
      PoppedAt(v, w, h);
      UnbindKeeps(w, n, h);
      assert w.binds[..n] == v.binds[..n];
    } else {
      assert v.binds[..n] == v.binds;
    }
  }

  /** Undoing the newest item leaves what is below as it would have been. */
  lemma PoppedAt(v: Vm, w: Vm, h: nat)
    requires h < |v.binds| && w.binds == Butlast(v.binds)
    requires w.env == Drop(v.env, Lex(Last(v.binds))) && w.special == Drop(v.special, Spec(Last(v.binds)))
    ensures EnvAt(w, h) == EnvAt(v, h) && SpecialAt(w, h) == SpecialAt(v, h)
  {
    DropDrop(v.env, Lex(Last(v.binds)), LexAbove(w.binds, h));
    DropDrop(v.special, Spec(Last(v.binds)), SpecAbove(w.binds, h));
  }

  lemma AtTop(v: Vm, h: nat)
    requires h >= |v.binds|
    ensures EnvAt(v, h) == v.env && SpecialAt(v, h) == v.special
  {
  }

  /** An exception either leaves the function, all frames undone, or arrives at a handler with the
      environments that were there when everything above the handler is undone, the operand stack cut
      to the handler's depth and the exception on top of it. */
  lemma {:induction false} UnwindMeans(v: Vm, h: nat)
    ensures match Unwind(v)
      case Finished(w, value) => value.None? && w.env == EnvAt(v, 0) && w.special == SpecialAt(v, 0)
      case Next(w) =>
        var i := |w.binds|;
        i < |v.binds| && w.binds == v.binds[..i] && v.binds[i].Handler? && v.thrown.Some? &&
          v.binds[i].depth + 1 < |v.stack| &&
        w.env == EnvAt(v, i) && w.special == SpecialAt(v, i) &&
        w.pc == v.binds[i].pc && w.sp == v.binds[i].depth + 1 && w.thrown == None &&
        w.stack == v.stack[w.sp := v.thrown.value] && w.code == v.code && (h <= i ==> Keeps(v, w, h))
      case Raise(_) => false
      case Broken => true
    decreases |v.binds|
  {
    hide LexAbove, SpecAbove, Drop, Lex, Spec;
    if v.binds == [] {
      AtTop(v, 0);
    } else {
      var item := Last(v.binds);
      var w := v.(binds := Butlast(v.binds));
      if item.Frame? {
        var u := Unbind(w, item).(impurity := v.impurity - Spec(item));
        UnwindMeans(u, h);
        UnwindOne(v, u, h);
      } else {
        if item.Null? { return; }
        assert Lex(item) == 0 && Spec(item) == 0 by { HandlerMarks(item); }
        assert Drop(v.env, 0) == v.env && Drop(v.special, 0) == v.special by { DropNone(v.env); DropNone(v.special); }
        if v.thrown.None? {
          var u := w.(impurity := v.impurity - 1);
          UnwindMeans(u, h);
          UnwindOne(v, u, h);
        } else if item.depth + 1 < |v.stack| {
          var r := Unwind(v).v;
          AtHandler(v, r, h);
        }
      }
    }
  }

  lemma HandlerMarks(item: Item)
    requires item.Handler?
    ensures Lex(item) == 0 && Spec(item) == 0
  {
  }

  lemma DropNone(env: Env)
    ensures Drop(env, 0) == env
  {
  }

  lemma AtHandler(v: Vm, w: Vm, h: nat)
    requires v.binds != [] && Last(v.binds).Handler? && w.binds == Butlast(v.binds) && w.env == v.env &&
      w.special == v.special
    ensures w.env == EnvAt(v, |w.binds|) && w.special == SpecialAt(v, |w.binds|)
    ensures h <= |w.binds| ==> Keeps(v, w, h)
  {
    HandlerMarks(Last(v.binds));
    DropNone(v.env);
    DropNone(v.special);
    AtTop(w, |w.binds|);
    PoppedAt(v, w, |w.binds|);
    if h <= |w.binds| { PoppedAt(v, w, h); }
  }

  /** What unwinding `u` gives is right for `v`, of which `u` is the rest. */
  lemma UnwindOne(v: Vm, u: Vm, h: nat)
    requires v.binds != [] && u.binds == Butlast(v.binds) && Unwind(v) == Unwind(u)
    requires u.env == Drop(v.env, Lex(Last(v.binds))) && u.special == Drop(v.special, Spec(Last(v.binds)))
    ensures EnvAt(u, 0) == EnvAt(v, 0) && SpecialAt(u, 0) == SpecialAt(v, 0)
    ensures Unwind(v).Next? && |Unwind(v).v.binds| < |u.binds| ==>
      var w := Unwind(v).v; var i := |w.binds|;
      EnvAt(u, i) == EnvAt(v, i) && SpecialAt(u, i) == SpecialAt(v, i) && u.binds[..i] == v.binds[..i] &&
        u.binds[i] == v.binds[i] &&
      (h <= i && Keeps(u, w, h) ==> Keeps(v, w, h))
  {
    hide LexAbove, SpecAbove, Drop, Lex, Spec, Unwind;
    PoppedAt(v, u, 0);
    if Unwind(v).Next? && |Unwind(v).v.binds| < |u.binds| {
      var i := |Unwind(v).v.binds|;
      PoppedAt(v, u, i);
      if h <= i { PoppedAt(v, u, h); assert u.binds[..h] == v.binds[..h]; }
    }
  }

  // ----- Single instructions -----

  /** A binding is counted in the newest frame, which undoing it takes into account. */
  lemma BindKeeps(v: Vm, w: Vm, item: Item, h: nat)
    requires FrameOnTop(v) && h < |v.binds| && item.Frame? && w.binds == Butlast(v.binds) + [item]
    requires Drop(w.env, Lex(item)) == Drop(v.env, Lex(Last(v.binds))) &&
      Drop(w.special, Spec(item)) == Drop(v.special, Spec(Last(v.binds)))
    ensures Keeps(v, w, h)
  {
    hide Drop, Lex, Spec;
    var below := Butlast(v.binds);
    assert Butlast(w.binds) == below;
    DropDrop(v.env, Lex(Last(v.binds)), LexAbove(below, h));
    DropDrop(w.env, Lex(Last(w.binds)), LexAbove(below, h));
    DropDrop(v.special, Spec(Last(v.binds)), SpecAbove(below, h));
    DropDrop(w.special, Spec(Last(w.binds)), SpecAbove(below, h));
  }

  lemma LexicalKeeps(v: Vm, w: Vm, h: nat)
    requires FrameOnTop(v) && h < |v.binds| && Lex(Last(v.binds)) + 1 < LEX_LIMIT
    requires w.binds == Butlast(v.binds) + [Frame(Last(v.binds).marks + 1)] && w.env.Link? && w.env.rest == v.env &&
      w.special == v.special
    ensures Keeps(v, w, h)
  {
    hide Keeps, Lex, Spec;
    Marks(Last(v.binds));
    BindKeeps(v, w, Last(w.binds), h);
  }

  lemma SpecialKeeps(v: Vm, w: Vm, h: nat)
    requires FrameOnTop(v) && h < |v.binds|
    requires w.binds == Butlast(v.binds) + [Frame(Last(v.binds).marks + LEX_LIMIT)] && w.special.Link? &&
      w.special.rest == v.special && w.env == v.env
    ensures Keeps(v, w, h)
  {
    hide Keeps, Lex, Spec;
    Marks(Last(v.binds));
    BindKeeps(v, w, Last(w.binds), h);
  }

  lemma PushKeeps(v: Vm, w: Vm, item: Item, h: nat)
    requires h <= |v.binds| && w.binds == v.binds + [item]
    requires Drop(w.env, Lex(item)) == v.env && Drop(w.special, Spec(item)) == v.special
    ensures Keeps(v, w, h)
  {
    hide Drop, Lex, Spec;
    assert Butlast(w.binds) == v.binds;
    Pushed(v.binds, item, h);
    DropDrop(w.env, Lex(item), LexAbove(v.binds, h));
    DropDrop(w.special, Spec(item), SpecAbove(v.binds, h));
    assert w.binds[..h] == v.binds[..h];
  }

  lemma SameKeeps(v: Vm, w: Vm, h: nat)
    requires w.binds == v.binds && w.env == v.env && w.special == v.special
    ensures Keeps(v, w, h)
  {
  }

  lemma UnboundKeeps(v: Vm, w: Vm, n: nat, h: nat)
    requires n <= |v.binds| && w.binds == UnbindTo(v, n).binds && w.env == UnbindTo(v, n).env &&
      w.special == UnbindTo(v, n).special
    ensures Keeps(v, w, h)
  {
    hide LexAbove, SpecAbove, Drop, Lex, Spec, UnbindTo;
    if h <= n {
      UnbindKeeps(v, n, h);
      assert w.binds == v.binds[..n] && w.binds[..h] == v.binds[..h];
    } else {
      UnbindKeeps(v, n, 0);
    }
  }

  /** The instruction about to be run is a special binding that the structure may not make. */
  predicate Refuses(m: Machine, v: Vm)
  {
    v.pc < |v.code| && v.code[v.pc].SpecBind? && 2 <= v.sp < |v.stack| && FrameOnTop(v) &&
      m.refuses(v.structure, v.stack[v.sp])
  }

  /** Instructions that do not touch the bind stack, or that bind, push or pop on it. */
  lemma ExecKeeps(m: Machine, v: Vm, h: nat)
    requires Roomy(v) && (h == 0 || h < |v.binds|) && !TailCalls(m, v) && !Refuses(m, v)
    requires Exec(m, v).Next? || Exec(m, v).Raise?
    ensures Keeps(v, Exec(m, v).v, h)
  {
    hide Keeps, Drop, Lex, Spec, UnbindTo, TailCalls, Jump;
    var w := Exec(m, v).v;
    match v.code[v.pc]
    case Bind => LexicalKeeps(v, w, h);
    case SpecBind => SpecialKeeps(v, w, h);
    case FluidBind => SpecialKeeps(v, w, h);
    case PushFrame => NoMarks(); DropNone(v.env); DropNone(v.special); PushKeeps(v, w, Frame(0), h);
    case PopFrame => PopKeeps(v, w, h);
    case PopFrames => UnboundKeeps(v.(pc := v.pc + 1), w, 1, h); KeepsPc(v, w, h);
    case ResetFrames => UnboundKeeps(v.(pc := v.pc + 1), w, 0, h); KeepsPc(v, w, h);
    case BindErr =>
      HandlerMarks(Last(w.binds));
      DropNone(v.env);
      DropNone(v.special);
      PushKeeps(v, w, Handler(v.stack[v.sp].n, v.sp - 1), h);
    case ErrorPro => if w.binds == v.binds { SameKeeps(v, w,
      h); } else { NoMarks(); DropNone(v.special); DropOne(w.env); PushKeeps(v, w, Frame(1), h); }
    case _ => SameKeeps(v, w, h);
  }

  lemma DropOne(env: Env)
    requires env.Link?
    ensures Drop(env, 1) == env.rest
  {
  }

  lemma KeepsPc(v: Vm, w: Vm, h: nat)
    requires Keeps(v.(pc := v.pc + 1), w, h)
    ensures Keeps(v, w, h)
  {
  }

  lemma PopKeeps(v: Vm, w: Vm, h: nat)
    requires v.binds != [] && w.binds == Butlast(v.binds)
    requires w.env == Unbind(v, Last(v.binds)).env && w.special == Unbind(v, Last(v.binds)).special
    ensures Keeps(v, w, h)
  {
    if h < |v.binds| { PoppedAt(v, w, h); assert w.binds[..h] == v.binds[..h]; }
  }

  lemma KeepsBoth(u: Vm, v: Vm, w: Vm, h: nat)
    requires Keeps(u, v, h) && Keeps(v, w, h) && h <= |v.binds|
    requires h < |u.binds| && h < |w.binds| ==> h < |v.binds|
    ensures Keeps(u, w, h)
  {
    hide LexAbove, SpecAbove, Drop;
  }

  // ----- Impurity -----

  /** Every special binding and every handler on the bind stack is counted. */
  predicate Impure(v: Vm)
  {
    SpecAbove(v.binds, 0) + Handlers(v.binds) <= v.impurity
  }

  predicate ExactlyImpure(v: Vm)
  {
    SpecAbove(v.binds, 0) + Handlers(v.binds) == v.impurity
  }

  /** The one instruction that lets impurity drift: popping a handler as if it were a frame. */
  predicate PopsHandler(v: Vm)
  {
    v.pc < |v.code| && v.code[v.pc].PopFrame? && v.binds != [] && Last(v.binds).Handler?
  }

  lemma {:induction false} UnwindImpure(v: Vm)
    requires Unwind(v).Next?
    ensures Impure(v) ==> Impure(Unwind(v).v)
    ensures ExactlyImpure(v) ==> ExactlyImpure(Unwind(v).v)
    decreases |v.binds|
  {
    hide Lex, Spec, Drop;
    var item := Last(v.binds);
    var w := v.(binds := Butlast(v.binds));
    if item.Frame? {
      UnwindImpure(Unbind(w, item).(impurity := v.impurity - Spec(item)));
    } else {
      HandlerMarks(item);
      if v.thrown.None? { UnwindImpure(w.(impurity := v.impurity - 1)); }
    }
  }

  lemma OneFrame(binds: seq<Item>)
    requires |binds| == 1 && binds[0].Frame?
    ensures SpecAbove(binds, 0) == Spec(binds[0]) && Handlers(binds) == 0
  {
    assert Butlast(binds) == [];
  }

  lemma Rebound(binds: seq<Item>, item: Item)
    requires binds != [] && Last(binds).Frame? && item.Frame?
    ensures SpecAbove(Butlast(binds) + [item], 0) == SpecAbove(binds, 0) - Spec(Last(binds)) + Spec(item)
    ensures Handlers(Butlast(binds) + [item]) == Handlers(binds)
  {
    Pushed(Butlast(binds), item, 0);
  }

  lemma ExecImpure(m: Machine, v: Vm)
    requires Roomy(v) && !Refuses(m, v) && (Exec(m, v).Next? || Exec(m, v).Raise?)
    ensures Impure(v) ==> Impure(Exec(m, v).v)
    ensures ExactlyImpure(v) && !PopsHandler(v) ==> ExactlyImpure(Exec(m, v).v)
  {
    hide Lex, Spec, Drop, UnbindTo, TailCalls, SpecAbove, Handlers, PlainOp, ThrowOp, CallOp;
    var w := Exec(m, v).v;
    match v.code[v.pc]
    case Bind => Marks(Last(v.binds)); Rebound(v.binds, Last(w.binds));
    case SpecBind => Marks(Last(v.binds)); Rebound(v.binds, Last(w.binds));
    case FluidBind => Marks(Last(v.binds)); Rebound(v.binds, Last(w.binds));
    case PushFrame => Pushed(v.binds, Frame(0), 0); NoMarks();
    case PopFrame => Popped(v.binds);
    case PopFrames => UnbindKeeps(v.(pc := v.pc + 1), 1, 0); OneFrame(w.binds);
    case ResetFrames => UnbindKeeps(v.(pc := v.pc + 1), 0, 0); NoItems();
    case BindErr => Pushed(v.binds, Last(w.binds), 0); HandlerMarks(Last(w.binds));
    case ErrorPro => if w.binds != v.binds { Pushed(v.binds, Frame(1), 0); NoMarks(); }
    case _ => OtherBinds(m, v);
  }

  /** The other instructions leave the bind stack alone, or start a new one. */
  lemma OtherBinds(m: Machine, v: Vm)
    requires v.pc < |v.code| && (Exec(m, v).Next? || Exec(m, v).Raise?)
    requires var op := v.code[v.pc]; op.Plain? || op.Catch? || op.EJmp? || op.Throw? || op.Call? || op.Return?
    ensures var w := Exec(m, v).v;
      (w.binds == v.binds && w.impurity == v.impurity) || (SpecAbove(w.binds, 0) + Handlers(w.binds) == w.impurity)
  {
    hide TailCalls, Fresh;
    if v.code[v.pc].Call? && TailCalls(m, v) {
      NoMarks();
      OneFrame(Exec(m, v).v.binds);
    }
  }

  lemma NoMarks()
    ensures Spec(Frame(0)) == 0 && Lex(Frame(0)) == 0 && Spec(Frame(1)) == 0 && Lex(Frame(1)) == 1
  {
  }

  lemma NoItems()
    ensures SpecAbove([], 0) == 0 && Handlers([]) == 0
  {
  }

  lemma Popped(binds: seq<Item>)
    requires binds != []
    ensures SpecAbove(binds, 0) == SpecAbove(Butlast(binds), 0) + Spec(Last(binds))
    ensures Handlers(binds) == Handlers(Butlast(binds)) + if Last(binds).Handler? then 1 else 0
    ensures Last(binds).Handler? ==> Spec(Last(binds)) == 0
  {
  }

  /** A call is eliminated only when there is no special binding and no handler to undo: the special
      environment is the one the function was entered with. */
  lemma TailCallIsClean(m: Machine, v: Vm)
    requires TailCalls(m, v) && Impure(v)
    ensures SpecAbove(v.binds, 0) == 0 && Handlers(v.binds) == 0 && SpecialAt(v, 0) == v.special
    ensures forall i :: 0 <= i < |v.binds| ==> !v.binds[i].Handler?
    ensures Exec(m, v).Next? ==> Exec(m, v).v.special == v.special && SpecialAt(Exec(m, v).v, 0) == v.special
  {
    hide Lex, Spec, LexAbove;
    NoHandlers(v.binds);
    if Exec(m, v).Next? { NoMarks(); OneFrame(Exec(m, v).v.binds); }
  }

  lemma {:induction false} NoHandlers(binds: seq<Item>)
    requires Handlers(binds) == 0
    ensures forall i :: 0 <= i < |binds| ==> !binds[i].Handler?
  {
    if binds != [] {
      NoHandlers(Butlast(binds));
      forall i | 0 <= i < |binds| ensures !binds[i].Handler? {
        if i < |binds| - 1 { assert binds[i] == Butlast(binds)[i]; }
      }
    }
  }
}
