/** The two-pass compiler.  The same methods run twice: first with code generation turned off,
    counting bytes, then for real, patching links and moving operands in a byte array. */
module RegexpCompiler {
  import opened RegexpCode
  import opened RegexpSyntax
  import opened RegexpLayout
  import opened RegexpChains

  /** What the compiling routines return: a pointer to the first node, or NULL with a message. */
  datatype Reply = Ptr(at: nat) | Null(error: Error)

  datatype Flags = Flags(width: bool, simple: bool, spstart: bool)

  const WORST := Flags(false, false, false)

  /** Code that is visible in this pass. */
  function Shown(sizing: bool, image: seq<Byte>): (r: seq<Byte>)
    ensures |r| == if sizing then 0 else |image|
  {
    if sizing then [] else image
  }

  class Compiler {
    const exp: seq<Byte>
    var parse: nat         // regparse
    var npar: nat          // regnpar
    var sizing: bool       // regcode == &regdummy
    var size: nat          // regsize
    var code: array<Byte>
    var emit: nat          // regcode

    constructor (pattern: seq<Byte>)
      requires NoNul(pattern)
      ensures exp == pattern && parse == 0 && npar == 1 && sizing && size == 0 && Valid() && fresh(code)
    {
      exp := pattern;
      parse, npar, sizing, size, emit := 0, 1, true, 0, 0;
      code := new Byte[0];
    }

    ghost predicate Valid()
      reads `sizing, `emit, `code, `parse, `npar
    {
      emit <= code.Length && parse <= |exp| && NoNul(exp) && 1 <= npar && (!sizing ==> code.Length < TOO_BIG)
    }

    /** Everything emitted so far. */
    ghost function Out(): (r: seq<Byte>)
      requires emit <= code.Length
      reads `sizing, `emit, `code, code
      ensures |r| == if sizing then 0 else emit
    {
      if sizing then [] else code[..emit]
    }

    /** Bytes counted or emitted so far. */
    ghost function Used(): nat
      reads `sizing, `size, `emit
    {
      if sizing then size else emit
    }

    ghost predicate Fits(n: int)
      reads `sizing, `size, `emit, `code
    {
      sizing || Used() + n <= code.Length
    }

    method RegC(b: Byte)
      requires Valid() && Fits(1)
      modifies this`emit, this`size, code
      ensures Valid() && Used() == old(Used()) + 1
      ensures Out() == old(Out()) + Shown(sizing, [b])
    {
      if !sizing {
        code[emit] := b;
        emit := emit + 1;
      } else {
        size := size + 1;
      }
    }

    method RegNode(op: Byte) returns (ret: nat)
      requires Valid() && Fits(3)
      modifies this`emit, this`size, code
      ensures Valid() && Used() == old(Used()) + 3
      ensures Out() == old(Out()) + Shown(sizing, Node(op, 0))
      ensures ret == old(emit)
    {
      ret := emit;
      if sizing {
        size := size + 3;
        return;
      }
      code[emit], code[emit + 1], code[emit + 2] := op, 0, 0;
      emit := emit + 3;
    }

    /** Moves everything from `opnd` on up by one node. */
    method Relocate(opnd: nat)
      requires Valid() && !sizing && opnd <= emit && emit + 3 <= code.Length
      modifies `emit, code
      ensures Valid() && emit == old(emit) + 3
      ensures forall j :: 0 <= j < opnd ==> code[j] == old(code[j])
      ensures forall j :: opnd + 3 <= j < emit ==> code[j] == old(code[j - 3])
    {
      var src := emit;
      emit := emit + 3;
      var dst := emit;
      while src > opnd
        invariant opnd <= src && dst == src + 3 && dst <= emit == old(emit) + 3 <= code.Length
        invariant forall j :: 0 <= j < src ==> code[j] == old(code[j])
        invariant forall j :: dst <= j < emit ==> code[j] == old(code[j - 3])
      {
        dst, src := dst - 1, src - 1;
        code[dst] := code[src];
      }
    }

    method RegInsert(op: Byte, opnd: nat)
      requires Valid() && Fits(3)
      requires !sizing ==> opnd <= emit
      modifies this`emit, this`size, code
      ensures Valid() && Used() == old(Used()) + 3
      ensures !sizing ==> Out() == old(Out())[..opnd] + Node(op, 0) + old(Out())[opnd..]
    {
      if sizing {
        size := size + 3;
        return;
      }
      ghost var was := Out();
      Relocate(opnd);
      code[opnd], code[opnd + 1], code[opnd + 2] := op, 0, 0;
      assert Out() == was[..opnd] + Node(op, 0) + was[opnd..];
    }

    /** -1 stands for NULL, which is also what follows the dummy of the sizing pass. */
    function RegNext(p: nat): int
      requires emit <= code.Length && (!sizing ==> p + 3 <= emit)
      reads `sizing, `emit, `code, code
      ensures !sizing ==> RegNext(p) == if Link(Out(), p) == 0 then -1
                                        else if Op(Out(), p) == BACK then p - Link(Out(), p)
                                        else p + Link(Out(), p)
    {
      if sizing then -1 else
      var offset := code[p + 1] as int * 256 + code[p + 2] as int;
      if offset == 0 then -1 else if code[p] == BACK then p - offset else p + offset
    }

    /** `m` is the node the chain from `p` ends at, `want` the code with that node linked. */
    method RegTail(p: nat, val: nat, ghost m: nat, ghost want: seq<Byte>)
      requires Valid()
      requires !sizing ==> Ties(Out(), p, m, val, want)
      modifies code
      ensures Valid()
      ensures !sizing ==> Out() == want
    {
      if sizing {
        return;
      }
      ghost var was := Out();
      ReachForward(was, p, m, false);
      var scan := p;
      var temp := RegNext(scan);
      while temp >= 0
        invariant Out() == was && scan <= m && Reach(was, scan, m, false) && temp == RegNext(scan)
        decreases m - scan
      {
        assert scan != m;
        ReachForward(was, temp, m, false);
        scan := temp;
        temp := RegNext(scan);
      }
      var offset := if code[scan] == BACK then scan - val else val - scan;
      code[scan + 1] := offset / 256 % 256;
      code[scan + 2] := offset % 256;
      assert Out() == SetLink(was, m, offset);
    }

    method RegOpTail(p: nat, val: nat, ghost m: nat, ghost want: seq<Byte>)
      requires Valid()
      requires !sizing ==> p + 3 <= emit
      requires !sizing ==> if Op(Out(), p) == BRANCH then Ties(Out(), p + 3, m, val, want) else Out() == want
      modifies code
      ensures Valid()
      ensures !sizing ==> Out() == want
    {
      if sizing || code[p] != BRANCH {
        return;
      }
      RegTail(p + 3, val, m, want);
    }

    // ----- The repetition operators -----

    /** The end shared by x* and x?: a second BRANCH and the NOTHING both lead to. */
    method EmitOrNull(ret: nat, ghost pre: seq<Byte>, ghost body: seq<Byte>) returns (nothing: nat)
      requires Valid() && Fits(6) && (!sizing ==> |body| < 65000)
      requires !sizing ==> ret == |pre| && Out() == pre + Node(BRANCH, 0) + body
      modifies this`emit, this`size, code
      ensures Valid() && Used() == old(Used()) + 6 && (!sizing ==> nothing == old(emit) + 3)
      ensures !sizing ==> Out() == pre + Node(BRANCH, 3 + |body|) + body + Node(BRANCH, 3) + Node(NOTHING, 0)
    {
      hide Ties, Node;
      ghost var head := pre + Node(BRANCH, 3 + |body|);
      var or := RegNode(BRANCH);
      if !sizing { FirstLink(pre, body, Node(BRANCH, 0), 3 + |body|); }
      RegTail(ret, or, ret, head + body + Node(BRANCH, 0));       // or
      nothing := RegNode(NOTHING);              // null
      if !sizing { LastLink(pre, body); }
      RegTail(ret, nothing, or, head + body + Node(BRANCH, 3) + Node(NOTHING, 0));
    }

    /** The operand of an inserted BRANCH is followed by a BACK node that leads to that BRANCH. */
    method EmitBack(ret: nat, ghost a: Atom, ghost pre: seq<Byte>)
      requires Valid() && Fits(3) && (!sizing ==> AtomSize(a) < CODE_LIMIT)
      requires !sizing ==> ret == |pre| && Out() == pre + Node(BRANCH, 0) + AtomImage(a, Open)
      modifies this`emit, this`size, code
      ensures Valid() && Used() == old(Used()) + 3
      ensures !sizing ==> Out() == pre + Node(BRANCH, 0) + AtomImage(a, To(0)) + Node(BACK, 3 + AtomSize(a))
    {
      hide Ties, Op, AtomImage, AtomSize, AtomTail, Node;
      ghost var B0, img := Node(BRANCH, 0), AtomImage(a, To(0));
      var back := RegNode(BACK);
      if !sizing { LoopOperand(pre, 0, a, Node(BACK, 0), 0); }
      RegOpTail(ret, back, ret + 3 + AtomTail(a), pre + B0 + img + Node(BACK, 0));
      if !sizing { LoopBack(pre, a); }
      RegOpTail(ret, ret, back, pre + B0 + img + Node(BACK, 3 + AtomSize(a)));
    }

    /** x* for a group: (x&|), where & means "self". */
    method EmitStar(ret: nat, ghost a: Atom, ghost pre: seq<Byte>)
      requires Valid() && Fits(12) && (!sizing ==> AtomSize(a) < CODE_LIMIT) && !Simple(a)
      requires !sizing ==> ret == |pre| && Out() == pre + AtomImage(a, Open)
      modifies this`emit, this`size, code
      ensures Valid() && Used() == old(Used()) + 12
      ensures !sizing ==> Out() == pre + PieceImage(Piece(a, Star), Open)
    {
      hide Ties, Op, AtomImage, AtomSize, AtomTail, Node, PieceImage;
      ghost var B0, img, back := Node(BRANCH, 0), AtomImage(a, To(0)), Node(BACK, 3 + AtomSize(a));
      RegInsert(BRANCH, ret);                   // either x
      if !sizing { Inserted(pre, B0, AtomImage(a, Open)); }
      EmitBack(ret, a, pre);                    // and loop back
      if !sizing { Regroup(pre + B0, img, back, []); }
      var _ := EmitOrNull(ret, pre, img + back);     // or null
      if !sizing { StarDone(pre, a); }
    }

    /** The operand is followed by a BRANCH and by a BACK node that leads to the operand. */
    method EmitAgain(ret: nat, ghost a: Atom, ghost pre: seq<Byte>) returns (next: nat)
      requires Valid() && Fits(6) && (!sizing ==> AtomSize(a) < CODE_LIMIT)
      requires !sizing ==> ret == |pre| && Out() == pre + AtomImage(a, Open)
      modifies this`emit, this`size, code
      ensures Valid() && Used() == old(Used()) + 6
      ensures !sizing ==> next == |pre| + AtomSize(a)
      ensures !sizing ==> Out() == pre + AtomImage(a, To(0)) + Node(BRANCH, 0) + Node(BACK, 3 + AtomSize(a))
    {
      hide Ties, Op, AtomImage, AtomSize, AtomTail, Node;
      ghost var B0, img := Node(BRANCH, 0), AtomImage(a, To(0));
      next := RegNode(BRANCH);
      if !sizing { TieAtom(pre, a, B0); }
      RegTail(ret, next, ret + AtomTail(a), pre + img + B0);
      var back := RegNode(BACK);
      if !sizing { TieBack(pre + img + B0, ret); }
      RegTail(back, ret, back, pre + img + B0 + Node(BACK, 3 + AtomSize(a)));
    }

    /** x+ for a group: x(&|). */
    method EmitPlus(ret: nat, ghost a: Atom, ghost pre: seq<Byte>)
      requires Valid() && Fits(12) && (!sizing ==> AtomSize(a) < CODE_LIMIT) && !Simple(a)
      requires !sizing ==> ret == |pre| && Out() == pre + AtomImage(a, Open)
      modifies this`emit, this`size, code
      ensures Valid() && Used() == old(Used()) + 12
      ensures !sizing ==> Out() == pre + PieceImage(Piece(a, Plus), Open)
    {
      hide Ties, Op, AtomImage, AtomSize, AtomTail, Node, PieceImage;
      ghost var B0, img, back, n := Node(BRANCH, 0), AtomImage(a, To(0)), Node(BACK, 3 + AtomSize(a)), AtomSize(a);
      var next := EmitAgain(ret, a, pre);       // either loop back
      var or := RegNode(BRANCH);
      if !sizing { FirstLink(pre + img, back, B0, 6); }
      RegTail(next, or, next, pre + img + Node(BRANCH, 6) + back + B0);              // or
      var nothing := RegNode(NOTHING);
      if !sizing { PlusEnd(pre, a); }
      RegTail(ret, nothing, or, pre + img + Node(BRANCH, 6) + back + Node(BRANCH, 3) + Node(NOTHING, 0));  // null
      if !sizing { PlusDone(pre, a); }
    }

    /** x?: (x|). */
    method EmitOpt(ret: nat, ghost a: Atom, ghost pre: seq<Byte>)
      requires Valid() && Fits(9) && (!sizing ==> AtomSize(a) < CODE_LIMIT)
      requires !sizing ==> ret == |pre| && Out() == pre + AtomImage(a, Open)
      modifies this`emit, this`size, code
      ensures Valid() && Used() == old(Used()) + 9
      ensures !sizing ==> Out() == pre + PieceImage(Piece(a, Opt), Open)
    {
      hide Ties, Op, AtomImage, PieceImage, AtomSize, AtomTail, Node;
      ghost var img := AtomImage(a, Open);
      RegInsert(BRANCH, ret);                   // either x
      if !sizing { Inserted(pre, Node(BRANCH, 0), img); }
      var nothing := EmitOrNull(ret, pre, img); // or null
      if !sizing { OptOperand(pre, a); }
      RegOpTail(ret, nothing, ret + 3 + AtomTail(a),
                pre + Node(BRANCH, 3 + AtomSize(a)) + AtomImage(a, To(3)) + Node(BRANCH, 3) + Node(NOTHING, 0));
      if !sizing { OptDone(pre, a); }
    }

    /** The one-character loops: an operator in front of its operand. */
    method EmitSimple(q: Quant, ret: nat, ghost a: Atom, ghost pre: seq<Byte>)
      requires Valid() && Fits(3) && Simple(a) && !q.One? && !q.Opt?
      requires !sizing ==> ret == |pre| && Out() == pre + AtomImage(a, Open)
      modifies this`emit, this`size, code
      ensures Valid() && Used() == old(Used()) + 3
      ensures !sizing ==> Out() == pre + PieceImage(Piece(a, q), Open)
    {
      hide AtomImage, AtomSize, Node;
      RegInsert(RepeatOp(q), ret);
      if !sizing { Inserted(pre, Node(RepeatOp(q), 0), AtomImage(a, Open)); SimpleDone(pre, a, q); }
    }

    // ----- Atoms -----

    /** The bytes of one range inside a bracket expression. */
    method RegRange(first: nat, classend: Byte)
      requires Valid() && first <= 256
      requires Fits(|ByteRange(first, classend)|)
      modifies this`emit, this`size, code
      ensures Valid()
      ensures Used() == old(Used()) + |ByteRange(first, classend)|
      ensures Out() == old(Out()) + Shown(sizing, ByteRange(first, classend))
    {
      var class_ := first;
      ghost var done: seq<Byte> := [];
      ghost var out, used := Out(), Used();
      while class_ <= classend
        invariant first <= class_ && Valid() && class_ <= 256
        invariant ByteRange(first, classend) == done + ByteRange(class_, classend)
        invariant Used() == used + |done| && Out() == out + Shown(sizing, done)
        decreases classend + 1 - class_
      {
        RegC(class_);
        done := done + [class_];
        class_ := class_ + 1;
      }
    }

    /** One member or range of a bracket expression. */
    method RegMember() returns (failed: bool)
      requires Valid() && 0 < parse < |exp| && exp[parse] != ']' as int
      requires Fits(|MembersStep(exp, parse)|)
      modifies `parse, `emit, `size, code
      ensures Valid()
      ensures failed <==> MembersNext(exp, old(parse)) == 0
      ensures !failed ==> parse == MembersNext(exp, old(parse))
      ensures !failed ==> Used() == old(Used()) + |MembersStep(exp, old(parse))|
      ensures !failed ==> Out() == old(Out()) + Shown(sizing, MembersStep(exp, old(parse)))
    {
      hide Shown, ByteRange, Out, Used;
      if exp[parse] == '-' as int {
        parse := parse + 1;
        if Peek(exp, parse) == ']' as int || Peek(exp, parse) == 0 {
          RegC('-' as int);
        } else {
          var class_ := exp[parse - 2] as int + 1;
          var classend := exp[parse];
          if class_ > classend as int + 1 {
            return true;
          }
          RegRange(class_, classend);
          parse := parse + 1;
        }
      } else {
        RegC(exp[parse]);
        parse := parse + 1;
      }
      failed := false;
    }

    /** Members up to the closing bracket. */
    method RegMembers() returns (failed: bool)
      requires Valid() && 0 < parse
      requires !sizing ==> ParseMembers(exp, parse).Ok? && Fits(|ParseMembers(exp, parse).value|)
      modifies `parse, `emit, `size, code
      ensures Valid()
      ensures failed <==> ParseMembers(exp, old(parse)).Err?
      ensures !failed ==>
        var m := ParseMembers(exp, old(parse));
        parse == m.pos && Used() == old(Used()) + |m.value| && Out() == old(Out()) + Shown(sizing, m.value)
    {
      hide Shown, Out, Used, MembersStep, MembersNext;
      ghost var all := ParseMembers(exp, parse);
      ghost var out, used := Out(), Used();
      ghost var done: seq<Byte> := [];
      PrependNil(all);
      ShownNone(out, sizing);
      while Peek(exp, parse) != 0 && Peek(exp, parse) != ']' as int
        invariant Valid() && 0 < parse
        invariant all == Prepend(done, ParseMembers(exp, parse))
        invariant !sizing ==> all.Ok? && Fits(|ParseMembers(exp, parse).value|)
        invariant Used() == used + |done| && Out() == out + Shown(sizing, done)
        decreases |exp| - parse
      {
        MembersUnfold(exp, parse);
        ghost var more := MembersStep(exp, parse);
        failed := RegMember();
        if failed {
          return;
        }
        PrependTwice(done, more, ParseMembers(exp, parse));
        ShownMore(out, done, more, sizing);
        done := done + more;
      }
      assert done + [] == done;
      failed := false;
    }

    /** The node of a bracket expression and a leading `]` or `-`, which is literal there. */
    method RegClassHead() returns (p: nat)
      requires Valid() && Fits(3 + |ClassFirst(exp, parse)|)
      modifies `parse, `emit, `size, code
      ensures Valid()
      ensures parse == ClassStart(exp, old(parse)) && (!sizing ==> p == old(emit))
      ensures Used() == old(Used()) + 3 + |ClassFirst(exp, old(parse))|
      ensures Out() == old(Out()) + Shown(sizing, Node(ClassOp(exp, old(parse)), 0) + ClassFirst(exp, old(parse)))
    {
      hide Shown, Out, Used, Node;
      ghost var i, out := parse, Out();
      p := RegNode(if Peek(exp, parse) == '^' as int then ANYBUT else ANYOF);
      if Peek(exp, parse) == '^' as int {
        parse := parse + 1;
      }
      if Peek(exp, parse) == ']' as int || Peek(exp, parse) == '-' as int {
        RegC(exp[parse]);
        parse := parse + 1;
      }
      ShownMore(out, Node(ClassOp(exp, i), 0), ClassFirst(exp, i), sizing);
      ShownNone(out + Shown(sizing, Node(ClassOp(exp, i), 0)), sizing);
    }

    /** A bracket expression, its opening bracket already absorbed. */
    method RegClass() returns (ret: Reply)
      requires Valid() && 0 < parse
      requires !sizing ==> ParseClass(exp, parse, npar).Ok? && Fits(AtomSize(ParseClass(exp, parse, npar).value))
      modifies `parse, `emit, `size, code
      ensures Valid()
      ensures var r := ParseClass(exp, old(parse), npar);
        if r.Err? then ret == Null(r.error)
        else ret.Ptr? && (!sizing ==> ret.at == old(emit)) && parse == r.pos
             && Used() == old(Used()) + AtomSize(r.value) &&
               Out() == old(Out()) + Shown(sizing, AtomImage(r.value, Open))
    {
      hide AtomImage, AtomSize, Node, Shown, ParseMembers, ParseClass, Out, Used;
      ghost var i, all := parse, ParseClass(exp, parse, npar);
      ghost var out := Out();
      ClassUnfold(exp, parse, npar);
      var p := RegClassHead();
      ghost var first, rest := ClassFirst(exp, i), ParseMembers(exp, parse);
      var failed := RegMembers();
      if failed {
        return Null(InvalidRange);
      }
      RegC(0);
      if Peek(exp, parse) != ']' as int {
        return Null(UnmatchedBracket);
      }
      parse := parse + 1;
      ShownMore(out, Node(ClassOp(exp, i), 0) + first, rest.value, sizing);
      ShownMore(out, Node(ClassOp(exp, i), 0) + first + rest.value, [0], sizing);
      ret := Ptr(p);
    }

    /** The image of size `n` was appended to `out` and `ret` points at it. */
    ghost predicate Grew(ret: Reply, used: nat, out: seq<Byte>, n: nat, image: seq<Byte>)
      requires emit <= code.Length
      reads `sizing, `size, `emit, `code, code
    {
      && ret.Ptr? && (!sizing ==> ret.at == |out|)
      && Used() == used + n && Out() == out + Shown(sizing, image)
    }

    /** Copies the next `count` pattern bytes to the code. */
    method RegText(count: nat)
      requires Valid() && parse + count <= |exp| && Fits(count)
      modifies `parse, `emit, `size, code
      ensures Valid() && parse == old(parse) + count
      ensures Used() == old(Used()) + count
      ensures Out() == old(Out()) + Shown(sizing, exp[old(parse)..parse])
    {
      hide Shown, Out, Used;
      ghost var start, out, used := parse, Out(), Used();
      var len := count;
      ShownNone(out, sizing);
      assert exp[start..start] == [];
      while len > 0
        invariant Valid() && parse + len == start + count <= |exp| && 0 <= len <= count
        invariant Fits(len) && Used() == used + count - len
        invariant Out() == out + Shown(sizing, exp[start..parse])
      {
        ShownMore(out, exp[start..parse], [exp[parse]], sizing);
        assert exp[start..parse] + [exp[parse]] == exp[start..parse + 1];
        RegC(exp[parse]);
        parse, len := parse + 1, len - 1;
      }
    }

    /** A run of ordinary characters. */
    method RegLiteral() returns (ret: nat)
      requires Valid() && parse < |exp| && !IsMeta(exp[parse])
      requires Fits(AtomSize(Literal(exp[parse..parse + LiteralLength(exp, parse)])))
      modifies `parse, `emit, `size, code
      ensures Valid() && parse == old(parse) + LiteralLength(exp, old(parse))
      ensures var a := Literal(exp[old(parse)..parse]);
              Grew(Ptr(ret), old(Used()), old(Out()), AtomSize(a), AtomImage(a, Open))
    {
      hide Shown, Used, Node, AtomImage, AtomSize, Out;
      ghost var start, out := parse, Out();
      var len := LiteralRun(exp, parse);
      var ender := Peek(exp, parse + len);
      if len > 1 && IsMult(ender) {
        len := len - 1;         // back off clear of the operator
      }
      assert len == LiteralLength(exp, start);
      LiteralDone(out, exp[start..start + len], sizing);
      ret := RegNode(EXACTLY);
      RegText(len);
      RegC(0);
    }

    /** A node without operand. */
    method RegLeaf(a: Atom) returns (ret: Reply)
      requires Valid() && Fits(3) && Leaf(a)
      modifies `emit, `size, code
      ensures Valid() && Grew(ret, old(Used()), old(Out()), AtomSize(a), AtomImage(a, Open))
    {
      hide Shown, Used, Out;
      LeafImage(a);
      var p := RegNode(AtomOp(a));
      ret := Ptr(p);
    }

    /** A backslash escape, the backslash already absorbed. */
    method RegEscape() returns (ret: Reply)
      requires Valid() && 0 < parse && parse - 1 < |exp| && exp[parse - 1] == '\\' as int
      requires ParseAtom(exp, parse - 1, npar) != Err(OutsideFragment)
      requires !sizing ==> var r := ParseAtom(exp, parse - 1, npar); r.Ok? && Fits(AtomSize(r.value))
      modifies `parse, `emit, `size, code
      ensures Valid()
      ensures var r := ParseAtom(exp, old(parse) - 1, npar);
        if r.Err? then ret == Null(r.error)
        else
          parse == r.pos && npar == r.npar &&
          Grew(ret, old(Used()), old(Out()), AtomSize(r.value), AtomImage(r.value, Open))
    {
      hide Shown, Used, Out, Node, LiteralRun;
      ghost var out := Out();
      var e := Peek(exp, parse);
      if e == 0 {
        return Null(TrailingBackslash);
      }
      parse := parse + 1;
      if e == 119 {               // w
        ret := RegLeaf(Kind(Word, false));
      } else if e == 87 {         // W
        ret := RegLeaf(Kind(Word, true));
      } else if e == 115 {        // s
        ret := RegLeaf(Kind(Space, false));
      } else if e == 83 {         // S
        ret := RegLeaf(Kind(Space, true));
      } else if e == 100 {        // d
        ret := RegLeaf(Kind(Digit, false));
      } else if e == 68 {         // D
        ret := RegLeaf(Kind(Digit, true));
      } else {
        LiteralDone(out, [e], sizing);
        var p := RegNode(EXACTLY);
        RegC(e);
        RegC(0);
        ret := Ptr(p);
      }
    }

    method RegAtom() returns (ret: Reply, flags: Flags)
      requires Valid() && parse < |exp| && !EndsBranch(exp[parse])
      requires ParseAtom(exp, parse, npar) != Err(OutsideFragment)
      requires !sizing ==> var r := ParseAtom(exp, parse, npar); r.Ok? && Fits(AtomSize(r.value))
      modifies `parse, `npar, `emit, `size, code
      ensures Valid()
      ensures var r := ParseAtom(exp, old(parse), old(npar));
        if r.Err? then ret == Null(r.error)
        else parse == r.pos && npar == r.npar && flags == AtomFlags(r.value)
             && Grew(ret, old(Used()), old(Out()), AtomSize(r.value), AtomImage(r.value, Open))
      decreases |exp| - parse, 0
    {
      hide Shown, Used, Out, Node, LiteralLength, AtomImage, AtomSize, ParseAtom, ParseReg, ParseClass, ParseEscape,
           RegImage, RegSize;
      AtomCases(exp, parse, npar);
      var c := exp[parse];
      parse := parse + 1;
      flags := WORST;
      if c == '^' as int {
        ret := RegLeaf(Bol);
      } else if c == '$' as int {
        ret := RegLeaf(Eol);
      } else if c == '.' as int {
        ret := RegLeaf(Any);
        flags := Flags(true, true, false);
      } else if c == '[' as int {
        ret := RegClass();
        flags := Flags(true, true, false);
      } else if c == '(' as int {
        ghost var r := ParseReg(exp, parse, npar, true);
        if r.Ok? { GroupAsAtom(npar, r.value); }
        ret, flags := Reg(true);
        flags := Flags(flags.width, false, flags.spstart);
      } else if IsMult(c) {
        return Null(NothingToRepeat), flags;
      } else if c == '\\' as int {
        ret := RegEscape();
        flags := Flags(true, true, false);
      } else {
        parse := parse - 1;
        var start := parse;
        var p := RegLiteral();
        flags := Flags(true, parse == start + 1, false);
        ret := Ptr(p);
      }
    }

    method RegPiece() returns (ret: Reply, flags: Flags)
      requires Valid() && parse < |exp| && !EndsBranch(exp[parse])
      requires ParsePiece(exp, parse, npar) != Err(OutsideFragment)
      requires !sizing ==> var r := ParsePiece(exp, parse, npar); r.Ok? && Fits(PieceSize(r.value))
      modifies `parse, `npar, `emit, `size, code
      ensures Valid()
      ensures var r := ParsePiece(exp, old(parse), old(npar));
        if r.Err? then ret == Null(r.error)
        else parse == r.pos && npar == r.npar
             && flags.width == PieceWidth(r.value) && flags.spstart == PieceSpStart(r.value)
             && Grew(ret, old(Used()), old(Out()), PieceSize(r.value), PieceImage(r.value, Open))
      decreases |exp| - parse, 1
    {
      hide ParseAtom, AtomImage, PieceImage, AtomSize;
      ghost var out, r := Out(), ParseAtom(exp, parse, npar);
      ret, flags := RegAtom();
      if ret.Null? {
        return;
      }
      var op := Peek(exp, parse);
      if !IsMult(op) {
        PieceOne(Piece(r.value, One), Open);
        return;
      }
      if !flags.width && op != '?' as int {
        return Null(EmptyOperand), flags;
      }
      var simple := flags.simple;
      flags := Flags(op == '+' as int, false, op != '+' as int);
      var greedy := Peek(exp, parse + 1) != '?' as int;
      RegRepeat(op, simple, greedy, ret.at, r.value, out);
      parse := parse + if greedy then 1 else 2;
      if IsMult(Peek(exp, parse)) {
        return Null(NestedOperator), flags;
      }
    }

    /** The code of one repetition operator. */
    method RegRepeat(op: Byte, simple: bool, greedy: bool, ret: nat, ghost a: Atom, ghost pre: seq<Byte>)
      requires Valid() && IsMult(op) && simple == Simple(a)
      requires greedy || (op != '?' as int && simple)
      requires Fits(PieceSize(Piece(a, QuantOf(op, greedy))) - AtomSize(a)) && (!sizing ==> AtomSize(a) < CODE_LIMIT)
      requires !sizing ==> ret == |pre|
      requires Out() == pre + Shown(sizing, AtomImage(a, Open))
      modifies `emit, `size, code
      ensures Valid()
      ensures Used() == old(Used()) + PieceSize(Piece(a, QuantOf(op, greedy))) - AtomSize(a)
      ensures Out() == pre + Shown(sizing, PieceImage(Piece(a, QuantOf(op, greedy)), Open))
    {
      hide AtomImage, PieceImage, AtomSize;
      if op == '*' as int && simple {
        EmitSimple(if greedy then Star else LazyStar, ret, a, pre);
      } else if op == '*' as int {
        EmitStar(ret, a, pre);
      } else if op == '+' as int && simple {
        EmitSimple(if greedy then Plus else LazyPlus, ret, a, pre);
      } else if op == '+' as int {
        EmitPlus(ret, a, pre);
      } else {
        EmitOpt(ret, a, pre);
      }
    }

    /** One more piece of a concatenation whose last piece so far is `last`. */
    method RegNextPiece(chain: int, flags: Flags, ghost pre: seq<Byte>, ghost last: Piece)
      returns (latest: Reply, flags': Flags)
      requires Valid() && parse < |exp| && !EndsBranch(exp[parse])
      requires ParsePiece(exp, parse, npar) != Err(OutsideFragment)
      requires !sizing ==> var r := ParsePiece(exp, parse, npar); r.Ok? && Fits(PieceSize(r.value))
      requires chain >= 0 ==> Out() == pre + Shown(sizing, PieceImage(last, Open)) && WfPiece(last)
      requires chain >= 0 && !sizing ==> chain == |pre| && PieceSize(last) < CODE_LIMIT
      requires chain < 0 ==> Out() == pre
      modifies `parse, `npar, `emit, `size, code
      ensures Valid()
      ensures var r := ParsePiece(exp, old(parse), old(npar));
        if r.Err? then latest == Null(r.error)
        else parse == r.pos && npar == r.npar && latest.Ptr? && Used() == old(Used()) + PieceSize(r.value)
             && flags'.width == (flags.width || PieceWidth(r.value))
             && flags'.spstart == (if chain < 0 then PieceSpStart(r.value) else flags.spstart)
             && (!sizing ==> latest.at == |old(Out())|)
             && Out() == (if chain < 0 then pre else pre + Shown(sizing, PieceImage(last, To(0))))
                         + Shown(sizing, PieceImage(r.value, Open))
      decreases |exp| - parse, 2
    {
      hide ParsePiece, PieceImage, PieceSize, Ties;
      ghost var r := ParsePiece(exp, parse, npar);
      var f;
      latest, f := RegPiece();
      flags' := Flags(flags.width || f.width, false, flags.spstart);
      if latest.Null? {
        return;
      }
      if chain < 0 {            // first piece
        flags' := Flags(flags'.width, false, f.spstart);
      } else {
        if !sizing { TiePiece(pre, last, PieceImage(r.value, Open)); }
        RegTail(if sizing then 0 else chain, latest.at, |pre| + PieceTail(last),
                pre + PieceImage(last, To(0)) + PieceImage(r.value, Open));
      }
    }

    method RegBranch() returns (ret: Reply, flags: Flags)
      requires Valid()
      requires ParsePieces(exp, parse, npar) != Err(OutsideFragment)
      requires !sizing ==> var r := ParsePieces(exp, parse, npar); r.Ok? && Fits(3 + PiecesSize(r.value))
      modifies `parse, `npar, `emit, `size, code
      ensures Valid()
      ensures var r := ParsePieces(exp, old(parse), old(npar));
        if r.Err? then ret == Null(r.error)
        else parse == r.pos && npar == r.npar
             && flags.width == PiecesWidth(r.value) && flags.spstart == PiecesSpStart(r.value)
             && Grew(ret, old(Used()), old(Out()), 3 + PiecesSize(r.value), BranchImage(r.value))
      decreases |exp| - parse, 3
    {
      hide ParsePiece, PieceImage, PieceSize, Out, Used, Shown, Node, LinkedImage, BranchImage, PiecesSize, DoneSize,
           PiecesWidth, PiecesSpStart, PieceWidth, PieceSpStart;
      BranchStart();
      ghost var all := ParsePieces(exp, parse, npar);
      ghost var start, out, used := parse, Out(), Used();
      var p := RegNode(BRANCH);
      ret, flags := Ptr(p), WORST;
      ghost var base := Out();
      ghost var done, init, last := PNil, PNil, Piece(Bol, One);
      var chain: int := -1;
      while !EndsBranch(Peek(exp, parse))
        invariant Valid() && start <= parse
        invariant all == PrependPieces(done, ParsePieces(exp, parse, npar))
        invariant !sizing ==> all.Ok? && Fits(PiecesTodo(done, ParsePieces(exp, parse, npar).value))
        invariant Used() == used + 3 + DoneSize(done)
        invariant chain < 0 <==> done.PNil?
        invariant chain < 0 ==> Out() == base
        invariant chain >= 0 ==> done == Snoc(init, last) && WfPiece(last)
        invariant chain >= 0 ==> Out() == base + Shown(sizing, LinkedImage(init)) + Shown(sizing, PieceImage(last,
          Open))
        invariant chain >= 0 && !sizing ==>
          chain == |base + Shown(sizing, LinkedImage(init))| && PieceSize(last) < CODE_LIMIT
        invariant flags.width == PiecesWidth(done) && flags.spstart == PiecesSpStart(done)
        decreases |exp| - parse
      {
        ghost var r := ParsePiece(exp, parse, npar);
        ghost var rest := if r.Ok? then ParsePieces(exp, r.pos, r.npar) else Err(r.error);
        if r.Ok? { TodoStep(done, r.value, rest); }
        var latest;
        latest, flags := RegNextPiece(chain, flags, if chain < 0 then base else base + Shown(sizing,
          LinkedImage(init)), last);
        if latest.Null? {
          return latest, flags;
        }
        chain := latest.at;
        DoneSnoc(done, r.value);
        PrependSnoc(done, r.value, rest);
        if done.PCons? { LinkedMore(base, init, last, sizing); } else { LinkedNone(base, sizing); }
        done, init, last := Snoc(done, r.value), done, r.value;
      }
      AppendNil(done);
      if chain < 0 {
        var _ := RegNode(NOTHING);
        EmptyBranch(out, sizing);
      } else {
        DoneSnoc(init, last);
        FullBranch(out, init, last, sizing);
      }
    }

    /** The branches of a choice, linked together; `open` is the OPEN node of a group. */
    method RegChoice(paren: bool, ghost no: nat, open: nat, ghost out: seq<Byte>) returns (ret: Reply, flags: Flags)
      requires Valid() && no < NSUBEXP
      requires ParseAlts(exp, parse, npar) != Err(OutsideFragment)
      requires !sizing ==> var r := ParseAlts(exp, parse, npar); r.Ok? && Fits(AltsSize(r.value))
      requires Out() == out + Shown(sizing, Opener(paren, no, 0)) && (!sizing && paren ==> open == |out|)
      modifies `parse, `npar, `emit, `size, code
      ensures Valid()
      ensures var r := ParseAlts(exp, old(parse), old(npar));
        if r.Err? then ret == Null(r.error)
        else parse == r.pos && npar == r.npar && ret.Ptr? && (!sizing ==> ret.at == |out|)
             && flags.width == AltsWidth(r.value) && flags.spstart == AltsSpStart(r.value)
             && Used() == old(Used()) + AltsSize(r.value)
             && Out() == out + Shown(sizing, Opener(paren, no, 3)) + Shown(sizing, AltsImage(r.value, false, 0))
      decreases |exp| - parse, 7
    {
      hide ParsePieces, PiecesImage, PiecesSize, Ties, Node, AltsImage, Shown, Out, Used, BranchImage, Opener;
      ghost var all, used := ParseAlts(exp, parse, npar), Used();
      ghost var r := ParsePieces(exp, parse, npar);
      ret, flags := RegBranch();
      if ret.Null? {
        return;
      }
      RegOpen(paren, no, open, ret.at, r.value, out);
      if paren {
        ret := Ptr(open);
      }
      FirstAlt(r.value);
      OpenerNone(out, no, sizing);
      if Peek(exp, parse) == '|' as int { PrependAltsFirst(r.value, ParseAlts(exp, parse + 1, npar)); }
      ret, flags := RegMore(paren, no, ret.at, flags, ACons(r.value, ANil), out);
    }

    /** The rest of the branches, while there is a `|`. */
    method RegMore(paren: bool, ghost no: nat, first: nat, flags0: Flags, ghost done0: Alts, ghost out: seq<Byte>)
      returns (ret: Reply, flags: Flags)
      requires Valid() && no < NSUBEXP && done0.ACons? && WfAlts(done0)
      requires More(done0) != Err(OutsideFragment)
      requires !sizing ==> More(done0).Ok? && Fits(AltsSize(More(done0).value) - AltsSize(done0))
      requires Out() == out + Shown(sizing, Opener(paren, no, 3)) + Shown(sizing, AltsImage(done0, false, 0))
      requires !sizing ==> first == |out| && AltsSize(done0) < CODE_LIMIT
      requires flags0.width == AltsWidth(done0) && flags0.spstart == AltsSpStart(done0)
      modifies `parse, `npar, `emit, `size, code
      ensures Valid()
      ensures var r := old(More(done0));
        if r.Err? then ret == Null(r.error)
        else parse == r.pos && npar == r.npar && ret.Ptr? && (!sizing ==> ret.at == |out|)
             && flags.width == AltsWidth(r.value) && flags.spstart == AltsSpStart(r.value)
             && Used() == old(Used()) + AltsSize(r.value) - AltsSize(done0)
             && Out() == out + Shown(sizing, Opener(paren, no, 3)) + Shown(sizing, AltsImage(r.value, false, 0))
      decreases |exp| - parse, 6
    {
      hide ParseAlts, ParsePieces, AltsImage, AltsSize, Shown, Out, Used, Opener, MoreFrom, AltSnoc;
      ghost var all, done := More(done0), done0;
      ret, flags := Ptr(first), flags0;
      while Peek(exp, parse) == '|' as int
        invariant Valid() && old(parse) <= parse && done.ACons? && WfAlts(done)
        invariant all == More(done) && ret == Ptr(first)
        invariant !sizing ==> all.Ok? && Fits(AltsSize(all.value) - AltsSize(done))
        invariant Used() == old(Used()) + AltsSize(done) - AltsSize(done0)
        invariant Out() == out + Shown(sizing, Opener(paren, no, 3)) + Shown(sizing, AltsImage(done, false, 0))
        invariant !sizing ==> AltsSize(done) < CODE_LIMIT
        invariant flags.width == AltsWidth(done) && flags.spstart == AltsSpStart(done)
        decreases |exp| - parse
      {
        ghost var t := ParsePieces(exp, parse + 1, npar);
        MoreStep(done);
        var br;
        br, flags := RegNextBranch(paren, no, first, flags, done, out);
        if br.Null? {
          return br, flags;
        }
        AltSnocFacts(done, t.value);
        done := AltSnoc(done, t.value);
      }
      MoreNone(exp, done, parse, npar);
    }

    /** What parsing the remaining branches adds to `done`. */
    ghost function More(done: Alts): Parsed<Alts>
      requires Valid()
      reads `sizing, `emit, `code, `parse, `npar
    {
      MoreFrom(exp, done, parse, npar)
    }

    lemma MoreStep(done: Alts)
      requires Valid() && Peek(exp, parse) == '|' as int
      ensures var t := ParsePieces(exp, parse + 1, npar);
        if t.Err? then More(done) == Err(t.error)
        else More(done) == MoreFrom(exp, AltSnoc(done, t.value), t.pos, t.npar)
             && AltsSize(AltSnoc(done, t.value)) == AltsSize(done) + 3 + PiecesSize(t.value)
             && (More(done).Ok? ==> AltsSize(AltSnoc(done, t.value)) <= AltsSize(More(done).value))
    {
      hide ParsePieces;
      var t := ParsePieces(exp, parse + 1, npar);
      if t.Err? {
        return;
      }
      PrependAltsSnoc(done, t.value, ParseAlts(exp, parse + 1, npar));
      AltSnocFacts(done, t.value);
      AltAppendNil(AltSnoc(done, t.value));
      if More(done).Ok? && Peek(exp, t.pos) == '|' as int {
        AltAppendSize(AltSnoc(done, t.value), ParseAlts(exp, t.pos + 1, t.npar).value);
      }
    }

    method RegNextBranch(paren: bool, ghost no: nat, first: nat, flags: Flags, ghost done: Alts, ghost out: seq<Byte>)
      returns (br: Reply, flags': Flags)
      requires Valid() && no < NSUBEXP && done.ACons? && WfAlts(done) && Peek(exp, parse) == '|' as int
      requires ParsePieces(exp, parse + 1, npar) != Err(OutsideFragment)
      requires !sizing ==> var r := ParsePieces(exp, parse + 1, npar); r.Ok? && Fits(3 + PiecesSize(r.value))
      requires Out() == out + Shown(sizing, Opener(paren, no, 3)) + Shown(sizing, AltsImage(done, false, 0))
      requires !sizing ==> first == |out| && AltsSize(done) < CODE_LIMIT
      modifies `parse, `npar, `emit, `size, code
      ensures Valid()
      ensures var r := ParsePieces(exp, old(parse) + 1, old(npar));
        if r.Err? then br == Null(r.error)
        else parse == r.pos && npar == r.npar && br.Ptr? && Used() == old(Used()) + 3 + PiecesSize(r.value)
             && flags'.width == (flags.width && PiecesWidth(r.value))
             && flags'.spstart == (flags.spstart || PiecesSpStart(r.value))
             && Out() == out + Shown(sizing, Opener(paren, no, 3)) + Shown(sizing, AltsImage(AltSnoc(done, r.value),
               false, 0))
      decreases |exp| - parse, 4
    {
      hide ParsePieces, PiecesSize, AltsImage, Out, Used, BranchImage, Opener;
      ghost var t := ParsePieces(exp, parse + 1, npar);
      parse := parse + 1;
      var f;
      br, f := RegBranch();
      flags' := Flags(flags.width && f.width, false, flags.spstart || f.spstart);
      if br.Null? {
        return;
      }
      RegLinkBranch(paren, no, first, br.at, done, t.value, out);
    }

    /** OPEN is linked to the first branch. */
    method RegOpen(paren: bool, ghost no: nat, open: nat, br: nat, ghost b: Pieces, ghost out: seq<Byte>)
      requires Valid() && no < NSUBEXP
      requires Out() == out + Shown(sizing, Opener(paren, no, 0)) + Shown(sizing, BranchImage(b))
      requires !sizing && paren ==> open == |out| && br == |out| + |Opener(paren, no, 0)|
      modifies code
      ensures Valid()
      ensures Out() == out + Shown(sizing, Opener(paren, no, 3)) + Shown(sizing, BranchImage(b))
    {
      hide BranchImage, Node, Ties;
      if paren {
        if !sizing { TieOpen(out, no, BranchImage(b)); }
        RegTail(open, br, open, out + Opener(true, no, 3) + BranchImage(b));
      }
    }

    /** The chain of branches is extended by the branch just emitted. */
    method RegLinkBranch(ghost paren: bool, ghost no: nat, ret: nat, br: nat, ghost done: Alts, ghost b: Pieces,
                         ghost out: seq<Byte>)
      requires Valid() && no < NSUBEXP && done.ACons? && WfAlts(done)
      requires Out() == out + Shown(sizing, Opener(paren, no, 3)) + Shown(sizing, AltsImage(done, false, 0))
                        + Shown(sizing, BranchImage(b))
      requires !sizing ==>
        ret == |out| && br == |out| + |Opener(paren, no, 3)| + AltsSize(done) && AltsSize(done) < CODE_LIMIT
      modifies code
      ensures Valid()
      ensures Out() == out + Shown(sizing, Opener(paren, no, 3)) + Shown(sizing, AltsImage(AltSnoc(done, b), false, 0))
    {
      hide BranchImage, Node, Ties, Opener, AltsImage, AltsSize, AltsTail;
      if !sizing { TieAlts(out, paren, no, done, BranchImage(b)); }
      ghost var head := out + Opener(paren, no, 3);
      RegTail(ret, br, |head| + AltsTail(done), head + AltsImage(done, true, 0) + BranchImage(b));
      if !sizing {
        AltsSnocImage(done, b);
        FirstAlt(b);
        Regroup(head, AltsImage(done, true, 0), BranchImage(b), []);
      }
    }

    /** Hooks the tails of all branches to the closing node; walks on over that node itself. */
    method RegCloseAll(paren: bool, ret: nat, ender: nat, ghost no: nat, ghost alts: Alts, ghost out: seq<Byte>)
      requires Valid() && no < NSUBEXP && alts.ACons? && WfAlts(alts)
      requires !sizing ==>
        ret == |out| && ender == |out + Opener(paren, no, 3)| + AltsSize(alts) && AltsSize(alts) < CODE_LIMIT
      requires !sizing ==> Out() == out + Opener(paren, no, 3) + AltsImage(alts, true, 0) + Closer(paren, no)
      modifies code
      ensures Valid()
      ensures !sizing ==> Out() == out + Opener(paren, no, 3) + AltsImage(alts, true, AltCount(alts)) + Closer(paren,
        no)
    {
      hide Ties, Op, Link, AltsImage, AltsSize, Opener, Closer, AltOffset, BodyTail;
      ghost var head, post, n := out + Opener(paren, no, 3), Closer(paren, no), AltCount(alts);
      ghost var j: int := if paren then -1 else 0;
      AltOffsetFacts(alts);
      if !sizing && !paren { OpenerNone(out, no, false); assert out + [] == out; }
      var br: int := ret;
      while br >= 0
        invariant Valid() && (if paren then -1 else 0) <= j <= n + 1
        invariant !sizing ==> Out() == head + AltsImage(alts, true, Closed(j, n)) + post
        invariant !sizing ==> br == if j < 0 then |out| else if j <= n then |head| + AltOffset(alts, j) else -1
        decreases if sizing then br + 1 else n + 2 - j
      {
        if !sizing { TieBody(out, paren, no, alts, j); }
        RegOpTail(br, ender, if 0 <= j < n then |head| + BodyTail(alts, j) else 0,
                  head + AltsImage(alts, true, Closed(j + 1, n)) + post);
        if !sizing { NextBody(out, paren, no, alts, j, Closed(j + 1, n)); }
        br := RegNext(br);
        j := if sizing then j else j + 1;
      }
    }

    method Reg(paren: bool) returns (ret: Reply, flags: Flags)
      requires Valid()
      requires ParseReg(exp, parse, npar, paren) != Err(OutsideFragment)
      requires !sizing ==> var r := ParseReg(exp, parse, npar, paren); r.Ok? && Fits(RegSize(paren, r.value))
      modifies `parse, `npar, `emit, `size, code
      ensures Valid()
      ensures var r := ParseReg(exp, old(parse), old(npar), paren);
        if r.Err? then ret == Null(r.error)
        else
          parse == r.pos && npar == r.npar && flags.width == AltsWidth(r.value) &&
          flags.spstart == AltsSpStart(r.value) &&
          Grew(ret, old(Used()), old(Out()), RegSize(paren, r.value), RegImage(paren, old(npar), r.value))
      decreases |exp| - parse, 9
    {
      hide ParseAlts, AltsImage, AltsSize, Shown, Used, Out, Opener, Closer, RegImage;
      ghost var out := Out();
      ghost var r := ParseAlts(exp, parse, if paren then npar + 1 else npar);
      flags := WORST;
      var parno, open := 0, 0;
      if paren {
        if npar >= NSUBEXP {
          return Null(TooManyGroups), flags;
        }
        parno := npar;
        npar := npar + 1;
        RegOpenFacts(parno);
        open := RegNode(AtomOp(Group(parno, ANil)));
      }
      OpenerNone(out, parno, sizing);
      ret, flags := RegChoice(paren, parno, open, out);
      if ret.Null? {
        return;
      }
      RegEnd(paren, ret.at, parno, r.value, out);
      TopImage(parno, old(npar), r.value);
      if paren {
        if Peek(exp, parse) != ')' as int {
          return Null(UnmatchedParen), flags;
        }
        parse := parse + 1;
      } else if Peek(exp, parse) != 0 {
        return Null(UnmatchedParen), flags;
      }
    }

    /** The closing node, and everything that is tied to it. */
    method RegEnd(paren: bool, ret: nat, parno: nat, ghost alts: Alts, ghost out: seq<Byte>)
      requires Valid() && Fits(3) && parno < NSUBEXP && alts.ACons? && WfAlts(alts)
      requires !sizing ==> ret == |out| && AltsSize(alts) < CODE_LIMIT
      requires Out() == out + Shown(sizing, Opener(paren, parno, 3)) + Shown(sizing, AltsImage(alts, false, 0))
      modifies `emit, `size, code
      ensures Valid() && Used() == old(Used()) + 3
      ensures Out() == out + Shown(sizing, RegImage(paren, parno, alts))
    {
      hide AltsImage, AltsSize, Opener, Closer, RegImage, Ties;
      ghost var head := out + Opener(paren, parno, 3);
      CloserNode(paren, parno);
      var ender := RegNode(if paren then CloseOp(parno) else END);
      if !sizing { TieAlts(out, paren, parno, alts, Closer(paren, parno)); }
      RegTail(ret, ender, |head| + AltsTail(alts), head + AltsImage(alts, true, 0) + Closer(paren, parno));
      RegCloseAll(paren, ret, ender, parno, alts, out);
      if !sizing { RegDone(out, paren, parno, alts); }
    }
  }

  /** CLOSE for a group, END for a whole pattern. */
  function Closer(paren: bool, no: nat): seq<Byte>
  {
    Node(if paren then CloseOp(no) else END, 0)
  }

  lemma CloserNode(paren: bool, no: nat)
    ensures Closer(paren, no) == Node(if paren then CloseOp(no) else END, 0)
  {
  }

  lemma GroupAsAtom(no: nat, alts: Alts)
    ensures RegImage(true, no, alts) == AtomImage(Group(no, alts), Open) &&
      RegSize(true, alts) == AtomSize(Group(no, alts))
  {
    hide AltsImage, AltsSize;
  }

  ghost function MoreFrom(exp: seq<Byte>, done: Alts, parse: nat, npar: nat): Parsed<Alts>
    requires parse <= |exp| && NoNul(exp) && 1 <= npar
  {
    if Peek(exp, parse) == '|' as int then PrependAlts(done, ParseAlts(exp, parse + 1, npar)) else Ok(done, parse, npar)
  }

  lemma MoreNone(exp: seq<Byte>, done: Alts, parse: nat, npar: nat)
    requires parse <= |exp| && NoNul(exp) && 1 <= npar && Peek(exp, parse) != '|' as int
    ensures MoreFrom(exp, done, parse, npar) == Ok(done, parse, npar)
  {
  }

  lemma TopImage(no: nat, no': nat, alts: Alts)
    ensures RegImage(false, no, alts) == RegImage(false, no', alts)
  {
  }

  lemma RegOpenFacts(no: nat)
    requires no < NSUBEXP
    ensures Opener(true, no, 0) == Node(AtomOp(Group(no, ANil)), 0)
  {
  }

  lemma RegDone(out: seq<Byte>, paren: bool, no: nat, alts: Alts)
    requires no < NSUBEXP
    ensures out + Opener(paren, no, 3) + AltsImage(alts, true, AltCount(alts)) + Closer(paren, no)
         == out + RegImage(paren, no, alts)
  {
    hide AltsImage, Node;
    Regroup(out, Opener(paren, no, 3), AltsImage(alts, true, AltCount(alts)), Closer(paren, no));
    if !paren {
      assert [] + AltsImage(alts, true, AltCount(alts)) == AltsImage(alts, true, AltCount(alts));
    }
  }

  /** How many bodies are closed when the walk is about to visit the j-th node. */
  function Closed(j: int, n: nat): nat
  {
    if j <= 0 then 0 else if j <= n then j else n
  }

  lemma {:induction false} AltOffsetFacts(alts: Alts)
    ensures AltOffset(alts, 0) == 0 && AltOffset(alts, AltCount(alts)) == AltsSize(alts)
  {
    if alts.ACons? { AltOffsetFacts(alts.rest); }
  }

  /** Where the walk stands when it visits the j-th node, and what it does there. */
  lemma TieBody(out: seq<Byte>, paren: bool, no: nat, alts: Alts, j: int)
    requires no < NSUBEXP && alts.ACons? && WfAlts(alts) && AltsSize(alts) < 65000
    requires (if paren then -1 else 0) <= j <= AltCount(alts)
    ensures var n := AltCount(alts);
      var head := out + Opener(paren, no, 3);
      var code := head + AltsImage(alts, true, Closed(j, n)) + Closer(paren, no);
      var want := head + AltsImage(alts, true, Closed(j + 1, n)) + Closer(paren, no);
      var br := if j < 0 then |out| else |head| + AltOffset(alts, j);
      && br + 3 <= |code|
      && if Op(code, br) == BRANCH
         then 0 <= j < n && Ties(code, br + 3, |head| + BodyTail(alts, j), |head| + AltsSize(alts), want)
         else code == want
  {
    hide Ties, Op, Link, AltsImage, AltsSize, Opener, Closer, AltOffset, BodyTail;
    var n := AltCount(alts);
    var head := out + Opener(paren, no, 3);
    AltOffsetFacts(alts);
    if j < 0 {
      OpenOp(out, no, AltsImage(alts, true, 0), Closer(paren, no));
    } else if j < n {
      TieOneBody(head, alts, j, Closer(paren, no));
    } else {
      CloseOpAt(head, AltsImage(alts, true, n), paren, no);
    }
  }

  lemma OpenOp(out: seq<Byte>, no: nat, x: seq<Byte>, post: seq<Byte>)
    requires no < NSUBEXP
    ensures |Opener(true, no, 3)| == 3
    ensures Op(out + Opener(true, no, 3) + x + post, |out|) != BRANCH
    ensures Link(out + Opener(true, no, 3) + x + post, |out|) == 3
  {
    hide Op, Link, Node;
    Regroup(out + Opener(true, no, 3), x, post, []);
    NodeInContext(out, AtomOp(Group(no, ANil)), 3, x + post);
  }

  lemma CloseOpAt(head: seq<Byte>, x: seq<Byte>, paren: bool, no: nat)
    ensures |Closer(paren, no)| == 3
    ensures Op(head + x + Closer(paren, no), |head| + |x|) != BRANCH
    ensures Link(head + x + Closer(paren, no), |head| + |x|) == 0
  {
    hide Op, Link, Node, SetLink;
    assert |head + x| == |head| + |x|;
    LastNode(head + x, if paren then CloseOp(no) else END, 0);
  }

  lemma TieOneBody(head: seq<Byte>, alts: Alts, j: nat, post: seq<Byte>)
    requires j < AltCount(alts) && AltsSize(alts) < 65000 && WfAlts(alts)
    ensures var code := head + AltsImage(alts, true, j) + post;
      |head| + AltOffset(alts, j) + 3 <= |code| && Op(code, |head| + AltOffset(alts, j)) == BRANCH &&
      Ties(code, |head| + AltOffset(alts, j) + 3, |head| + BodyTail(alts, j), |head| + AltsSize(alts),
           head + AltsImage(alts, true, j + 1) + post)
  {
    hide Reach, Link, Op, SetLink, AltsImage, AltsSize, AltOffset, BodyTail, AltDrop;
    CloseAlt(alts, j);
    CloseAltLink(alts, j);
    ReachMiddle(head, AltsImage(alts, true, j), post, AltOffset(alts, j) + 3, BodyTail(alts, j));
    LinkInContext(head, AltsImage(alts, true, j), post, AltOffset(alts, j));
    LinkInContext(head, AltsImage(alts, true, j), post, BodyTail(alts, j));
    SetLinkInContext(head, AltsImage(alts, true, j), post, BodyTail(alts, j), AltsSize(alts) - BodyTail(alts, j));
  }

  lemma {:induction false} AltLink(alts: Alts, c: nat, j: nat)
    requires j < AltCount(alts) && AltsSize(alts) < 65000
    ensures AltOffset(alts, j) + 3 <= AltsSize(alts)
    ensures Op(AltsImage(alts, true, c), AltOffset(alts, j)) == BRANCH
    ensures AltOffset(alts, j) + Link(AltsImage(alts, true, c), AltOffset(alts, j)) == AltOffset(alts, j + 1)
    ensures Link(AltsImage(alts, true, c), AltOffset(alts, j)) > 0
  {
    hide Link, Op, PiecesImage, PiecesSize;
    var body := PiecesImage(alts.first, if c > 0 then To(AltsSize(alts.rest)) else Open);
    var rest := AltsImage(alts.rest, true, if c > 0 then c - 1 else 0);
    var node := Node(BRANCH, 3 + PiecesSize(alts.first));
    if j == 0 {
      HeadNode(BRANCH, 3 + PiecesSize(alts.first), body + rest, true);
      assert node + (body + rest) == node + body + rest;
    } else {
      AltLink(alts.rest, if c > 0 then c - 1 else 0, j - 1);
      LinkAfterPrefix(node + body, rest, AltOffset(alts.rest, j - 1));
    }
  }

  /** Where the walk goes next. */
  lemma NextBody(out: seq<Byte>, paren: bool, no: nat, alts: Alts, j: int, c: nat)
    requires no < NSUBEXP && alts.ACons? && AltsSize(alts) < 65000
    requires (if paren then -1 else 0) <= j <= AltCount(alts)
    ensures var n := AltCount(alts);
      var head := out + Opener(paren, no, 3);
      var code := head + AltsImage(alts, true, c) + Closer(paren, no);
      var br := if j < 0 then |out| else |head| + AltOffset(alts, j);
      && br + 3 <= |code|
      && (j < n ==>
        Op(code, br) != BACK && Link(code, br) > 0 && br + Link(code, br) == |head| + AltOffset(alts, j + 1))
      && (j == n ==> Link(code, br) == 0)
  {
    hide Op, Link, AltsImage, AltsSize, Opener, Closer, AltOffset;
    var n := AltCount(alts);
    var head := out + Opener(paren, no, 3);
    AltOffsetFacts(alts);
    if j < 0 {
      OpenOp(out, no, AltsImage(alts, true, c), Closer(paren, no));
      OpenNotBack(out, no, AltsImage(alts, true, c), Closer(paren, no));
    } else if j < n {
      AltLink(alts, c, j);
      LinkInContext(head, AltsImage(alts, true, c), Closer(paren, no), AltOffset(alts, j));
    } else {
      CloseOpAt(head, AltsImage(alts, true, c), paren, no);
    }
  }

  lemma OpenNotBack(out: seq<Byte>, no: nat, x: seq<Byte>, post: seq<Byte>)
    requires no < NSUBEXP
    ensures |Opener(true, no, 3)| == 3 && Op(out + Opener(true, no, 3) + x + post, |out|) != BACK
  {
    hide Op, Link, Node;
    Regroup(out + Opener(true, no, 3), x, post, []);
    NodeInContext(out, AtomOp(Group(no, ANil)), 3, x + post);
  }

  /** The OPEN node of a group; nothing at top level. */
  function Opener(paren: bool, no: nat, link: nat): seq<Byte>
    requires no < NSUBEXP
  {
    if paren then Node(AtomOp(Group(no, ANil)), link) else []
  }

  lemma OpenerNone(out: seq<Byte>, no: nat, sizing: bool)
    requires no < NSUBEXP
    ensures out + Shown(sizing, Opener(false, no, 0)) == out
    ensures Opener(false, no, 0) == Opener(false, no, 3)
  {
  }

  lemma FirstAlt(b: Pieces)
    ensures AltsImage(ACons(b, ANil), false, 0) == BranchImage(b)
    ensures AltsSize(ACons(b, ANil)) == 3 + PiecesSize(b)
  {
    hide PiecesImage, Node;
  }

  function PrependAlts(done: Alts, r: Parsed<Alts>): Parsed<Alts>
  {
    if r.Ok? then Ok(AltAppend(done, r.value), r.pos, r.npar) else r
  }

  lemma PrependAltsFirst(b: Pieces, r: Parsed<Alts>)
    ensures r.Ok? ==> PrependAlts(ACons(b, ANil), r) == Ok(ACons(b, r.value), r.pos, r.npar)
  {
    if r.Ok? { assert AltAppend(ANil, r.value) == r.value; }
  }

  lemma {:induction false} AltSnocFacts(alts: Alts, b: Pieces)
    ensures AltsSize(AltSnoc(alts, b)) == AltsSize(alts) + 3 + PiecesSize(b)
    ensures WfAlts(AltSnoc(alts, b)) == (WfAlts(alts) && WfPieces(b))
    ensures AltsWidth(AltSnoc(alts, b)) == (AltsWidth(alts) && PiecesWidth(b))
    ensures AltsSpStart(AltSnoc(alts, b)) == (AltsSpStart(alts) || PiecesSpStart(b))
  {
    if alts.ACons? {
      AltSnocFacts(alts.rest, b);
    }
  }

  lemma {:induction false} AltAppendSize(alts: Alts, more: Alts)
    ensures AltsSize(AltAppend(alts, more)) == AltsSize(alts) + AltsSize(more)
  {
    if alts.ACons? { AltAppendSize(alts.rest, more); }
  }

  lemma PrependAltsSnoc(done: Alts, b: Pieces, r: Parsed<Alts>)
    ensures r.Ok? && r.value.ACons? && r.value.first == b ==>
      PrependAlts(done, r) == PrependAlts(AltSnoc(done, b), Ok(r.value.rest, r.pos, r.npar))
  {
    if r.Ok? && r.value.ACons? { AltSnocAppend(done, b, r.value.rest); AltAppendNil(AltSnoc(done, b)); }
  }

  lemma TieOpen(pre: seq<Byte>, no: nat, post: seq<Byte>)
    requires no < NSUBEXP
    ensures Ties(pre + Opener(true, no, 0) + post, |pre|, |pre|, |pre| + |Opener(true, no, 0)|, pre + Opener(true, no,
      3) + post)
  {
    hide Reach, Link, Op, SetLink, Node;
    var op := AtomOp(Group(no, ANil));
    NodeInContext(pre, op, 0, post);
    ReachSelf(pre + Node(op, 0) + post, |pre|, false);
    PatchNode(pre, op, 0, post, 3);
  }

  /** From the OPEN node, or from the first BRANCH, along the chain of branches. */
  lemma OverOpener(pre: seq<Byte>, paren: bool, no: nat, x: seq<Byte>, post: seq<Byte>, q: nat)
    requires no < NSUBEXP && Reach(x, 0, q, false)
    ensures Reach(pre + Opener(paren, no, 3) + x + post, |pre|, |pre| + |Opener(paren, no, 3)| + q, false)
  {
    hide Reach, Node;
    var head := pre + Opener(paren, no, 3);
    ReachMiddle(head, x, post, 0, q);
    if paren {
      var op := AtomOp(Group(no, ANil));
      Regroup(head, x, post, []);
      HopNode(pre, op, 3, x + post);
      ReachTrans(head + x + post, |pre|, |head|, |head| + q, false);
    }
  }

  lemma TieAlts(pre: seq<Byte>, paren: bool, no: nat, alts: Alts, post: seq<Byte>)
    requires no < NSUBEXP && alts.ACons? && AltsSize(alts) < 65000
    ensures Ties(pre + Opener(paren, no, 3) + AltsImage(alts, false, 0) + post,
                 |pre|, |pre + Opener(paren, no, 3)| + AltsTail(alts), |pre + Opener(paren, no, 3)| + AltsSize(alts),
                 pre + Opener(paren, no, 3) + AltsImage(alts, true, 0) + post)
  {
    hide Reach, Link, Op, SetLink, Opener, AltsImage, AltsTail, AltsSize;
    var head := pre + Opener(paren, no, 3);
    AltsReachTail(alts);
    ReachLoud(AltsImage(alts, false, 0), 0, AltsTail(alts));
    OverOpener(pre, paren, no, AltsImage(alts, false, 0), post, AltsTail(alts));
    LinkInContext(head, AltsImage(alts, false, 0), post, AltsTail(alts));
    AltsLink(alts);
    SetLinkInContext(head, AltsImage(alts, false, 0), post, AltsTail(alts), AltsSize(alts) - AltsTail(alts));
  }

  /** A branch whose link and body are both open. */
  function BranchImage(b: Pieces): seq<Byte>
  {
    Node(BRANCH, 0) + PiecesImage(b, Open)
  }

  function PrependPieces(done: Pieces, r: Parsed<Pieces>): Parsed<Pieces>
  {
    if r.Ok? then Ok(Append(done, r.value), r.pos, r.npar) else r
  }

  lemma PrependSnoc(done: Pieces, p: Piece, r: Parsed<Pieces>)
    ensures r.Ok? ==> PrependPieces(done, Ok(PCons(p, r.value), r.pos, r.npar)) == PrependPieces(Snoc(done, p), r)
    ensures r.Err? ==> PrependPieces(done, r) == PrependPieces(Snoc(done, p), r)
  {
    if r.Ok? { SnocAppend(done, p, r.value); }
  }

  function DoneSize(ps: Pieces): nat
  {
    match ps
    case PNil => 0
    case PCons(h, t) => PieceSize(h) + DoneSize(t)
  }

  lemma BranchStart()
    ensures DoneSize(PNil) == 0 && !PiecesWidth(PNil) && !PiecesSpStart(PNil) && PiecesSize(PNil) == 3
  {
  }

  lemma TodoStep(done: Pieces, p: Piece, rest: Parsed<Pieces>)
    ensures rest.Ok? ==> PiecesTodo(done, PCons(p, rest.value)) == PieceSize(p) + PiecesTodo(Snoc(done, p), rest.value)
  {
  }

  /** Bytes still to come: an empty branch ends in a NOTHING node, any other in its last piece. */
  function PiecesTodo(done: Pieces, rest: Pieces): nat
  {
    if done.PCons? && rest.PNil? then 0 else PiecesSize(rest)
  }

  lemma {:induction false} DoneSnoc(ps: Pieces, p: Piece)
    ensures DoneSize(Snoc(ps, p)) == DoneSize(ps) + PieceSize(p)
    ensures PiecesSize(Snoc(ps, p)) == DoneSize(ps) + PieceSize(p)
    ensures PiecesWidth(Snoc(ps, p)) == (PiecesWidth(ps) || PieceWidth(p))
    ensures PiecesSpStart(Snoc(ps, p)) == if ps.PNil? then PieceSpStart(p) else PiecesSpStart(ps)
  {
    if ps.PCons? {
      DoneSnoc(ps.tail, p);
    }
  }

  lemma LinkedNone(base: seq<Byte>, sizing: bool)
    ensures base + Shown(sizing, LinkedImage(PNil)) == base
  {
  }

  lemma LinkedMore(base: seq<Byte>, init: Pieces, last: Piece, sizing: bool)
    ensures base + Shown(sizing, LinkedImage(init)) + Shown(sizing, PieceImage(last, To(0)))
         == base + Shown(sizing, LinkedImage(Snoc(init, last)))
    ensures |base + Shown(sizing, LinkedImage(init)) + Shown(sizing, PieceImage(last, Open))|
         == |base + Shown(sizing, LinkedImage(Snoc(init, last)))|
  {
    hide PieceImage;
    LinkedSnoc(init, last);
    ShownMore(base, LinkedImage(init), PieceImage(last, To(0)), sizing);
  }

  lemma EmptyBranch(out: seq<Byte>, sizing: bool)
    ensures out + Shown(sizing, Node(BRANCH, 0)) + Shown(sizing, Node(NOTHING, 0)) == out + Shown(sizing,
      BranchImage(PNil))
  {
    hide Node;
    ShownMore(out, Node(BRANCH, 0), Node(NOTHING, 0), sizing);
  }

  lemma FullBranch(out: seq<Byte>, init: Pieces, last: Piece, sizing: bool)
    ensures out + Shown(sizing, Node(BRANCH, 0)) + Shown(sizing, LinkedImage(init)) + Shown(sizing, PieceImage(last,
      Open))
         == out + Shown(sizing, BranchImage(Snoc(init, last)))
  {
    hide Node, PieceImage, LinkedImage;
    LinkedSnoc(init, last);
    ShownMore(out + Shown(sizing, Node(BRANCH, 0)), LinkedImage(init), PieceImage(last, Open), sizing);
    ShownMore(out, Node(BRANCH, 0), LinkedImage(init) + PieceImage(last, Open), sizing);
  }

  lemma TiePiece(pre: seq<Byte>, p: Piece, post: seq<Byte>)
    requires PieceSize(p) < 65000 && WfPiece(p)
    ensures Ties(pre + PieceImage(p, Open) + post, |pre|, |pre| + PieceTail(p), |pre| + PieceSize(p),
                 pre + PieceImage(p, To(0)) + post)
  {
    hide SetLink, Reach, Link, Op, PieceImage, PieceSize, PieceTail;
    PieceInContext(pre, p, post);
    PatchPiece(pre, p, post, 0);
  }

  function QuantOf(op: Byte, greedy: bool): Quant
    requires IsMult(op)
  {
    if op == '?' as int then Opt
    else if op == '*' as int then (if greedy then Star else LazyStar)
    else (if greedy then Plus else LazyPlus)
  }

  function RegSize(paren: bool, alts: Alts): nat
  {
    if paren then AltsSize(alts) + 6 else AltsSize(alts) + 3
  }

  /** What reg leaves behind. */
  function RegImage(paren: bool, no: nat, alts: Alts): seq<Byte>
  {
    if paren then AtomImage(Group(no, alts), Open) else AltsImage(alts, true, AltCount(alts)) + Node(END, 0)
  }

  lemma AtomCases(s: seq<Byte>, i: nat, np: nat)
    requires i < |s| && NoNul(s) && !EndsBranch(s[i]) && 1 <= np
    ensures s[i] == '^' as int ==> ParseAtom(s, i, np) == Ok(Bol, i + 1, np)
    ensures s[i] == '$' as int ==> ParseAtom(s, i, np) == Ok(Eol, i + 1, np)
    ensures s[i] == '.' as int ==> ParseAtom(s, i, np) == Ok(Any, i + 1, np)
    ensures s[i] == '[' as int ==> ParseAtom(s, i, np) == ParseClass(s, i + 1, np)
    ensures s[i] == '(' as int ==>
      var r := ParseReg(s, i + 1, np, true);
      ParseAtom(s, i, np) == (if r.Err? then Err(r.error) else Ok(Group(np, r.value), r.pos, r.npar))
      && (r.Ok? ==> AtomSize(Group(np, r.value)) == RegSize(true, r.value))
    ensures IsMult(s[i]) ==> ParseAtom(s, i, np) == Err(NothingToRepeat)
    ensures !IsMeta(s[i]) ==>
      var n := LiteralLength(s, i);
      n > 0 && i + n <= |s| && ParseAtom(s, i, np) == Ok(Literal(s[i..i + n]), i + n, np)
    ensures s[i] == '\\' as int ==>
      var r := ParseAtom(s, i, np);
      r.Ok? ==> AtomFlags(r.value) == Flags(true, true, false)
  {
    if !IsMeta(s[i]) { assert LiteralRun(s, i) > 0; }
  }

  lemma LeafImage(a: Atom)
    requires Leaf(a)
    ensures AtomSize(a) == 3 && AtomImage(a, Open) == Node(AtomOp(a), 0)
  {
  }

  /** Atoms that are a bare node. */
  predicate Leaf(a: Atom)
  {
    a.Bol? || a.Eol? || a.Any? || a.Kind?
  }

  function AtomFlags(a: Atom): Flags
  {
    Flags(AtomWidth(a), Simple(a), AtomSpStart(a))
  }

  lemma LiteralDone(out: seq<Byte>, text: seq<Byte>, sizing: bool)
    ensures out + Shown(sizing, Node(EXACTLY, 0)) + Shown(sizing, text) + Shown(sizing, [0])
         == out + Shown(sizing, AtomImage(Literal(text), Open))
    ensures AtomSize(Literal(text)) == |text| + 4
  {
    hide Node;
    assert Node(EXACTLY, 0) + (text + [0]) == Node(EXACTLY, 0) + text + [0];
  }

  // ----- One step of the bracket grammar -----

  function ClassOp(s: seq<Byte>, i: nat): Byte
  {
    if Peek(s, i) == '^' as int then ANYBUT else ANYOF
  }

  function ClassFirst(s: seq<Byte>, i: nat): seq<Byte>
  {
    var j := if Peek(s, i) == '^' as int then i + 1 else i;
    if Peek(s, j) == ']' as int || Peek(s, j) == '-' as int then [s[j]] else []
  }

  function ClassStart(s: seq<Byte>, i: nat): nat
  {
    (if Peek(s, i) == '^' as int then i + 1 else i) + |ClassFirst(s, i)|
  }

  lemma ClassUnfold(s: seq<Byte>, i: nat, np: nat)
    requires 0 < i <= |s|
    ensures ClassStart(s, i) <= |s| && i <= ClassStart(s, i)
    ensures var r := ParseClass(s, i, np);
      var m := ParseMembers(s, ClassStart(s, i));
      if m.Err? then r == Err(InvalidRange)
      else if Peek(s, m.pos) != ']' as int then r == Err(UnmatchedBracket)
      else r.Ok? && r.pos == m.pos + 1
           && AtomSize(r.value) == 3 + |ClassFirst(s, i)| + |m.value| + 1
           && AtomImage(r.value, Open) == Node(ClassOp(s, i), 0) + ClassFirst(s, i) + m.value + [0]
  {
    hide ParseMembers, Node;
    MembersError(s, ClassStart(s, i));
    var r := ParseClass(s, i, np);
    if r.Ok? {
      var rest := ParseMembers(s, ClassStart(s, i)).value;
      assert r.value.members == ClassFirst(s, i) + rest;
      Regroup(Node(ClassOp(s, i), 0), ClassFirst(s, i), rest, [0]);
    }
  }

  /** What one round of the member loop emits, and where it stops (0 if it fails). */
  function MembersStep(s: seq<Byte>, i: nat): seq<Byte>
    requires 0 < i < |s|
  {
    if s[i] == '-' as int && Peek(s, i + 1) != ']' as int && Peek(s, i + 1) != 0 && s[i - 1] <= s[i + 1]
    then ByteRange(s[i - 1] as int + 1, s[i + 1])
    else [s[i]]
  }

  function MembersNext(s: seq<Byte>, i: nat): nat
    requires 0 < i < |s|
  {
    if s[i] == '-' as int && Peek(s, i + 1) != ']' as int && Peek(s, i + 1) != 0
    then (if s[i - 1] <= s[i + 1] then i + 2 else 0)
    else i + 1
  }

  lemma MembersUnfold(s: seq<Byte>, i: nat)
    requires 0 < i < |s| && s[i] != 0 && s[i] != ']' as int
    ensures var j := MembersNext(s, i);
      j <= |s| && (j != 0 ==> i < j) &&
      ParseMembers(s, i) == if j == 0 then Err(InvalidRange) else Prepend(MembersStep(s, i), ParseMembers(s, j))
  {
  }

  lemma ShownNone(out: seq<Byte>, sizing: bool)
    ensures out + Shown(sizing, []) == out
  {
  }

  lemma ShownMore(out: seq<Byte>, x: seq<Byte>, y: seq<Byte>, sizing: bool)
    ensures out + Shown(sizing, x) + Shown(sizing, y) == out + Shown(sizing, x + y)
  {
  }

  lemma PrependNil(r: Parsed<seq<Byte>>)
    ensures Prepend([], r) == r
  {
    if r.Ok? { assert [] + r.value == r.value; }
  }

  lemma PrependTwice(x: seq<Byte>, y: seq<Byte>, r: Parsed<seq<Byte>>)
    ensures Prepend(x, Prepend(y, r)) == Prepend(x + y, r)
  {
    if r.Ok? { assert x + (y + r.value) == (x + y) + r.value; }
  }

  lemma {:induction false} MembersError(s: seq<Byte>, i: nat)
    requires 0 < i <= |s|
    ensures ParseMembers(s, i).Err? ==> ParseMembers(s, i).error == InvalidRange
    decreases |s| - i
  {
    if Peek(s, i) != 0 && Peek(s, i) != ']' as int {
      MembersError(s, i + 1);
      if i + 2 <= |s| { MembersError(s, i + 2); }
    }
  }

  // ----- The intermediate code of each operator -----

  lemma Inserted(pre: seq<Byte>, node: seq<Byte>, x: seq<Byte>)
    ensures (pre + x)[..|pre|] + node + (pre + x)[|pre|..] == pre + node + x
  {
  }

  lemma Regroup(pre: seq<Byte>, x: seq<Byte>, y: seq<Byte>, z: seq<Byte>)
    ensures pre + (x + y + z) == pre + x + y + z
    ensures pre + (x + y) == pre + x + y
  {
  }

  lemma Regroup4(pre: seq<Byte>, w: seq<Byte>, x: seq<Byte>, y: seq<Byte>, z: seq<Byte>)
    ensures pre + (w + x + y + z) == pre + w + x + y + z
  {
  }

  /** The operand of an inserted BRANCH is tied to something that follows it. */
  lemma LoopOperand(pre: seq<Byte>, link: nat, a: Atom, post: seq<Byte>, d: nat)
    requires AtomSize(a) < 65000
    ensures Op(pre + Node(BRANCH, link) + AtomImage(a, Open) + post, |pre|) == BRANCH
    ensures Ties(pre + Node(BRANCH, link) + AtomImage(a, Open) + post,
                 |pre| + 3, |pre| + 3 + AtomTail(a), |pre| + 3 + AtomSize(a) + d,
                 pre + Node(BRANCH, link) + AtomImage(a, To(d)) + post)
  {
    hide SetLink, Reach, Link, Op, AtomImage, AtomSize, AtomTail, Node;
    assert |pre + Node(BRANCH, link)| == |pre| + 3;
    AtomInContext(pre + Node(BRANCH, link), a, post);
    PatchAtom(pre + Node(BRANCH, link), a, post, d);
    BranchFirst(pre, link, AtomImage(a, Open), post);
  }

  lemma BranchFirst(pre: seq<Byte>, link: nat, x: seq<Byte>, post: seq<Byte>)
    ensures Op(pre + Node(BRANCH, link) + x + post, |pre|) == BRANCH
  {
  }

  lemma LoopBack(pre: seq<Byte>, a: Atom)
    requires AtomSize(a) < 65000
    ensures Op(pre + Node(BRANCH, 0) + AtomImage(a, To(0)) + Node(BACK, 0), |pre|) == BRANCH
    ensures Ties(pre + Node(BRANCH, 0) + AtomImage(a, To(0)) + Node(BACK, 0),
                 |pre| + 3, |pre| + 3 + AtomSize(a), |pre|,
                 pre + Node(BRANCH, 0) + AtomImage(a, To(0)) + Node(BACK, 3 + AtomSize(a)))
  {
    hide SetLink, Reach, Link, Op, AtomImage, AtomSize, Node;
    assert |pre + Node(BRANCH, 0)| == |pre| + 3;
    assert |pre + Node(BRANCH, 0) + AtomImage(a, To(0))| == |pre| + 3 + AtomSize(a);
    ChainAtom(pre + Node(BRANCH, 0), a, 0, Node(BACK, 0));
    BranchFirst(pre, 0, AtomImage(a, To(0)), Node(BACK, 0));
    LastNode(pre + Node(BRANCH, 0) + AtomImage(a, To(0)), BACK, 3 + AtomSize(a));
  }

  /** Reading and linking the last node emitted. */
  lemma LastNode(pre: seq<Byte>, op: Byte, link: nat)
    ensures Op(pre + Node(op, 0), |pre|) == op && Link(pre + Node(op, 0), |pre|) == 0
    ensures SetLink(pre + Node(op, 0), |pre|, link) == pre + Node(op, link)
  {
    hide Reach, Link, Op, SetLink, Node;
    assert pre + Node(op, 0) + [] == pre + Node(op, 0);
    assert pre + Node(op, link) + [] == pre + Node(op, link);
    NodeInContext(pre, op, 0, []);
    PatchNode(pre, op, 0, [], link);
  }

  /** An unlinked BRANCH is tied to something `link` bytes further on. */
  lemma FirstLink(pre: seq<Byte>, x: seq<Byte>, y: seq<Byte>, link: nat)
    ensures Ties(pre + Node(BRANCH, 0) + x + y, |pre|, |pre|, |pre| + link, pre + Node(BRANCH, link) + x + y)
  {
    hide Reach, Link, Op, SetLink, Node;
    Regroup(pre + Node(BRANCH, 0), x, y, []);
    Regroup(pre + Node(BRANCH, link), x, y, []);
    NodeInContext(pre, BRANCH, 0, x + y);
    ReachSelf(pre + Node(BRANCH, 0) + x + y, |pre|, false);
    PatchNode(pre, BRANCH, 0, x + y, link);
  }

  lemma BeforeLast(pre: seq<Byte>, op: Byte, link: nat, post: seq<Byte>)
    ensures Op(pre + Node(op, 0) + post, |pre|) == op && Link(pre + Node(op, 0) + post, |pre|) == 0
    ensures SetLink(pre + Node(op, 0) + post, |pre|, link) == pre + Node(op, link) + post
  {
    hide Link, Op, SetLink, Node;
    NodeInContext(pre, op, 0, post);
    PatchNode(pre, op, 0, post, link);
  }

  /** The second BRANCH is tied to the final NOTHING. */
  lemma LastLink(pre: seq<Byte>, x: seq<Byte>)
    requires |x| < 65000
    ensures Ties(pre + Node(BRANCH, 3 + |x|) + x + Node(BRANCH, 0) + Node(NOTHING, 0),
                 |pre|, |pre| + 3 + |x|, |pre| + 6 + |x|,
                 pre + Node(BRANCH, 3 + |x|) + x + Node(BRANCH, 3) + Node(NOTHING, 0))
  {
    hide Reach, Link, Op, SetLink, Node;
    var loop := pre + Node(BRANCH, 3 + |x|) + x;
    assert |loop| == |pre| + 3 + |x|;
    assert Reach(loop + Node(BRANCH, 0) + Node(NOTHING, 0), |pre|, |loop|, false) by {
      Regroup(pre + Node(BRANCH, 3 + |x|), x, Node(BRANCH, 0), Node(NOTHING, 0));
      HopNode(pre, BRANCH, 3 + |x|, x + Node(BRANCH, 0) + Node(NOTHING, 0));
    }
    BeforeLast(loop, BRANCH, 3, Node(NOTHING, 0));
  }

  lemma StarDone(pre: seq<Byte>, a: Atom)
    requires !Simple(a)
    ensures pre + Node(BRANCH, 3 + |AtomImage(a, To(0)) + Node(BACK, 3 + AtomSize(a))|)
              + (AtomImage(a, To(0)) + Node(BACK, 3 + AtomSize(a))) + Node(BRANCH, 3) + Node(NOTHING, 0)
         == pre + PieceImage(Piece(a, Star), Open)
  {
    hide AtomImage, AtomSize, Node;
  }

  lemma TieAtom(pre: seq<Byte>, a: Atom, post: seq<Byte>)
    requires AtomSize(a) < 65000
    ensures Ties(pre + AtomImage(a, Open) + post, |pre|, |pre| + AtomTail(a), |pre| + AtomSize(a),
                 pre + AtomImage(a, To(0)) + post)
  {
    hide SetLink, Reach, Link, Op, AtomImage, AtomSize, AtomTail, Node;
    AtomInContext(pre, a, post);
    PatchAtom(pre, a, post, 0);
  }

  lemma TieBack(pre: seq<Byte>, val: nat)
    requires val <= |pre|
    ensures Ties(pre + Node(BACK, 0), |pre|, |pre|, val, pre + Node(BACK, |pre| - val))
  {
    hide SetLink, Reach, Link, Op, Node;
    LastNode(pre, BACK, |pre| - val);
    ReachSelf(pre + Node(BACK, 0), |pre|, false);
  }

  lemma PlusEnd(pre: seq<Byte>, a: Atom)
    requires AtomSize(a) < 65000
    ensures Ties(pre + AtomImage(a, To(0)) + Node(BRANCH, 6) + Node(BACK, 3 + AtomSize(a)) + Node(BRANCH,
      0) + Node(NOTHING, 0),
                 |pre|, |pre| + AtomSize(a) + 6, |pre| + AtomSize(a) + 9,
                 pre + AtomImage(a, To(0)) + Node(BRANCH, 6) + Node(BACK, 3 + AtomSize(a)) + Node(BRANCH,
                   3) + Node(NOTHING, 0))
  {
    hide SetLink, Reach, Link, Op, AtomImage, AtomSize, Node;
    var img, back := AtomImage(a, To(0)), Node(BACK, 3 + AtomSize(a));
    var loop := pre + img + Node(BRANCH, 6) + back;
    var code := loop + Node(BRANCH, 0) + Node(NOTHING, 0);
    assert |loop| == |pre| + AtomSize(a) + 6;
    assert |pre + img| == |pre| + AtomSize(a);
    assert Reach(code, |pre|, |pre| + AtomSize(a), false) by {
      Regroup4(pre + img, Node(BRANCH, 6), back, Node(BRANCH, 0), Node(NOTHING, 0));
      ChainAtom(pre, a, 0, Node(BRANCH, 6) + back + Node(BRANCH, 0) + Node(NOTHING, 0));
    }
    assert Reach(code, |pre + img|, |loop|, false) by {
      Regroup(pre + img + Node(BRANCH, 6), back, Node(BRANCH, 0), Node(NOTHING, 0));
      HopNode(pre + img, BRANCH, 6, back + Node(BRANCH, 0) + Node(NOTHING, 0));
    }
    ReachTrans(code, |pre|, |pre + img|, |loop|, false);
    BeforeLast(loop, BRANCH, 3, Node(NOTHING, 0));
  }

  lemma PlusDone(pre: seq<Byte>, a: Atom)
    requires !Simple(a)
    ensures pre + AtomImage(a, To(0)) + Node(BRANCH, 6) + Node(BACK, 3 + AtomSize(a)) + Node(BRANCH, 3) + Node(NOTHING,
      0)
         == pre + PieceImage(Piece(a, Plus), Open)
  {
    hide AtomImage, AtomSize, Node;
  }

  lemma OptOperand(pre: seq<Byte>, a: Atom)
    requires AtomSize(a) < 65000
    ensures Op(pre + Node(BRANCH, 3 + AtomSize(a)) + AtomImage(a, Open) + Node(BRANCH, 3) + Node(NOTHING, 0),
      |pre|) == BRANCH
    ensures Ties(pre + Node(BRANCH, 3 + AtomSize(a)) + AtomImage(a, Open) + Node(BRANCH, 3) + Node(NOTHING, 0),
                 |pre| + 3, |pre| + 3 + AtomTail(a), |pre| + 6 + AtomSize(a),
                 pre + Node(BRANCH, 3 + AtomSize(a)) + AtomImage(a, To(3)) + Node(BRANCH, 3) + Node(NOTHING, 0))
  {
    hide Ties, Op, AtomImage, AtomSize, AtomTail, Node;
    var head := pre + Node(BRANCH, 3 + AtomSize(a));
    LoopOperand(pre, 3 + AtomSize(a), a, Node(BRANCH, 3) + Node(NOTHING, 0), 3);
    Regroup(head + AtomImage(a, Open), Node(BRANCH, 3), Node(NOTHING, 0), []);
    Regroup(head + AtomImage(a, To(3)), Node(BRANCH, 3), Node(NOTHING, 0), []);
  }

  lemma OptDone(pre: seq<Byte>, a: Atom)
    ensures pre + Node(BRANCH, 3 + AtomSize(a)) + AtomImage(a, To(3)) + Node(BRANCH, 3) + Node(NOTHING, 0)
         == pre + PieceImage(Piece(a, Opt), Open)
  {
    hide AtomImage, AtomSize, Node;
  }

  lemma SimpleDone(pre: seq<Byte>, a: Atom, q: Quant)
    requires Simple(a) && !q.One? && !q.Opt?
    ensures pre + Node(RepeatOp(q), 0) + AtomImage(a, Open) == pre + PieceImage(Piece(a, q), Open)
  {
    hide AtomImage, AtomSize, Node;
  }
}
