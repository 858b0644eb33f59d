/** The object code: instruction formats, the append-only code array with
    back-patching and the return peephole, and the set of listing labels. */
module CodeGen {
  import opened Wrappers
  import opened Source
  import opened Table

  const MAXCODE: int := 200

  datatype OpCode = Lit | Opr | Lod | Sto | Cal | Ret | Ict | Jmp | Jpc | Loda | Stoa | Retp

  datatype Operator = Neg | Add | Sub | Mul | Div | Odd | Eq | Ls | Gr | Neq | LsEq | GrEq | Wrt | Wrl

  /** An instruction word. The first operand word is the value of `lit`,
      `ict`, `jmp` and `jpc`, the level of an address, and the operator
      number of `opr`; the second is the offset of an address. */
  datatype Inst = Inst(op: OpCode, value: int, addr: int)

  /** The all-zero word of the static code array. */
  const Blank: Inst := Inst(Lit, 0, 0)

  function OperatorOrd(p: Operator): int {
    match p
    case Neg => 0 case Add => 1 case Sub => 2 case Mul => 3 case Div => 4
    case Odd => 5 case Eq => 6 case Ls => 7 case Gr => 8 case Neq => 9
    case LsEq => 10 case GrEq => 11 case Wrt => 12 case Wrl => 13
  }

  /** The operator a word encodes, if any. */
  function OperatorOf(n: int): (r: Option<Operator>)
    ensures r.Some? ==> OperatorOrd(r.value) == n
    ensures r.None? <==> n < 0 || n > 13
  {
    if n == 0 then Some(Neg) else if n == 1 then Some(Add) else if n == 2 then Some(Sub)
    else if n == 3 then Some(Mul) else if n == 4 then Some(Div) else if n == 5 then Some(Odd)
    else if n == 6 then Some(Eq) else if n == 7 then Some(Ls) else if n == 8 then Some(Gr)
    else if n == 9 then Some(Neq) else if n == 10 then Some(LsEq) else if n == 11 then Some(GrEq)
    else if n == 12 then Some(Wrt) else if n == 13 then Some(Wrl)
    else None
  }

  /** Encoding an operator and decoding the word gives it back. */
  lemma OperatorRoundTrip(p: Operator)
    ensures OperatorOf(OperatorOrd(p)) == Some(p)
  {
    match p
    case Neg => {} case Add => {} case Sub => {} case Mul => {} case Div => {}
    case Odd => {} case Eq => {} case Ls => {} case Gr => {} case Neq => {}
    case LsEq => {} case GrEq => {} case Wrt => {} case Wrl => {}
  }

  /** The instruction index an instruction refers to in the listing: the
      jump target of `jmp`/`jpc`, the offset word of every addressed
      instruction and of `cal`, nothing for `lit`, `ict` and a valid `opr`.
      An `opr` word that encodes no operator is read as a jump target. */
  function Target(c: Inst): Option<int> {
    match c.op
    case Lit => None
    case Ict => None
    case Opr => if OperatorOf(c.value).Some? then None else Some(c.value)
    case Jmp => Some(c.value)
    case Jpc => Some(c.value)
    case Lod => Some(c.addr)
    case Sto => Some(c.addr)
    case Cal => Some(c.addr)
    case Ret => Some(c.addr)
    case Loda => Some(c.addr)
    case Stoa => Some(c.addr)
    case Retp => Some(c.addr)
  }

  /** Some instruction of `cs` refers to index `x`. */
  predicate Marked(cs: seq<Inst>, x: int) {
    exists j | 0 <= j < |cs| :: Target(cs[j]) == Some(x)
  }

  lemma MarkedSnoc(cs: seq<Inst>, c: Inst, x: int)
    ensures Marked(cs + [c], x) <==> Marked(cs, x) || Target(c) == Some(x)
  {
    if Marked(cs, x) {
      var j :| 0 <= j < |cs| && Target(cs[j]) == Some(x);
      assert (cs + [c])[j] == cs[j];
    }
    if Target(c) == Some(x) {
      assert (cs + [c])[|cs|] == c;
    }
  }

  /** Every jump target and every call target inside the array is labelled. */
  lemma JumpTargetsMarked(cs: seq<Inst>, j: int)
    requires 0 <= j < |cs| && cs[j].op in {Jmp, Jpc, Cal}
    ensures Marked(cs, if cs[j].op == Cal then cs[j].addr else cs[j].value)
  {
    assert Target(cs[j]).Some?;
  }

  class Generator {
    const code: array<Inst>
    /** The index of the last instruction generated; -1 before the first. */
    var cIndex: int

    ghost predicate Valid()
      reads this, code
    {
      && code.Length == MAXCODE
      && -1 <= cIndex < MAXCODE
      && (forall j | cIndex < j < MAXCODE :: code[j] == Blank)
    }

    constructor ()
      ensures Valid() && cIndex == -1 && fresh(code)
    {
      code := new Inst[MAXCODE](_ => Blank);
      cIndex := -1;
    }

    /** The instructions generated so far. */
    ghost function Code(): seq<Inst>
      reads this, code
      requires Valid()
    {
      code[..cIndex + 1]
    }

    /** Where the next instruction goes: one past the instructions
        generated so far. */
    function NextCode(): (i: int)
      reads this, code
      ensures Valid() ==> i == |Code()| <= MAXCODE
    {
      cIndex + 1
    }

    /** One instruction was appended (or the array was full, which is fatal). */
    twostate predicate Emitted(c: Inst, i: int, err: Errors)
      reads this, code, err
      requires old(Valid()) && Valid()
    {
      if old(cIndex) + 1 < MAXCODE then
        && i == old(cIndex) + 1 == cIndex && unchanged(err)
        && code[..cIndex + 1] == old(code[..cIndex + 1]) + [c]
      else
        && err.fatal && err.log == old(err.log) + [Message("too many code")]
        && err.errorNo == old(err.errorNo) + 1
        && cIndex == old(cIndex) && code[..] == old(code[..])
    }

    /** Take the next slot; running past MAXCODE instructions is fatal. */
    method CheckMax(err: Errors)
      requires Valid() && err.Valid() && !err.fatal
      modifies this, err
      ensures err.Valid()
      ensures old(cIndex) + 1 < MAXCODE ==> cIndex == old(cIndex) + 1 && unchanged(err)
      ensures old(cIndex) + 1 >= MAXCODE ==>
        && err.fatal && err.log == old(err.log) + [Message("too many code")]
        && err.errorNo == old(err.errorNo) + 1 && cIndex == old(cIndex)
    {
      if cIndex + 1 < MAXCODE {
        cIndex := cIndex + 1;
        return;
      }
      err.ErrorF("too many code");
    }

    /** Generate `op` with operand `v`. */
    method GenCodeV(op: OpCode, v: int, err: Errors) returns (i: int)
      requires Valid() && err.Valid() && !err.fatal
      modifies this, code, err
      ensures Valid() && err.Valid() && Emitted(Inst(op, v, 0), i, err)
    {
      CheckMax(err);
      i := cIndex;
      if err.fatal {
        return;
      }
      code[cIndex] := code[cIndex].(op := op);
      code[cIndex] := code[cIndex].(value := v);
      assert code[..cIndex + 1] == old(code[..cIndex + 1]) + [Inst(op, v, 0)];
    }

    /** Generate `op` with the address of table entry `ti`. */
    method GenCodeT(op: OpCode, ti: int, tab: SymbolTable, err: Errors) returns (i: int)
      requires Valid() && err.Valid() && !err.fatal && 0 <= ti < tab.nameTable.Length
      modifies this, code, err
      ensures Valid() && err.Valid()
      ensures Emitted(Inst(op, tab.RelAddrOf(ti).level, tab.RelAddrOf(ti).addr), i, err)
    {
      CheckMax(err);
      i := cIndex;
      if err.fatal {
        return;
      }
      var a := tab.RelAddrOf(ti);
      code[cIndex] := code[cIndex].(op := op);
      code[cIndex] := code[cIndex].(value := a.level, addr := a.addr);
      assert code[..cIndex + 1] == old(code[..cIndex + 1]) + [Inst(op, a.level, a.addr)];
    }

    /** Generate the operation `p`. */
    method GenCodeO(p: Operator, err: Errors) returns (i: int)
      requires Valid() && err.Valid() && !err.fatal
      modifies this, code, err
      ensures Valid() && err.Valid() && Emitted(Inst(Opr, OperatorOrd(p), 0), i, err)
    {
      CheckMax(err);
      i := cIndex;
      if err.fatal {
        return;
      }
      code[cIndex] := code[cIndex].(op := Opr);
      code[cIndex] := code[cIndex].(value := OperatorOrd(p));
      assert code[..cIndex + 1] == old(code[..cIndex + 1]) + [Inst(Opr, OperatorOrd(p), 0)];
    }

    /** Generate the return of the current block, `retp` for a procedure
        and `ret` otherwise, with the block level and the parameter count;
        nothing when the last instruction is already a `ret`. */
    method GenCodeR(forProc: bool, tab: SymbolTable, err: Errors) returns (i: int)
      requires Valid() && err.Valid() && !err.fatal && 0 <= cIndex
      requires tab.Valid() && 0 <= tab.level
      modifies this, code, err
      ensures Valid() && err.Valid()
      ensures old(code[cIndex].op) == Ret ==>
        i == cIndex == old(cIndex) && unchanged(code) && unchanged(err)
      ensures old(code[cIndex].op) != Ret ==>
        Emitted(Inst(if forProc then Retp else Ret, tab.BLevel(), tab.FPars()), i, err)
    {
      if code[cIndex].op == Ret {
        return cIndex;
      }
      CheckMax(err);
      i := cIndex;
      if err.fatal {
        return;
      }
      var c := Inst(if forProc then Retp else Ret, tab.BLevel(), tab.FPars());
      code[cIndex] := code[cIndex].(op := c.op);
      code[cIndex] := code[cIndex].(value := c.value);
      code[cIndex] := code[cIndex].(addr := c.addr);
      assert code[..cIndex + 1] == old(code[..cIndex + 1]) + [c];
    }

    /** Point the jump at `i` to the next instruction to be generated. */
    method BackPatch(i: int)
      requires Valid() && 0 <= i <= cIndex
      modifies code
      ensures Valid()
      ensures code[..cIndex + 1] == old(code[..cIndex + 1])[i := old(code[i]).(value := cIndex + 1)]
    {
      code[i] := code[i].(value := cIndex + 1);
    }

    /** The marks of the listing: index `x` is labelled exactly when some
        generated instruction refers to it. References outside the array
        mark nothing. */
    method ListLabels() returns (labels: seq<bool>)
      requires Valid()
      ensures |labels| == MAXCODE
      ensures forall x | 0 <= x < MAXCODE :: labels[x] <==> Marked(code[..cIndex + 1], x)
    {
      var ref := new bool[MAXCODE](_ => false);
      for i := 0 to cIndex + 1
        invariant forall x | 0 <= x < MAXCODE :: !ref[x]
      {
        ref[i] := false;
      }
      for i := 0 to cIndex + 1
        invariant forall x | 0 <= x < MAXCODE :: ref[x] <==> Marked(code[..i], x)
      {
        UpdateRef(ref, i);
        forall x | 0 <= x < MAXCODE
          ensures ref[x] <==> Marked(code[..i + 1], x)
        {
          assert code[..i + 1] == code[..i] + [code[i]];
          MarkedSnoc(code[..i], code[i], x);
        }
      }
      labels := ref[..];
    }

    /** Mark the index instruction `i` refers to. */
    method UpdateRef(ref: array<bool>, i: int)
      requires Valid() && ref.Length == MAXCODE && 0 <= i < MAXCODE
      modifies ref
      ensures forall x | 0 <= x < MAXCODE :: ref[x] == (old(ref[x]) || Target(code[i]) == Some(x))
    {
      var flag: int;
      match code[i].op {
        case Lit => flag := 1;
        case Opr => flag := 3;
        case Lod => flag := 2;
        case Sto => flag := 2;
        case Cal => flag := 5;
        case Ret => flag := 2;
        case Ict => flag := 1;
        case Jmp => flag := 4;
        case Jpc => flag := 4;
        case Loda => flag := 2;
        case Stoa => flag := 2;
        case Retp => flag := 2;
      }
      if flag == 3 && OperatorOf(code[i].value).Some? {
        return;
      }
      if flag == 3 {
        flag := 4;
      }
      if flag == 1 {
        return;
      }
      var x := if flag == 4 then code[i].value else code[i].addr;
      if 0 <= x < MAXCODE {
        ref[x] := true;
      }
    }
  }
}
