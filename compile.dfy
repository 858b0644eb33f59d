/** The recursive-descent parser that emits code as it reads: blocks,
    declarations, statements, expressions and conditions. */
module Compile {
  import opened Wrappers
  import opened Tokens
  import opened Source
  import opened Table
  import opened CodeGen

  /** Fewer diagnostics than this and the program is run. */
  const MINERROR: int := 3
  /** The address of the first variable of every block: the two cells below
      it hold the saved display entry and the return address. */
  const FIRSTADDR: int := 2

  /** The tokens that can begin a statement. */
  predicate IsStBeginKey(k: KeyId) {
    k == Begin || k == Call || k == Do || k == For || k == Id || k == If || k == Repeat
    || k == KeyId.Ret || k == Unless || k == While || k == Write || k == WriteLn
  }

  predicate IsRelOp(k: KeyId) {
    k == Equal || k == Lss || k == Gtr || k == NotEq || k == LssEq || k == GtrEq
  }

  /** The operator a relational token compiles to. */
  function RelOp(k: KeyId): (p: Operator)
    requires IsRelOp(k)
  {
    match k
    case Equal => Eq
    case Lss => Ls
    case Gtr => Gr
    case NotEq => Neq
    case LssEq => LsEq
    case GtrEq => GrEq
  }

  /** An expression as the parser reads it. Each leaf keeps the token it was
      read from and the instructions it compiled to; each inner node keeps
      its punctuation and operator tokens. */
  datatype Expr =
    | Number(tok: Token)
      /** A constant or a variable: `lit` or `lod`. */
    | Named(tok: Token, load: Inst)
      /** An element `x[e]`: `lod` of the array, the index, then `loda`. */
    | Indexed(tok: Token, load: Inst, open: Token, index: Expr, close: Token, fetch: Inst)
      /** A function call `f(e, ...)`: the arguments, then `cal`. */
    | Applied(tok: Token, open: Token, args: Args, close: Token, call: Inst)
      /** A token no factor begins with, or a procedure name: nothing is
          read and nothing is emitted. */
    | Absent
    | Paren(open: Token, inner: Expr, close: Token)
      /** A leading + or -. */
    | Signed(sign: Token, operand: Expr)
    | Binary(op: Operator, opTok: Token, left: Expr, right: Expr)

  /** An argument list, built from the left as it is read. */
  datatype Args = NoArgs | FirstArg(arg: Expr) | NextArg(prev: Args, comma: Token, arg: Expr)

  /** The tokens the expression was read from, in order. */
  function TokensOf(e: Expr): seq<Token> {
    match e
    case Number(t) => [t]
    case Named(t, _) => [t]
    case Indexed(t, _, o, x, c, _) => [t, o] + TokensOf(x) + [c]
    case Applied(t, o, a, c, _) => [t] + (([o] + ArgsTokens(a)) + [c])
    case Absent => []
    case Paren(o, x, c) => [o] + TokensOf(x) + [c]
    case Signed(s, x) => [s] + TokensOf(x)
    case Binary(_, t, l, r) => TokensOf(l) + ([t] + TokensOf(r))
  }

  function ArgsTokens(a: Args): seq<Token> {
    match a
    case NoArgs => []
    case FirstArg(x) => TokensOf(x)
    case NextArg(p, c, x) => ArgsTokens(p) + [c] + TokensOf(x)
  }

  /** The code of an expression: postfix order, every operator after the
      code of its operands. */
  function CodeOf(e: Expr): seq<Inst> {
    match e
    case Number(t) => [Inst(Lit, t.value, 0)]
    case Named(_, i) => [i]
    case Indexed(_, l, _, x, _, f) => [l] + CodeOf(x) + [f]
    case Applied(_, _, a, _, c) => ArgsCode(a) + [c]
    case Absent => []
    case Paren(_, x, _) => CodeOf(x)
    case Signed(s, x) => CodeOf(x) + if s.kind == Minus then [Inst(Opr, OperatorOrd(Neg), 0)] else []
    case Binary(p, _, l, r) => CodeOf(l) + (CodeOf(r) + [Inst(Opr, OperatorOrd(p), 0)])
  }

  /** The arguments' code, left to right. */
  function ArgsCode(a: Args): seq<Inst> {
    match a
    case NoArgs => []
    case FirstArg(x) => CodeOf(x)
    case NextArg(p, _, x) => ArgsCode(p) + CodeOf(x)
  }

  function ArgCount(a: Args): nat {
    match a
    case NoArgs => 0
    case FirstArg(_) => 1
    case NextArg(p, _, _) => ArgCount(p) + 1
  }

  /** The operator an additive token compiles to. */
  predicate AddingOp(p: Operator, t: Token) {
    (p == Add && t.kind == Plus) || (p == Sub && t.kind == Minus)
  }

  predicate MultiplyingOp(p: Operator, t: Token) {
    (p == Mul && t.kind == Mult) || (p == Operator.Div && t.kind == KeyId.Div)
  }

  /** expression = [+|-] term {(+|-) term}: a left-leaning chain of
      additions whose leftmost operand may carry the sign and whose
      operands are terms. */
  predicate IsExpression(e: Expr)
    decreases e, 2
  {
    match e
    case Binary(p, t, l, r) => (AddingOp(p, t) && IsExpression(l) && IsTerm(r)) || IsTerm(e)
    case Signed(s, x) => (s.kind == Plus || s.kind == Minus) && IsTerm(x)
    case _ => IsTerm(e)
  }

  /** term = factor {(*|/) factor}: a left-leaning chain of products. */
  predicate IsTerm(e: Expr)
    decreases e, 1
  {
    match e
    case Binary(p, t, l, r) => MultiplyingOp(p, t) && IsTerm(l) && IsFactor(r)
    case _ => IsFactor(e)
  }

  predicate IsFactor(e: Expr)
    decreases e, 0
  {
    match e
    case Number(t) => t.kind == Num
    case Named(t, _) => t.kind == Id
    case Indexed(t, _, o, x, c, _) => t.kind == Id && o.kind == Lbracket && c.kind == Rbracket && IsExpression(x)
    case Applied(t, o, a, c, _) => t.kind == Id && o.kind == Lparen && c.kind == Rparen && IsArgs(a)
    case Absent => true
    case Paren(o, x, c) => o.kind == Lparen && c.kind == Rparen && IsExpression(x)
    case Signed(_, _) => false
    case Binary(_, _, _, _) => false
  }

  /** Expressions separated by commas. */
  predicate IsArgs(a: Args)
    decreases a, 0
  {
    match a
    case NoArgs => true
    case FirstArg(x) => IsExpression(x)
    case NextArg(p, c, x) => p != NoArgs && IsArgs(p) && c.kind == Comma && IsExpression(x)
  }

  /** A condition as the parser reads it: "odd" expression, or two
      expressions around a relational operator. */
  datatype Cond = OddTest(oddTok: Token, arg: Expr) | Compare(op: Operator, left: Expr, relTok: Token, right: Expr)

  function CondTokens(c: Cond): seq<Token> {
    match c
    case OddTest(t, e) => [t] + TokensOf(e)
    case Compare(_, l, t, r) => TokensOf(l) + ([t] + TokensOf(r))
  }

  /** The operands' code, then the test. */
  function CondCode(c: Cond): seq<Inst> {
    match c
    case OddTest(_, e) => CodeOf(e) + [Inst(Opr, OperatorOrd(Operator.Odd), 0)]
    case Compare(p, l, _, r) => CodeOf(l) + (CodeOf(r) + [Inst(Opr, OperatorOrd(p), 0)])
  }

  predicate IsCondition(c: Cond) {
    match c
    case OddTest(t, e) => t.kind == KeyId.Odd && IsExpression(e)
    case Compare(p, l, t, r) => IsRelOp(t.kind) && p == RelOp(t.kind) && IsExpression(l) && IsExpression(r)
  }

  // ---- Precedence ----

  /** An operator token or a whole factor, as they follow one another at
      the top level of an expression. */
  datatype Item = OpItem(tok: Token) | FactorItem(factor: Expr)

  /** The top-level operators and factors of an expression, in order. */
  function Flatten(e: Expr): seq<Item> {
    match e
    case Binary(_, t, l, r) => Flatten(l) + ([OpItem(t)] + Flatten(r))
    case Signed(s, x) => [OpItem(s)] + Flatten(x)
    case _ => [FactorItem(e)]
  }

  /** The tokens the items spell. */
  function ItemTokens(items: seq<Item>): seq<Token> {
    if items == [] then []
    else
      var first := match items[0] case OpItem(t) => [t] case FactorItem(f) => TokensOf(f);
      first + ItemTokens(items[1..])
  }

  predicate Additive(it: Item) {
    it.OpItem? && (it.tok.kind == Plus || it.tok.kind == Minus)
  }

  lemma ItemTokensAppend(x: seq<Item>, y: seq<Item>)
    ensures ItemTokens(x + y) == ItemTokens(x) + ItemTokens(y)
  {
    if x != [] {
      assert (x + y)[0] == x[0];
      assert (x + y)[1..] == x[1..] + y;
      ItemTokensAppend(x[1..], y);
    } else {
      assert x + y == y;
    }
  }

  /** The items are a segmentation of the tokens read. */
  lemma {:induction false} FlattenSpells(e: Expr)
    ensures ItemTokens(Flatten(e)) == TokensOf(e)
  {
    match e
    case Binary(_, t, l, r) =>
      FlattenSpells(l);
      FlattenSpells(r);
      ItemTokensAppend(Flatten(l), [OpItem(t)] + Flatten(r));
      ItemTokensAppend([OpItem(t)], Flatten(r));
    case Signed(s, x) =>
      FlattenSpells(x);
      ItemTokensAppend([OpItem(s)], Flatten(x));
    case _ =>
  }

  /** A term has at least one item, the first one a factor, and no + or -
      at its top level. */
  lemma {:induction false} TermItems(e: Expr)
    requires IsTerm(e)
    ensures |Flatten(e)| >= 1 && Flatten(e)[0].FactorItem?
    ensures forall i | 0 <= i < |Flatten(e)| :: !Additive(Flatten(e)[i])
  {
    if e.Binary? {
      TermItems(e.left);
      assert Flatten(e) == Flatten(e.left) + [OpItem(e.opTok), FactorItem(e.right)];
    }
  }

  lemma {:induction false} ExpressionItems(e: Expr)
    requires IsExpression(e)
    ensures |Flatten(e)| >= 1
  {
    match e
    case Binary(_, _, l, _) =>
      if !IsTerm(e) {
        ExpressionItems(l);
      }
    case Signed(_, _) =>
    case _ =>
  }

  /** Terms with the same items are the same term: the product is grouped
      from the left. */
  lemma {:induction false} TermUnique(e1: Expr, e2: Expr)
    requires IsTerm(e1) && IsTerm(e2) && Flatten(e1) == Flatten(e2)
    ensures e1 == e2
  {
    if e1.Binary? {
      TermItems(e1.left);
      assert Flatten(e1) == Flatten(e1.left) + [OpItem(e1.opTok), FactorItem(e1.right)];
      if e2.Binary? {
        TermItems(e2.left);
        assert Flatten(e2) == Flatten(e2.left) + [OpItem(e2.opTok), FactorItem(e2.right)];
        var n := |Flatten(e1)|;
        assert Flatten(e1)[n - 2] == OpItem(e1.opTok) && Flatten(e2)[n - 2] == OpItem(e2.opTok);
        assert Flatten(e1)[n - 1] == FactorItem(e1.right) && Flatten(e2)[n - 1] == FactorItem(e2.right);
        assert Flatten(e1.left) == Flatten(e1)[..n - 2] == Flatten(e2.left);
        TermUnique(e1.left, e2.left);
      } else {
        assert false;
      }
    } else if e2.Binary? {
      assert false;
    }
  }

  lemma ItemAt(l1: seq<Item>, x1: Item, r1: seq<Item>, l2: seq<Item>, x2: Item, r2: seq<Item>)
    requires l1 + ([x1] + r1) == l2 + ([x2] + r2) && |l1| < |l2|
    ensures r1[|l2| - |l1| - 1] == x2
  {
    assert (l1 + ([x1] + r1))[|l2|] == x2;
  }

  lemma SumItem(e: Expr)
    requires e.Binary?
    ensures |Flatten(e.left)| < |Flatten(e)| && Flatten(e)[|Flatten(e.left)|] == OpItem(e.opTok)
  {
  }

  lemma SignedItems(e: Expr)
    requires e.Signed?
    ensures |Flatten(e)| == |Flatten(e.operand)| + 1 && Flatten(e)[0] == OpItem(e.sign)
    ensures forall i | 0 <= i < |Flatten(e.operand)| :: Flatten(e)[i + 1] == Flatten(e.operand)[i]
  {
    var rest := Flatten(e.operand);
    assert Flatten(e) == [OpItem(e.sign)] + rest;
  }

  /** Where the last + or - of an additive expression sits. */
  lemma AdditiveSplit(l1: seq<Item>, t1: Token, r1: seq<Item>, l2: seq<Item>, t2: Token, r2: seq<Item>)
    requires l1 + ([OpItem(t1)] + r1) == l2 + ([OpItem(t2)] + r2)
    requires Additive(OpItem(t1)) && Additive(OpItem(t2))
    requires forall i | 0 <= i < |r1| :: !Additive(r1[i])
    requires forall i | 0 <= i < |r2| :: !Additive(r2[i])
    ensures l1 == l2 && t1 == t2 && r1 == r2
  {
    var s := l1 + ([OpItem(t1)] + r1);
    if |l1| < |l2| {
      ItemAt(l1, OpItem(t1), r1, l2, OpItem(t2), r2);
      assert false;
    } else if |l2| < |l1| {
      ItemAt(l2, OpItem(t2), r2, l1, OpItem(t1), r1);
      assert false;
    }
    assert l1 == s[..|l1|] == l2;
    assert s[|l1|] == OpItem(t1) == OpItem(t2);
    assert r1 == s[|l1| + 1..] == r2;
  }

  /** A sum or difference at the root has a + or - after its first item,
      which neither a signed term nor a term has there. */
  lemma SumIsNotTerm(s: Expr, o: Expr)
    requires IsExpression(s) && s.Binary? && AddingOp(s.op, s.opTok)
    requires IsExpression(o) && !(o.Binary? && AddingOp(o.op, o.opTok))
    ensures Flatten(s) != Flatten(o)
  {
    ExpressionItems(s.left);
    SumItem(s);
    if o.Signed? {
      TermItems(o.operand);
      SignedItems(o);
    } else {
      TermItems(o);
    }
  }

  /** A signed term starts with its sign, a term with a factor. */
  lemma SignedIsNotTerm(s: Expr, o: Expr)
    requires s.Signed? && IsTerm(o)
    ensures Flatten(s) != Flatten(o)
  {
    TermItems(o);
    SignedItems(s);
  }

  /** Precedence and left association leave no choice: two expressions
      with the same top-level operators and factors are the same tree. So
      the root of an expression is its last top-level + or -, if any, and
      otherwise its last * or /. */
  lemma {:induction false} ParseUnique(e1: Expr, e2: Expr)
    requires IsExpression(e1) && IsExpression(e2) && Flatten(e1) == Flatten(e2)
    ensures e1 == e2
  {
    var sum1 := e1.Binary? && AddingOp(e1.op, e1.opTok);
    var sum2 := e2.Binary? && AddingOp(e2.op, e2.opTok);
    if sum1 && sum2 {
      TermItems(e1.right);
      TermItems(e2.right);
      AdditiveSplit(Flatten(e1.left), e1.opTok, Flatten(e1.right), Flatten(e2.left), e2.opTok, Flatten(e2.right));
      ParseUnique(e1.left, e2.left);
      TermUnique(e1.right, e2.right);
    } else if sum1 {
      SumIsNotTerm(e1, e2);
    } else if sum2 {
      SumIsNotTerm(e2, e1);
    } else if e1.Signed? && e2.Signed? {
      assert Flatten(e1.operand) == Flatten(e1)[1..] == Flatten(e2.operand);
      TermUnique(e1.operand, e2.operand);
    } else if e1.Signed? {
      SignedIsNotTerm(e1, e2);
    } else if e2.Signed? {
      SignedIsNotTerm(e2, e1);
    } else {
      TermUnique(e1, e2);
    }
  }

  /** The parser: the token stream it reads, the diagnostic counter, the
      name table and the code array it fills, and the current token. */
  /** The loads of a variable or parameter `t` at entry `x`: `lod`, and for
      an element the index and `loda` after it. */
  ghost predicate VarLeaf(e: Expr, t: Token, x: Entry) {
    || e == Named(t, Inst(Lod, x.lv, x.addr))
    || (e.Indexed? && e.tok == t && e.load == Inst(Lod, x.lv, x.addr) && e.fetch == Inst(Loda, x.lv, x.addr))
  }

  /** The factor a name `t` compiles to, by the kind of the entry `x` it was
      found at: the loads of a variable or parameter, `lit` of a constant's
      value, the `cal` of a function with its arguments, and nothing for a
      procedure. */
  ghost predicate NameLeaf(e: Expr, t: Token, x: Entry) {
    if x.kind == VarId || x.kind == ParId then VarLeaf(e, t, x)
    else if x.kind == ConstId then e == Named(t, Inst(Lit, x.lv, 0))
    else if x.kind == FuncId then e.Applied? && e.tok == t && e.call == Inst(Cal, x.lv, x.addr)
    else e == Absent
  }

  /** The code of a name's factor, by its entry: it starts with `lod` of a
      variable or parameter and, for an element, ends with `loda`; it is
      `lit` of a constant's value; it ends with the function's `cal`; and a
      procedure name emits nothing. */
  lemma NameLeafCode(e: Expr, t: Token, x: Entry)
    requires NameLeaf(e, t, x)
    ensures |CodeOf(e)| == 0 <==> x.kind == ProcId
    ensures x.kind == VarId || x.kind == ParId ==>
      CodeOf(e)[0] == Inst(Lod, x.lv, x.addr) && (e.Indexed? ==> CodeOf(e)[|CodeOf(e)| - 1] == Inst(Loda, x.lv, x.addr))
    ensures x.kind == ConstId ==> CodeOf(e) == [Inst(Lit, x.lv, 0)]
    ensures x.kind == FuncId ==> CodeOf(e)[|CodeOf(e)| - 1] == Inst(Cal, x.lv, x.addr)
  {
  }

  class Parser {
    const ts: TokenStream
    const err: Errors
    const tab: SymbolTable
    const gen: Generator
    var token: Token

    ghost predicate Valid()
      reads this, ts, err, tab, tab.index, gen, gen.code
    {
      ts.Valid() && err.Valid() && tab.Valid() && gen.Valid()
    }

    constructor (ts: TokenStream, err: Errors, tab: SymbolTable, gen: Generator)
      ensures this.ts == ts && this.err == err && this.tab == tab && this.gen == gen
      ensures token == KeyToken(Begin)
    {
      this.ts, this.err, this.tab, this.gen := ts, err, tab, gen;
      token := KeyToken(Begin);
    }

    /** Input and error count only move forward. */
    twostate predicate Moved()
      reads ts, err
    {
      ts.next >= old(ts.next) && err.errorNo >= old(err.errorNo)
    }

    /** The instructions generated before are as they were. */
    twostate predicate CodeKept()
      reads gen, gen.code
    {
      && gen.cIndex >= old(gen.cIndex)
      && forall j | 0 <= j <= old(gen.cIndex) && j < gen.code.Length :: gen.code[j] == old(gen.code[j])
    }

    /** The blocks around the current one are as they were: same level, the
        same saved heights and counters below it, and every entry up to the
        old height unchanged. */
    twostate predicate ScopeKept()
      reads tab, tab.nameTable, tab.index, tab.addr
    {
      && tab.level == old(tab.level) && tab.tIndex >= old(tab.tIndex)
      && (forall l | 0 <= l < old(tab.level) && l < tab.index.Length && l < tab.addr.Length ::
            tab.index[l] == old(tab.index[l]) && tab.addr[l] == old(tab.addr[l]))
      && (forall j | 1 <= j <= old(tab.tIndex) && j < tab.nameTable.Length ::
            tab.nameTable[j] == old(tab.nameTable[j]))
    }

    /** The current token and the tokens not yet read. */
    ghost function Ahead(): seq<Token>
      reads this, ts
      requires ts.Valid()
    {
      [token] + ts.tokens[ts.next..]
    }

    /** No diagnostic was counted and the compilation goes on. */
    twostate predicate Clean()
      reads err
    {
      !err.fatal && err.errorNo == old(err.errorNo)
    }

    /** Exactly the tokens of `e` were read and exactly its code emitted. */
    twostate predicate Compiled(e: Expr)
      reads this, ts, gen, gen.code
      requires old(ts.Valid()) && old(gen.Valid()) && ts.Valid() && gen.Valid()
    {
      old(Ahead()) == TokensOf(e) + Ahead() && gen.Code() == old(gen.Code()) + CodeOf(e)
    }

    /** `ti` is searchT's answer for the name `id` used as `k`, on the table
        as it was before: the newest entry spelled `id`; when there is none,
        after a counted "undef", the variable declared for it on a variable
        use and 0 on any other use. */
    twostate predicate Resolves(ti: int, id: string, k: KindT)
      reads tab, tab.nameTable, err
    {
      && 0 <= old(tab.tIndex) < tab.nameTable.Length
      && var f := Find(old(tab.nameTable[..]), old(tab.tIndex), id);
         if f > 0 then ti == f
         else err.errorNo > old(err.errorNo) && ti == (if k == VarId then old(tab.tIndex) + 1 else 0)
    }

    /** token = nextToken() */
    method Next()
      requires Valid() && !err.fatal
      modifies this, ts, err
      ensures Valid() && Moved()
      ensures !err.fatal ==>
        && ts.next == old(ts.next) + 1 && token == ts.tokens[old(ts.next)]
        && err.log == old(err.log) + ts.diags[old(ts.next)]
        && err.errorNo == old(err.errorNo) + |ts.diags[old(ts.next)]|
        && old(Ahead()) == [old(token)] + Ahead()
    {
      token := ts.NextToken(err);
      if !err.fatal {
        assert ts.tokens[old(ts.next)..] == [token] + ts.tokens[ts.next..];
      }
    }

    /** token = checkGet(token, k) */
    method Expect(k: KeyId)
      requires Valid() && !err.fatal
      modifies this, ts, err
      ensures Valid() && Moved()
      ensures !err.fatal ==> ts.next > old(ts.next) || err.errorNo > old(err.errorNo)
      ensures !err.fatal && old(token.kind) == k ==>
        && ts.next == old(ts.next) + 1 && token == ts.tokens[old(ts.next)]
        && err.log == old(err.log) + ts.diags[old(ts.next)]
        && err.errorNo == old(err.errorNo) + |ts.diags[old(ts.next)]|
        && old(Ahead()) == [old(token)] + Ahead()
      ensures Clean() ==> old(token.kind) == k
    {
      token := ts.CheckGet(token, k, err);
      if !err.fatal && old(token.kind) == k {
        assert ts.tokens[old(ts.next)..] == [token] + ts.tokens[ts.next..];
      }
    }

    method EmitV(op: OpCode, v: int) returns (i: int)
      requires Valid() && !err.fatal
      modifies gen, gen.code, err
      ensures Valid() && Moved() && CodeKept()
      ensures !err.fatal ==>
        && i == old(gen.cIndex) + 1 == gen.cIndex && gen.code[i] == Inst(op, v, 0)
        && err.log == old(err.log) && err.errorNo == old(err.errorNo)
        && gen.Code() == old(gen.Code()) + [Inst(op, v, 0)]
    {
      i := gen.GenCodeV(op, v, err);
      Appended(old(gen.code[..]), gen.code[..], old(gen.cIndex), gen.cIndex);
    }

    method EmitT(op: OpCode, ti: int) returns (i: int)
      requires Valid() && !err.fatal && 0 <= ti < tab.nameTable.Length
      modifies gen, gen.code, err
      ensures Valid() && Moved() && CodeKept()
      ensures !err.fatal ==>
        && i == old(gen.cIndex) + 1 == gen.cIndex
        && gen.code[i] == Inst(op, tab.nameTable[ti].lv, tab.nameTable[ti].addr)
        && err.log == old(err.log) && err.errorNo == old(err.errorNo)
        && gen.Code() == old(gen.Code()) + [Inst(op, tab.nameTable[ti].lv, tab.nameTable[ti].addr)]
    {
      i := gen.GenCodeT(op, ti, tab, err);
      Appended(old(gen.code[..]), gen.code[..], old(gen.cIndex), gen.cIndex);
    }

    method EmitO(p: Operator) returns (i: int)
      requires Valid() && !err.fatal
      modifies gen, gen.code, err
      ensures Valid() && Moved() && CodeKept()
      ensures !err.fatal ==>
        && i == old(gen.cIndex) + 1 == gen.cIndex && gen.code[i] == Inst(Opr, OperatorOrd(p), 0)
        && err.log == old(err.log) && err.errorNo == old(err.errorNo)
        && gen.Code() == old(gen.Code()) + [Inst(Opr, OperatorOrd(p), 0)]
    {
      i := gen.GenCodeO(p, err);
      Appended(old(gen.code[..]), gen.code[..], old(gen.cIndex), gen.cIndex);
    }

    /** genCodeR: a `ret` (or `retp`) unless the last instruction is a `ret`. */
    method EmitR(forProc: bool)
      requires Valid() && !err.fatal && 0 <= gen.cIndex && 0 <= tab.level
      modifies gen, gen.code, err
      ensures Valid() && Moved() && CodeKept()
      ensures !err.fatal ==>
        if old(gen.code[gen.cIndex].op) == OpCode.Ret then gen.cIndex == old(gen.cIndex)
        else
          && gen.cIndex == old(gen.cIndex) + 1
          && gen.code[gen.cIndex] == Inst(if forProc then Retp else OpCode.Ret, tab.level, tab.FPars())
    {
      var i := gen.GenCodeR(forProc, tab, err);
      Appended(old(gen.code[..]), gen.code[..], old(gen.cIndex), gen.cIndex);
    }

    /** backPatch(i) */
    method Patch(i: int)
      requires Valid() && 0 <= i <= gen.cIndex
      modifies gen.code
      ensures Valid()
      ensures gen.code[i] == old(gen.code[i]).(value := gen.cIndex + 1)
      ensures forall j | 0 <= j < gen.code.Length && j != i :: gen.code[j] == old(gen.code[j])
    {
      gen.BackPatch(i);
      assert forall j | 0 <= j < gen.code.Length && j > gen.cIndex :: gen.code[j] == Blank;
      forall j | 0 <= j <= gen.cIndex
        ensures gen.code[j] == old(gen.code[..gen.cIndex + 1])[i := old(gen.code[i]).(value := gen.cIndex + 1)][j]
      {
        assert gen.code[j] == gen.code[..gen.cIndex + 1][j];
      }
    }

    // ---- Expressions ----

    /** expression: an optional sign, then terms joined by + and -. When no
        diagnostic is counted, `e` is what was read and compiled. */
    method Expression() returns (ghost e: Expr)
      requires Valid() && !err.fatal && 0 <= tab.level
      modifies this, ts, err, tab, tab.nameTable, tab.index, tab.addr, gen, gen.code
      ensures Valid()
      ensures !err.fatal ==> Moved() && CodeKept() && ScopeKept()
      ensures Clean() ==> IsExpression(e) && Compiled(e)
      decreases ts.Remaining(), err.Budget(), 20
    {
      ghost var a0, c0, n0 := Ahead(), gen.Code(), err.errorNo;
      var k := token.kind;
      if k == Plus || k == Minus {
        ghost var sign := token;
        ghost var t := Operand(if k == Minus then Some(Neg) else None);
        e := Signed(sign, t);
      } else {
        e := Term();
      }
      if err.fatal { return; }
      k := token.kind;
      while k == Plus || k == Minus
        invariant Valid() && !err.fatal && Moved() && CodeKept() && ScopeKept()
        invariant k == token.kind
        invariant err.errorNo == n0 ==> IsExpression(e) && a0 == TokensOf(e) + Ahead() && gen.Code() == c0 + CodeOf(e)
        decreases ts.Remaining(), err.Budget()
      {
        ghost var opTok, a1, c1, l := token, Ahead(), gen.Code(), e;
        var p := if k == Minus then Sub else Add;
        ghost var t := Operand(Some(p));
        if err.fatal { return; }
        e := Binary(p, opTok, l, t);
        if err.errorNo == n0 {
          BinaryCompiled(p, opTok, l, t, a0, a1, Ahead(), c0, c1, gen.Code());
        }
        k := token.kind;
      }
    }

    /** Read the sign or operator token, compile a term `t`, then emit the
        operator `p` if there is one (a unary plus has none). */
    method Operand(p: Option<Operator>) returns (ghost t: Expr)
      requires Valid() && !err.fatal && 0 <= tab.level
      modifies this, ts, err, tab, tab.nameTable, tab.index, tab.addr, gen, gen.code
      ensures Valid()
      ensures !err.fatal ==> Moved() && CodeKept() && ScopeKept() && ts.next > old(ts.next)
      ensures Clean() ==>
        && IsTerm(t) && old(Ahead()) == ([old(token)] + TokensOf(t)) + Ahead()
        && gen.Code() == old(gen.Code()) + (CodeOf(t) + if p.Some? then [Inst(Opr, OperatorOrd(p.value), 0)] else [])
      decreases ts.Remaining(), err.Budget(), 09
    {
      ghost var c0, n0 := gen.Code(), err.errorNo;
      t := Absent;
      Next();
      if err.fatal { return; }
      ghost var a1 := Ahead();
      t := Term();
      if err.fatal { return; }
      ghost var c2 := gen.Code();
      if p.Some? {
        var _ := EmitO(p.value);
      }
      if !err.fatal && err.errorNo == n0 {
        ReadThen(old(Ahead()), [old(token)], a1, TokensOf(t), Ahead());
        AppendThen(c0, CodeOf(t), c2, if p.Some? then [Inst(Opr, OperatorOrd(p.value), 0)] else [], gen.Code());
      }
    }

    /** term: factors joined by * and /. */
    method Term() returns (ghost e: Expr)
      requires Valid() && !err.fatal && 0 <= tab.level
      modifies this, ts, err, tab, tab.nameTable, tab.index, tab.addr, gen, gen.code
      ensures Valid()
      ensures !err.fatal ==> Moved() && CodeKept() && ScopeKept()
      ensures Clean() ==> IsTerm(e) && Compiled(e)
      decreases ts.Remaining(), err.Budget(), 18
    {
      ghost var a0, c0, n0 := Ahead(), gen.Code(), err.errorNo;
      e := Factor();
      if err.fatal { return; }
      var k := token.kind;
      while k == Mult || k == KeyId.Div
        invariant Valid() && !err.fatal && Moved() && CodeKept() && ScopeKept()
        invariant k == token.kind
        invariant err.errorNo == n0 ==> IsTerm(e) && a0 == TokensOf(e) + Ahead() && gen.Code() == c0 + CodeOf(e)
        decreases ts.Remaining(), err.Budget()
      {
        ghost var opTok, a1, c1, l := token, Ahead(), gen.Code(), e;
        var p := if k == Mult then Mul else Operator.Div;
        ghost var f := Multiplicand(p);
        if err.fatal { return; }
        e := Binary(p, opTok, l, f);
        if err.errorNo == n0 {
          BinaryCompiled(p, opTok, l, f, a0, a1, Ahead(), c0, c1, gen.Code());
        }
        k := token.kind;
      }
    }

    /** Read the operator token, compile a factor `f`, emit `p`. */
    method Multiplicand(p: Operator) returns (ghost f: Expr)
      requires Valid() && !err.fatal && 0 <= tab.level
      modifies this, ts, err, tab, tab.nameTable, tab.index, tab.addr, gen, gen.code
      ensures Valid()
      ensures !err.fatal ==> Moved() && CodeKept() && ScopeKept() && ts.next > old(ts.next)
      ensures Clean() ==>
        && IsFactor(f) && old(Ahead()) == ([old(token)] + TokensOf(f)) + Ahead()
        && gen.Code() == old(gen.Code()) + (CodeOf(f) + [Inst(Opr, OperatorOrd(p), 0)])
      decreases ts.Remaining(), err.Budget(), 07
    {
      ghost var c0, n0 := gen.Code(), err.errorNo;
      f := Absent;
      Next();
      if err.fatal { return; }
      ghost var a1 := Ahead();
      f := Factor();
      if err.fatal { return; }
      ghost var c2 := gen.Code();
      var _ := EmitO(p);
      if !err.fatal && err.errorNo == n0 {
        ReadThen(old(Ahead()), [old(token)], a1, TokensOf(f), Ahead());
        AppendThen(c0, CodeOf(f), c2, [Inst(Opr, OperatorOrd(p), 0)], gen.Code());
      }
    }

    /** factor, followed by the check that no second factor comes right
        after it (a missing operator, compiled as another factor). */
    method Factor() returns (ghost e: Expr)
      requires Valid() && !err.fatal && 0 <= tab.level
      modifies this, ts, err, tab, tab.nameTable, tab.index, tab.addr, gen, gen.code
      ensures Valid()
      ensures !err.fatal ==> Moved() && CodeKept() && ScopeKept()
      ensures Clean() ==> IsFactor(e) && Compiled(e)
      decreases ts.Remaining(), err.Budget(), 16
    {
      e := Primary();
      if err.fatal { return; }
      if token.kind == Id || token.kind == Num || token.kind == Lparen {
        err.ErrorMissingOp();
        if err.fatal { return; }
        ghost var _ := Factor();
      }
    }

    /** The factor proper: a name, a number or a parenthesised expression.
        Any other token compiles to nothing and is not read. */
    method Primary() returns (ghost e: Expr)
      requires Valid() && !err.fatal && 0 <= tab.level
      modifies this, ts, err, tab, tab.nameTable, tab.index, tab.addr, gen, gen.code
      ensures Valid()
      ensures !err.fatal ==> Moved() && CodeKept() && ScopeKept()
      ensures Clean() ==> IsFactor(e) && Compiled(e)
      decreases ts.Remaining(), err.Budget(), 15
    {
      e := Absent;
      if token.kind == Id {
        ghost var ti;
        ti, e := NameFactor();
      } else if token.kind == Num {
        e := NumberFactor();
      } else if token.kind == Lparen {
        e := ParenFactor();
      }
    }

    /** A number: `lit` of its value. */
    method NumberFactor() returns (ghost e: Expr)
      requires Valid() && !err.fatal && token.kind == Num
      modifies this, ts, err, gen, gen.code
      ensures Valid() && Moved() && CodeKept()
      ensures Clean() ==> e == Number(old(token)) && Compiled(e)
    {
      e := Number(token);
      var _ := EmitV(Lit, token.value);
      if err.fatal { return; }
      Next();
    }

    /** "(" expression ")" */
    method ParenFactor() returns (ghost e: Expr)
      requires Valid() && !err.fatal && 0 <= tab.level && token.kind == Lparen
      modifies this, ts, err, tab, tab.nameTable, tab.index, tab.addr, gen, gen.code
      ensures Valid()
      ensures !err.fatal ==> Moved() && CodeKept() && ScopeKept()
      ensures Clean() ==> IsFactor(e) && Compiled(e)
      decreases ts.Remaining(), err.Budget(), 14
    {
      ghost var o := token;
      e := Absent;
      Next();
      if err.fatal { return; }
      e := ParenRest(o, old(Ahead()));
    }

    /** The expression and ")" after "(" `o`; `a0` is what was ahead
        before `o`. */
    method ParenRest(ghost o: Token, ghost a0: seq<Token>) returns (ghost e: Expr)
      requires Valid() && !err.fatal && 0 <= tab.level && o.kind == Lparen && a0 == [o] + Ahead()
      modifies this, ts, err, tab, tab.nameTable, tab.index, tab.addr, gen, gen.code
      ensures Valid()
      ensures !err.fatal ==> Moved() && CodeKept() && ScopeKept()
      ensures Clean() ==> IsFactor(e) && a0 == TokensOf(e) + Ahead() && gen.Code() == old(gen.Code()) + CodeOf(e)
      decreases ts.Remaining(), err.Budget(), 21
    {
      e := Absent;
      ghost var x := Expression();
      if err.fatal { return; }
      ghost var c, a2 := token, Ahead();
      Expect(Rparen);
      e := Paren(o, x, c);
      if Clean() {
        ParenCompiled(o, x, c, a0, old(Ahead()), a2, Ahead(), old(gen.Code()), gen.Code());
      }
    }

    /** A name in an expression: looked up as a variable use (so an unknown
        name is declared), then compiled by its kind. A procedure name
        compiles to nothing and is not read. */
    method NameFactor() returns (ghost ti: int, ghost e: Expr)
      requires Valid() && !err.fatal && 0 <= tab.level && token.kind == Id
      modifies this, ts, err, tab, tab.nameTable, tab.index, tab.addr, gen, gen.code
      ensures Valid()
      ensures !err.fatal ==> Moved() && CodeKept() && ScopeKept()
      ensures !err.fatal ==> Resolves(ti, old(token).id, VarId) && 1 <= ti <= tab.tIndex
      ensures Clean() ==> IsFactor(e) && Compiled(e) && NameLeaf(e, old(token), tab.nameTable[ti])
      decreases ts.Remaining(), err.Budget(), 14
    {
      e := Absent;
      var i := tab.SearchT(token.id, VarId, err);
      ti := i;
      if err.fatal { return; }
      e := NamedFactor(i);
    }

    /** The factor for the entry `ti` the name was found at. */
    method NamedFactor(ti: int) returns (ghost e: Expr)
      requires Valid() && !err.fatal && 0 <= tab.level && 1 <= ti <= tab.tIndex && token.kind == Id
      modifies this, ts, err, tab, tab.nameTable, tab.index, tab.addr, gen, gen.code
      ensures Valid()
      ensures !err.fatal ==> Moved() && CodeKept() && ScopeKept()
      ensures Clean() ==> IsFactor(e) && Compiled(e) && NameLeaf(e, old(token), old(tab.nameTable[ti]))
      decreases ts.Remaining(), err.Budget(), 13
    {
      e := Absent;
      var k := tab.KindOf(ti);
      if k == VarId || k == ParId {
        e := VarFactor(ti);
      } else if k == ConstId {
        e := ConstFactor(tab.Val(ti));
      } else if k == FuncId {
        e := FuncFactor(ti);
      }
    }

    /** A constant: `lit` of its value. */
    method ConstFactor(v: int) returns (ghost e: Expr)
      requires Valid() && !err.fatal && token.kind == Id
      modifies this, ts, err, gen, gen.code
      ensures Valid() && Moved() && CodeKept()
      ensures Clean() ==> e == Named(old(token), Inst(Lit, v, 0)) && Compiled(e)
    {
      e := Named(token, Inst(Lit, v, 0));
      var _ := EmitV(Lit, v);
      if err.fatal { return; }
      Next();
    }

    /** A function name: the call with its arguments. */
    method FuncFactor(ti: int) returns (ghost e: Expr)
      requires Valid() && !err.fatal && 0 <= tab.level && 1 <= ti <= tab.tIndex && token.kind == Id
      modifies this, ts, err, tab, tab.nameTable, tab.index, tab.addr, gen, gen.code
      ensures Valid()
      ensures !err.fatal ==> Moved() && CodeKept() && ScopeKept()
      ensures Clean() ==> IsFactor(e) && Compiled(e) && e.Applied? && ArgCount(e.args) == tab.ParsOf(ti)
      ensures Clean() ==> e.tok == old(token) && e.call == Inst(Cal, tab.nameTable[ti].lv, tab.nameTable[ti].addr)
      decreases ts.Remaining(), err.Budget(), 12
    {
      ghost var t, c0 := token, gen.Code();
      e := Absent;
      Next();
      if err.fatal { return; }
      ghost var a1 := Ahead();
      ghost var _, _, _, o, a, c := CallTail(ti);
      ghost var call := Inst(Cal, tab.nameTable[ti].lv, tab.nameTable[ti].addr);
      e := Applied(t, o, a, c, call);
      if Clean() {
        AppliedCompiled(t, o, a, c, call, old(Ahead()), a1, Ahead(), c0, gen.Code());
      }
    }

    /** A variable or parameter: `lod`, and for an element `x[e]` the index
        expression and `loda` after it. */
    method VarFactor(ti: int) returns (ghost e: Expr)
      requires Valid() && !err.fatal && 0 <= tab.level && 1 <= ti <= tab.tIndex && token.kind == Id
      modifies this, ts, err, tab, tab.nameTable, tab.index, tab.addr, gen, gen.code
      ensures Valid()
      ensures !err.fatal ==> Moved() && CodeKept() && ScopeKept()
      ensures Clean() ==> IsFactor(e) && Compiled(e) && VarLeaf(e, old(token), tab.nameTable[ti])
      decreases ts.Remaining(), err.Budget(), 12
    {
      ghost var t := token;
      ghost var load := Inst(Lod, tab.nameTable[ti].lv, tab.nameTable[ti].addr);
      e := Named(t, load);
      var _ := EmitT(Lod, ti);
      if err.fatal { return; }
      Next();
      if err.fatal || token.kind != Lbracket { return; }
      e := ElementFactor(ti, t, load, old(Ahead()), old(gen.Code()));
    }

    /** "[" index "]" after the array name `t` and its `load`: the index
        and `loda`. `a0` and `c0` are the tokens and the code before the
        name. */
    method ElementFactor(ti: int, ghost t: Token, ghost load: Inst, ghost a0: seq<Token>, ghost c0: seq<Inst>)
      returns (ghost e: Expr)
      requires Valid() && !err.fatal && 0 <= tab.level && 0 <= ti <= tab.tIndex && token.kind == Lbracket
      requires t.kind == Id && a0 == [t] + Ahead() && gen.Code() == c0 + [load]
      modifies this, ts, err, tab, tab.nameTable, tab.index, tab.addr, gen, gen.code
      ensures Valid()
      ensures !err.fatal ==> Moved() && CodeKept() && ScopeKept()
      ensures Clean() ==> IsFactor(e) && a0 == TokensOf(e) + Ahead() && gen.Code() == c0 + CodeOf(e)
      ensures Clean() ==>
        e.Indexed? && e.tok == t && e.load == load && e.fetch == Inst(Loda, tab.nameTable[ti].lv, tab.nameTable[ti].addr)
      decreases ts.Remaining(), err.Budget(), 11
    {
      ghost var o := token;
      e := Absent;
      Next();
      if err.fatal { return; }
      ghost var a1, c1 := Ahead(), gen.Code();
      ghost var x, f, c := Element(ti, Loda);
      e := Indexed(t, load, o, x, c, f);
      if Clean() {
        IndexedCompiled(t, load, o, x, c, f, a0, old(Ahead()), a1, Ahead(), c0, c1, gen.Code());
      }
    }

    /** The index expression `x` of an element of `ti`, the instruction `op`
        on that element, and the closing bracket `c`. */
    method Element(ti: int, op: OpCode) returns (ghost x: Expr, ghost f: Inst, ghost c: Token)
      requires Valid() && !err.fatal && 0 <= tab.level && 0 <= ti <= tab.tIndex
      modifies this, ts, err, tab, tab.nameTable, tab.index, tab.addr, gen, gen.code
      ensures Valid()
      ensures !err.fatal ==> Moved() && CodeKept() && ScopeKept()
      ensures Clean() ==>
        && IsExpression(x) && c.kind == Rbracket && old(Ahead()) == (TokensOf(x) + [c]) + Ahead()
        && f == Inst(op, tab.nameTable[ti].lv, tab.nameTable[ti].addr)
        && gen.Code() == old(gen.Code()) + (CodeOf(x) + [f])
      decreases ts.Remaining(), err.Budget(), 21
    {
      c, f := token, Inst(op, 0, 0);
      x := Expression();
      if err.fatal { return; }
      ghost var a1, c1 := Ahead(), gen.Code();
      f, c := ElementEnd(ti, op);
      if Clean() {
        ReadThen(old(Ahead()), TokensOf(x), a1, [c], Ahead());
        AppendThen(old(gen.Code()), CodeOf(x), c1, [f], gen.Code());
      }
    }

    /** The instruction `op` on the element, then the closing bracket `c`. */
    method ElementEnd(ti: int, op: OpCode) returns (ghost f: Inst, ghost c: Token)
      requires Valid() && !err.fatal && 0 <= ti < tab.nameTable.Length
      modifies this, ts, err, gen, gen.code
      ensures Valid() && Moved() && CodeKept()
      ensures Clean() ==>
        && c.kind == Rbracket && old(Ahead()) == [c] + Ahead()
        && f == Inst(op, tab.nameTable[ti].lv, tab.nameTable[ti].addr) && gen.Code() == old(gen.Code()) + [f]
    {
      f := Inst(op, tab.nameTable[ti].lv, tab.nameTable[ti].addr);
      var _ := EmitT(op, ti);
      c := token;
      if err.fatal { return; }
      Expect(Rbracket);
    }

    /** The argument list and the `cal` of a call of entry `ti`, the name
        already read: arguments in parentheses, counted against the entry's
        parameter count; no parenthesis at all counts as two insertions.
        Without a counted diagnostic the call is `o a c` with as many
        arguments as parameters. */
    method CallTail(ti: int) returns (ghost paren: bool, ghost n: nat, ghost logArgs: seq<Diag>,
                                      ghost o: Token, ghost a: Args, ghost c: Token)
      requires Valid() && !err.fatal && 0 <= tab.level && 0 <= ti <= tab.tIndex
      modifies this, ts, err, tab, tab.nameTable, tab.index, tab.addr, gen, gen.code
      ensures Valid()
      ensures !err.fatal ==> Moved() && CodeKept() && ScopeKept()
      ensures !err.fatal ==>
        && paren == (old(token.kind) == Lparen)
        && gen.cIndex > old(gen.cIndex)
        && gen.code[gen.cIndex] == Inst(Cal, tab.nameTable[ti].lv, tab.nameTable[ti].addr)
        && (paren ==> err.log == logArgs + if tab.ParsOf(ti) != n then [Message("\\#par")] else [])
        && (!paren ==> err.log == old(err.log) + [Insert(Lparen), Insert(Rparen)])
      ensures Clean() ==>
        && paren && o == old(token) && c.kind == Rparen && IsArgs(a) && ArgCount(a) == n == tab.ParsOf(ti)
        && old(Ahead()) == (([o] + ArgsTokens(a)) + [c]) + Ahead()
        && gen.Code() == old(gen.Code()) + (ArgsCode(a) + [Inst(Cal, tab.nameTable[ti].lv, tab.nameTable[ti].addr)])
      decreases ts.Remaining(), err.Budget(), 3
    {
      n, logArgs, o, a, c := 0, [], token, NoArgs, token;
      var hasParen := token.kind == Lparen;
      paren := hasParen;
      if hasParen {
        n, logArgs, a, c := ParenCall(ti);
      } else {
        MissingParens();
        if err.fatal { return; }
        var _ := EmitT(Cal, ti);
      }
    }

    /** The arguments in parentheses, then `cal`. */
    method ParenCall(ti: int) returns (ghost n: nat, ghost logArgs: seq<Diag>, ghost a: Args, ghost c: Token)
      requires Valid() && !err.fatal && 0 <= tab.level && 0 <= ti <= tab.tIndex && token.kind == Lparen
      modifies this, ts, err, tab, tab.nameTable, tab.index, tab.addr, gen, gen.code
      ensures Valid()
      ensures !err.fatal ==> Moved() && CodeKept() && ScopeKept()
      ensures !err.fatal ==>
        && gen.cIndex > old(gen.cIndex)
        && gen.code[gen.cIndex] == Inst(Cal, tab.nameTable[ti].lv, tab.nameTable[ti].addr)
        && err.log == logArgs + if tab.ParsOf(ti) != n then [Message("\\#par")] else []
      ensures Clean() ==>
        && c.kind == Rparen && IsArgs(a) && ArgCount(a) == n == tab.ParsOf(ti)
        && old(Ahead()) == (([old(token)] + ArgsTokens(a)) + [c]) + Ahead()
        && gen.Code() == old(gen.Code()) + (ArgsCode(a) + [Inst(Cal, tab.nameTable[ti].lv, tab.nameTable[ti].addr)])
      decreases ts.Remaining(), err.Budget(), 2
    {
      n, logArgs, a, c := CountedArguments(ti);
      if err.fatal { return; }
      EmitCall(ti, a, old(gen.Code()), Clean());
    }

    /** `cal` for the entry `ti` after the code `c0 + ArgsCode(a)` of the
        arguments, when `ok`. */
    method EmitCall(ti: int, ghost a: Args, ghost c0: seq<Inst>, ghost ok: bool)
      requires Valid() && !err.fatal && 0 <= ti <= tab.tIndex
      requires ok ==> gen.Code() == c0 + ArgsCode(a)
      modifies err, gen, gen.code
      ensures Valid() && Moved() && CodeKept()
      ensures !err.fatal ==>
        && gen.cIndex == old(gen.cIndex) + 1
        && gen.code[gen.cIndex] == Inst(Cal, tab.nameTable[ti].lv, tab.nameTable[ti].addr)
        && err.log == old(err.log) && err.errorNo == old(err.errorNo)
      ensures !err.fatal && ok ==>
        gen.Code() == c0 + (ArgsCode(a) + [Inst(Cal, tab.nameTable[ti].lv, tab.nameTable[ti].addr)])
    {
      ghost var c1 := gen.Code();
      var _ := EmitT(Cal, ti);
      if !err.fatal && ok {
        AppendThen(c0, ArgsCode(a), c1, [Inst(Cal, tab.nameTable[ti].lv, tab.nameTable[ti].addr)], gen.Code());
      }
    }

    /** A call without "(": both parentheses count as inserted. */
    method MissingParens()
      requires Valid() && !err.fatal
      modifies err
      ensures Valid() && Moved()
      ensures !err.fatal ==>
        err.log == old(err.log) + [Insert(Lparen), Insert(Rparen)] && err.errorNo == old(err.errorNo) + 2
    {
      err.ErrorInsert(Lparen);
      if err.fatal { return; }
      err.ErrorInsert(Rparen);
    }

    /** The arguments, then one "\\#par" diagnostic when their number is
        not the parameter count of `ti`. */
    method CountedArguments(ti: int) returns (ghost n: nat, ghost logArgs: seq<Diag>, ghost a: Args, ghost c: Token)
      requires Valid() && !err.fatal && 0 <= tab.level && 0 <= ti <= tab.tIndex && token.kind == Lparen
      modifies this, ts, err, tab, tab.nameTable, tab.index, tab.addr, gen, gen.code
      ensures Valid()
      ensures !err.fatal ==> Moved() && CodeKept() && ScopeKept()
      ensures !err.fatal ==> err.log == logArgs + if tab.ParsOf(ti) != n then [Message("\\#par")] else []
      ensures Clean() ==>
        && c.kind == Rparen && IsArgs(a) && ArgCount(a) == n == tab.ParsOf(ti)
        && old(Ahead()) == (([old(token)] + ArgsTokens(a)) + [c]) + Ahead()
        && gen.Code() == old(gen.Code()) + ArgsCode(a)
      decreases ts.Remaining(), err.Budget(), 1
    {
      var count;
      count, a, c := Arguments();
      n := count;
      logArgs := err.log;
      if err.fatal { return; }
      if tab.ParsOf(ti) != count {
        err.ErrorMessage("\\#par");
      }
    }

    /** "(" [expression {"," expression}] ")", returning the number of
        arguments compiled; `a` are the arguments and `c` the closing
        parenthesis. */
    method Arguments() returns (n: nat, ghost a: Args, ghost c: Token)
      requires Valid() && !err.fatal && 0 <= tab.level && token.kind == Lparen
      modifies this, ts, err, tab, tab.nameTable, tab.index, tab.addr, gen, gen.code
      ensures Valid()
      ensures !err.fatal ==> Moved() && CodeKept() && ScopeKept() && ts.next > old(ts.next)
      ensures Clean() ==>
        && c.kind == Rparen && IsArgs(a) && ArgCount(a) == n
        && old(Ahead()) == (([old(token)] + ArgsTokens(a)) + [c]) + Ahead()
        && gen.Code() == old(gen.Code()) + ArgsCode(a)
      decreases ts.Remaining(), err.Budget(), 0
    {
      ghost var open := token;
      n, a, c := 0, NoArgs, token;
      Next();
      if err.fatal { return; }
      ghost var a1 := Ahead();
      if token.kind == Rparen {
        c := token;
        Next();
        if Clean() {
          ReadThen(old(Ahead()), [open], a1, [c], Ahead());
        }
        return;
      }
      n, a, c := ArgumentList(open, old(Ahead()), old(gen.Code()));
    }

    /** expression {"," expression} ")" after the "(" `open`; `a0` and `c0`
        are the tokens and the code before it. */
    method ArgumentList(ghost open: Token, ghost a0: seq<Token>, ghost c0: seq<Inst>)
      returns (n: nat, ghost a: Args, ghost c: Token)
      requires Valid() && !err.fatal && 0 <= tab.level
      requires a0 == [open] + Ahead() && gen.Code() == c0
      modifies this, ts, err, tab, tab.nameTable, tab.index, tab.addr, gen, gen.code
      ensures Valid()
      ensures !err.fatal ==> Moved() && CodeKept() && ScopeKept()
      ensures Clean() ==>
        && c.kind == Rparen && IsArgs(a) && ArgCount(a) == n
        && a0 == (([open] + ArgsTokens(a)) + [c]) + Ahead() && gen.Code() == c0 + ArgsCode(a)
      decreases ts.Remaining(), err.Budget(), 22
    {
      n, a, c := 0, NoArgs, token;
      ghost var n0 := err.errorNo;
      ghost var comma: Option<Token> := None;
      while true
        invariant Valid() && !err.fatal && Moved() && CodeKept() && ScopeKept()
        invariant comma.None? <==> n == 0
        invariant comma.None? ==> a == NoArgs
        invariant comma.Some? ==> comma.value.kind == Comma && a != NoArgs
        invariant err.errorNo == n0 ==>
          && IsArgs(a) && ArgCount(a) == n
          && a0 == (([open] + ArgsTokens(a)) + Pending(comma)) + Ahead() && gen.Code() == c0 + ArgsCode(a)
        decreases ts.Remaining(), err.Budget()
      {
        var more;
        ghost var sep;
        more, a, sep := ArgumentStep(open, a0, c0, n0, a, comma);
        if err.fatal { return; }
        n := n + 1;
        if !more {
          c := sep;
          return;
        }
        comma := Some(sep);
      }
    }

    /** One argument and what follows it. `prev` are the arguments before
        it and `comma` the comma before it, if any; the invariant of
        `ArgumentList` holds before and after. */
    method ArgumentStep(ghost open: Token, ghost a0: seq<Token>, ghost c0: seq<Inst>, ghost n0: int,
                        ghost prev: Args, ghost comma: Option<Token>)
      returns (more: bool, ghost a: Args, ghost sep: Token)
      requires Valid() && !err.fatal && 0 <= tab.level
      requires comma.None? ==> prev == NoArgs
      requires comma.Some? ==> comma.value.kind == Comma && prev != NoArgs
      requires err.errorNo >= n0
      requires err.errorNo == n0 ==>
        IsArgs(prev) && a0 == (([open] + ArgsTokens(prev)) + Pending(comma)) + Ahead() && gen.Code() == c0 + ArgsCode(prev)
      modifies this, ts, err, tab, tab.nameTable, tab.index, tab.addr, gen, gen.code
      ensures Valid()
      ensures !err.fatal ==> Moved() && CodeKept() && ScopeKept()
      ensures a != NoArgs && (more ==> sep.kind == Comma && (!err.fatal ==> ts.next > old(ts.next)))
      ensures !err.fatal && err.errorNo == n0 ==>
        && IsArgs(a) && ArgCount(a) == ArgCount(prev) + 1 && (more || sep.kind == Rparen)
        && a0 == (([open] + ArgsTokens(a)) + Pending(Some(sep))) + Ahead() && gen.Code() == c0 + ArgsCode(a)
      decreases ts.Remaining(), err.Budget(), 21
    {
      ghost var a1, c1 := Ahead(), gen.Code();
      ghost var x := Expression();
      a, more, sep := Extend(prev, comma, x), false, token;
      if err.fatal { return; }
      ghost var a2 := Ahead();
      more, sep := ArgumentEnd();
      if !err.fatal && err.errorNo == n0 {
        ArgStep(open, prev, comma, x, sep, a0, a1, a2, Ahead(), c0, c1, gen.Code());
      }
    }

    /** After an argument: a comma is read and another argument follows;
        anything else must be the closing parenthesis. */
    method ArgumentEnd() returns (more: bool, ghost sep: Token)
      requires Valid() && !err.fatal
      modifies this, ts, err
      ensures Valid() && Moved()
      ensures more ==> sep.kind == Comma && (!err.fatal ==> ts.next > old(ts.next))
      ensures Clean() ==>
        && sep == old(token) && old(Ahead()) == [sep] + Ahead() && (more || sep.kind == Rparen)
    {
      sep := token;
      more := token.kind == Comma;
      if more {
        Next();
      } else {
        Expect(Rparen);
      }
    }

    // ---- Conditions ----

    /** condition: "odd" expression, or expression relop expression. When
        no diagnostic is counted, `c` is what was read and compiled. */
    method Condition() returns (ghost c: Cond)
      requires Valid() && !err.fatal && 0 <= tab.level
      modifies this, ts, err, tab, tab.nameTable, tab.index, tab.addr, gen, gen.code
      ensures Valid()
      ensures !err.fatal ==> Moved() && CodeKept() && ScopeKept()
      ensures !err.fatal && old(token.kind) == KeyId.Odd ==>
        gen.cIndex > old(gen.cIndex) && gen.code[gen.cIndex] == Inst(Opr, OperatorOrd(Operator.Odd), 0)
      ensures Clean() ==>
        && IsCondition(c) && old(Ahead()) == CondTokens(c) + Ahead() && gen.Code() == old(gen.Code()) + CondCode(c)
      decreases ts.Remaining(), err.Budget(), 24
    {
      if token.kind == KeyId.Odd {
        c := OddCondition();
      } else {
        ghost var _, _, r := Relation();
        c := r;
      }
    }

    /** "odd" expression, then `opr odd`. */
    method OddCondition() returns (ghost c: Cond)
      requires Valid() && !err.fatal && 0 <= tab.level && token.kind == KeyId.Odd
      modifies this, ts, err, tab, tab.nameTable, tab.index, tab.addr, gen, gen.code
      ensures Valid()
      ensures !err.fatal ==> Moved() && CodeKept() && ScopeKept()
      ensures !err.fatal ==>
        gen.cIndex > old(gen.cIndex) && gen.code[gen.cIndex] == Inst(Opr, OperatorOrd(Operator.Odd), 0)
      ensures Clean() ==>
        && IsCondition(c) && old(Ahead()) == CondTokens(c) + Ahead() && gen.Code() == old(gen.Code()) + CondCode(c)
      decreases ts.Remaining(), err.Budget(), 23
    {
      ghost var t := token;
      c := OddTest(t, Absent);
      Next();
      if err.fatal { return; }
      ghost var a1 := Ahead();
      ghost var e := Expression();
      if err.fatal { return; }
      ghost var c2 := gen.Code();
      var _ := EmitO(Operator.Odd);
      c := OddTest(t, e);
      if Clean() {
        ReadThen(old(Ahead()), [t], a1, TokensOf(e), Ahead());
        AppendThen(old(gen.Code()), CodeOf(e), c2, [Inst(Opr, OperatorOrd(Operator.Odd), 0)], gen.Code());
      }
    }

    /** expression relop expression. A token that is no relational operator
        is reported and read anyway, the second expression is compiled, and
        no comparison is emitted. */
    method Relation() returns (ghost k: KeyId, ghost mid: int, ghost c: Cond)
      requires Valid() && !err.fatal && 0 <= tab.level
      modifies this, ts, err, tab, tab.nameTable, tab.index, tab.addr, gen, gen.code
      ensures Valid()
      ensures !err.fatal ==> Moved() && CodeKept() && ScopeKept()
      ensures !err.fatal ==> old(gen.cIndex) <= mid <= gen.cIndex
      ensures !err.fatal && IsRelOp(k) ==>
        gen.cIndex == mid + 1 && gen.code[gen.cIndex] == Inst(Opr, OperatorOrd(RelOp(k)), 0)
      ensures !err.fatal && !IsRelOp(k) ==> gen.cIndex == mid && err.errorNo > old(err.errorNo)
      ensures Clean() ==>
        && IsCondition(c) && old(Ahead()) == CondTokens(c) + Ahead() && gen.Code() == old(gen.Code()) + CondCode(c)
      decreases ts.Remaining(), err.Budget(), 22
    {
      k, mid := token.kind, gen.cIndex;
      ghost var a0, c0, n0 := Ahead(), gen.Code(), err.errorNo;
      ghost var l := Expression();
      c := Compare(Eq, l, token, Absent);
      if err.fatal { return; }
      k := token.kind;
      mid, c := Comparison(l, a0, c0, n0);
    }

    /** The relational operator and the second expression after the first
        expression `l`; `a0`, `c0` and `n0` are the tokens, the code and
        the count before `l`. */
    method Comparison(ghost l: Expr, ghost a0: seq<Token>, ghost c0: seq<Inst>, ghost n0: int)
      returns (ghost mid: int, ghost c: Cond)
      requires Valid() && !err.fatal && 0 <= tab.level && err.errorNo >= n0
      requires err.errorNo == n0 ==> IsExpression(l) && a0 == TokensOf(l) + Ahead() && gen.Code() == c0 + CodeOf(l)
      modifies this, ts, err, tab, tab.nameTable, tab.index, tab.addr, gen, gen.code
      ensures Valid()
      ensures !err.fatal ==> Moved() && CodeKept() && ScopeKept()
      ensures !err.fatal ==> old(gen.cIndex) <= mid <= gen.cIndex
      ensures !err.fatal && IsRelOp(old(token.kind)) ==>
        gen.cIndex == mid + 1 && gen.code[gen.cIndex] == Inst(Opr, OperatorOrd(RelOp(old(token.kind))), 0)
      ensures !err.fatal && !IsRelOp(old(token.kind)) ==> gen.cIndex == mid && err.errorNo > old(err.errorNo)
      ensures !err.fatal && err.errorNo == n0 ==>
        IsCondition(c) && a0 == CondTokens(c) + Ahead() && gen.Code() == c0 + CondCode(c)
      decreases ts.Remaining(), err.Budget(), 21
    {
      var kind := token.kind;
      ghost var t := token;
      mid, c := gen.cIndex, Compare(Eq, l, t, Absent);
      RelOperator(kind);
      if err.fatal { return; }
      if IsRelOp(kind) {
        mid, c := SecondOperand(kind, l, t, a0, c0, n0);
      } else {
        ghost var _ := Expression();
        mid := gen.cIndex;
      }
    }

    /** The second expression of a relation and, after it, the comparison
        `kind` names; the arguments are as for Comparison, with the
        operator `t` already read. */
    method SecondOperand(kind: KeyId, ghost l: Expr, ghost t: Token,
                         ghost a0: seq<Token>, ghost c0: seq<Inst>, ghost n0: int)
      returns (ghost mid: int, ghost c: Cond)
      requires Valid() && !err.fatal && 0 <= tab.level && IsRelOp(kind) && err.errorNo >= n0
      requires err.errorNo == n0 ==>
        && t.kind == kind && IsExpression(l)
        && a0 == TokensOf(l) + ([t] + Ahead()) && gen.Code() == c0 + CodeOf(l)
      modifies this, ts, err, tab, tab.nameTable, tab.index, tab.addr, gen, gen.code
      ensures Valid()
      ensures !err.fatal ==> Moved() && CodeKept() && ScopeKept()
      ensures !err.fatal ==> old(gen.cIndex) <= mid <= gen.cIndex
      ensures !err.fatal ==>
        gen.cIndex == mid + 1 && gen.code[gen.cIndex] == Inst(Opr, OperatorOrd(RelOp(kind)), 0)
      ensures !err.fatal && err.errorNo == n0 ==>
        IsCondition(c) && a0 == CondTokens(c) + Ahead() && gen.Code() == c0 + CondCode(c)
      decreases ts.Remaining(), err.Budget(), 20
    {
      c := Compare(Eq, l, t, Absent);
      ghost var a2, c1 := Ahead(), gen.Code();
      ghost var r := Expression();
      mid := gen.cIndex;
      if err.fatal { return; }
      c := EmitCompare(kind, l, t, r, a0, a2, c0, c1, n0);
    }

    /** The comparison instruction after both operands `l` and `r`; `a2`
        and `c1` are the tokens and the code between them. */
    method EmitCompare(kind: KeyId, ghost l: Expr, ghost t: Token, ghost r: Expr,
                       ghost a0: seq<Token>, ghost a2: seq<Token>, ghost c0: seq<Inst>, ghost c1: seq<Inst>,
                       ghost n0: int)
      returns (ghost c: Cond)
      requires Valid() && !err.fatal && IsRelOp(kind) && err.errorNo >= n0
      requires err.errorNo == n0 ==>
        && t.kind == kind && IsExpression(l) && IsExpression(r)
        && a0 == TokensOf(l) + ([t] + a2) && a2 == TokensOf(r) + Ahead()
        && c1 == c0 + CodeOf(l) && gen.Code() == c1 + CodeOf(r)
      modifies err, gen, gen.code
      ensures Valid() && Moved() && CodeKept()
      ensures !err.fatal ==>
        gen.cIndex == old(gen.cIndex) + 1 && gen.code[gen.cIndex] == Inst(Opr, OperatorOrd(RelOp(kind)), 0)
      ensures !err.fatal && err.errorNo == n0 ==>
        IsCondition(c) && a0 == CondTokens(c) + Ahead() && gen.Code() == c0 + CondCode(c)
    {
      ghost var c2 := gen.Code();
      var _ := EmitO(RelOp(kind));
      c := Compare(RelOp(kind), l, t, r);
      if !err.fatal && err.errorNo == n0 {
        CompareCompiled(RelOp(kind), l, t, r, a0, [t] + a2, a2, Ahead(), c0, c1, c2, gen.Code());
      }
    }

    /** Check and read the operator of a relation. */
    method RelOperator(k: KeyId)
      requires Valid() && !err.fatal && token.kind == k
      modifies this, ts, err
      ensures Valid() && Moved()
      ensures !err.fatal ==> ts.next == old(ts.next) + 1 && old(Ahead()) == [old(token)] + Ahead()
      ensures !err.fatal ==>
        err.log == old(err.log) + (if IsRelOp(k) then [] else [TypeError("rel-op")]) + ts.LexedAt(old(ts.next))
      ensures !err.fatal ==>
        err.errorNo == old(err.errorNo) + (if IsRelOp(k) then 0 else 1) + |ts.LexedAt(old(ts.next))|
    {
      if IsRelOp(k) {
        Next();
        return;
      }
      ghost var ahead := Ahead();
      err.ErrorType("rel-op");
      if err.fatal { return; }
      assert Ahead() == ahead;
      Next();
    }

    // ---- Statements ----

    /** statement: a token that cannot start a statement is deleted and
        the next one tried; "end" and ";" leave an empty statement. */
    method Statement()
      requires Valid() && !err.fatal && 0 <= tab.level && 0 <= gen.cIndex
      modifies this, ts, err, tab, tab.nameTable, tab.index, tab.addr, gen, gen.code
      ensures Valid()
      ensures !err.fatal ==> Moved() && CodeKept() && ScopeKept()
      decreases ts.Remaining(), err.Budget(), 42
    {
      while true
        invariant Valid() && !err.fatal && Moved() && CodeKept() && ScopeKept()
        decreases ts.Remaining(), err.Budget()
      {
        var k := token.kind;
        if IsStBeginKey(k) {
          Construct();
          return;
        } else if k == End || k == Semicolon {
          return;
        }
        err.ErrorDelete(ts.cToken);
        Next();
        if err.fatal { return; }
      }
    }

    /** One statement, chosen by its first token. */
    method Construct()
      requires Valid() && !err.fatal && 0 <= tab.level && 0 <= gen.cIndex && IsStBeginKey(token.kind)
      modifies this, ts, err, tab, tab.nameTable, tab.index, tab.addr, gen, gen.code
      ensures Valid()
      ensures !err.fatal ==> Moved() && CodeKept() && ScopeKept()
      decreases ts.Remaining(), err.Budget(), 41
    {
      var k := token.kind;
      if k == Id {
        ghost var _, _ := Assignment();
      } else if k == If {
        ghost var _, _, _ := IfStatement();
      } else if k == Unless {
        ghost var _ := UnlessStatement();
      } else if k == KeyId.Ret {
        ReturnStatement();
      } else if k == Begin {
        BeginStatement();
      } else if k == While {
        ghost var _ := WhileStatement();
      } else {
        LoopOrCall();
      }
    }

    /** The statements that begin with do, repeat, for, call, write or
        writeln. */
    method LoopOrCall()
      requires Valid() && !err.fatal && 0 <= tab.level && 0 <= gen.cIndex
      requires token.kind in {Do, Repeat, For, Call, Write, WriteLn}
      modifies this, ts, err, tab, tab.nameTable, tab.index, tab.addr, gen, gen.code
      ensures Valid()
      ensures !err.fatal ==> Moved() && CodeKept() && ScopeKept()
      decreases ts.Remaining(), err.Budget(), 40
    {
      var k := token.kind;
      if k == Do {
        DoStatement();
      } else if k == Repeat {
        RepeatStatement();
      } else if k == For {
        ghost var _, _, _ := ForStatement();
      } else if k == Call {
        ghost var _, _ := CallStatement();
      } else if k == Write {
        WriteStatement();
      } else {
        WriteLnStatement();
      }
    }

    /** name [ "[" expression "]" ] ":=" expression, then `sto` (or `stoa`
        for an element) with the address of the name. */
    method Assignment() returns (ghost ti: int, ghost indexed: bool)
      requires Valid() && !err.fatal && 0 <= tab.level && token.kind == Id
      modifies this, ts, err, tab, tab.nameTable, tab.index, tab.addr, gen, gen.code
      ensures Valid()
      ensures !err.fatal ==> Moved() && CodeKept() && ScopeKept()
      ensures !err.fatal ==>
        && 0 <= ti <= tab.tIndex && gen.cIndex > old(gen.cIndex)
        && gen.code[gen.cIndex] == Inst(if indexed then Stoa else Sto, tab.nameTable[ti].lv, tab.nameTable[ti].addr)
      ensures !err.fatal ==>
        && Resolves(ti, old(token).id, VarId)
        && old(ts.next) < |ts.tokens| && (indexed <==> ts.tokens[old(ts.next)].kind == Lbracket)
      decreases ts.Remaining(), err.Budget(), 39
    {
      ti, indexed := 0, false;
      var i := AssignTarget();
      ti := i;
      if err.fatal { return; }
      Next();
      if err.fatal { return; }
      indexed := AssignRest(i);
    }

    /** The name on the left, looked up as a variable; a name of another
        kind than variable or parameter is reported. */
    method AssignTarget() returns (ti: int)
      requires Valid() && !err.fatal
      modifies tab, tab.nameTable, err
      ensures Valid() && Moved() && ScopeKept()
      ensures !err.fatal ==> 0 <= ti <= tab.tIndex && err.errorNo >= old(err.errorNo)
      ensures !err.fatal ==> Resolves(ti, old(token).id, VarId)
      ensures !err.fatal && tab.KindOf(ti) != VarId && tab.KindOf(ti) != ParId ==>
        |err.log| > 0 && err.log[|err.log| - 1] == TypeError("var/par")
    {
      ti := tab.SearchT(token.id, VarId, err);
      if err.fatal { return; }
      var k := tab.KindOf(ti);
      if k != VarId && k != ParId {
        err.ErrorType("var/par");
      }
    }

    /** After the name: an optional subscript, ":=", the value and the
        store; `indexed` tells whether there was a subscript. */
    method AssignRest(ti: int) returns (indexed: bool)
      requires Valid() && !err.fatal && 0 <= tab.level && 0 <= ti <= tab.tIndex
      modifies this, ts, err, tab, tab.nameTable, tab.index, tab.addr, gen, gen.code
      ensures Valid()
      ensures !err.fatal ==> Moved() && CodeKept() && ScopeKept()
      ensures !err.fatal ==>
        && 0 <= ti <= tab.tIndex && gen.cIndex > old(gen.cIndex)
        && gen.code[gen.cIndex] == Inst(if indexed then Stoa else Sto, tab.nameTable[ti].lv, tab.nameTable[ti].addr)
      ensures indexed <==> old(token).kind == Lbracket
      decreases ts.Remaining(), err.Budget(), 38
    {
      indexed := token.kind == Lbracket;
      if indexed {
        Subscript();
        if err.fatal { return; }
      }
      AssignTail(ti, if indexed then Stoa else Sto);
    }

    /** "[" expression "]" */
    method Subscript()
      requires Valid() && !err.fatal && 0 <= tab.level
      modifies this, ts, err, tab, tab.nameTable, tab.index, tab.addr, gen, gen.code
      ensures Valid()
      ensures !err.fatal ==> Moved() && CodeKept() && ScopeKept()
      decreases ts.Remaining(), err.Budget(), 25
    {
      Next();
      if err.fatal { return; }
      ghost var _ := Expression();
      if err.fatal { return; }
      Expect(Rbracket);
    }

    /** ":=" expression, then the store `op` of entry `ti`. */
    method AssignTail(ti: int, op: OpCode)
      requires Valid() && !err.fatal && 0 <= tab.level && 0 <= ti <= tab.tIndex
      modifies this, ts, err, tab, tab.nameTable, tab.index, tab.addr, gen, gen.code
      ensures Valid()
      ensures !err.fatal ==> Moved() && CodeKept() && ScopeKept()
      ensures !err.fatal ==>
        gen.cIndex > old(gen.cIndex) && gen.code[gen.cIndex] == Inst(op, tab.nameTable[ti].lv, tab.nameTable[ti].addr)
      decreases ts.Remaining(), err.Budget(), 25
    {
      Expect(Assign);
      if err.fatal { return; }
      ghost var _ := Expression();
      if err.fatal { return; }
      var _ := EmitT(op, ti);
    }

    /** "if" condition "then": the condition, then a `jpc` still to be
        patched. */
    method IfHead() returns (jpcAt: int)
      requires Valid() && !err.fatal && 0 <= tab.level
      modifies this, ts, err, tab, tab.nameTable, tab.index, tab.addr, gen, gen.code
      ensures Valid()
      ensures !err.fatal ==> Moved() && CodeKept() && ScopeKept() && ts.next > old(ts.next)
      ensures !err.fatal ==>
        old(gen.cIndex) < jpcAt == gen.cIndex && gen.code[jpcAt] == Inst(Jpc, 0, 0)
      decreases ts.Remaining(), err.Budget(), 38
    {
      jpcAt := 0;
      Next();
      if err.fatal { return; }
      ghost var _ := Condition();
      if err.fatal { return; }
      Expect(Then);
      if err.fatal { return; }
      jpcAt := EmitV(Jpc, 0);
    }

    /** if-then: the `jpc` jumps just past the then-branch. if-then-else:
        the `jpc` jumps to the else-branch, just past the `jmp` that ends
        the then-branch, and that `jmp` jumps past the else-branch. */
    method IfStatement() returns (ghost jpcAt: int, ghost hasElse: bool, ghost jmpAt: int)
      requires Valid() && !err.fatal && 0 <= tab.level && 0 <= gen.cIndex && token.kind == If
      modifies this, ts, err, tab, tab.nameTable, tab.index, tab.addr, gen, gen.code
      ensures Valid()
      ensures !err.fatal ==> Moved() && CodeKept() && ScopeKept()
      ensures !err.fatal ==> old(gen.cIndex) < jpcAt <= gen.cIndex
      ensures !err.fatal && !hasElse ==> gen.code[jpcAt] == Inst(Jpc, gen.cIndex + 1, 0)
      ensures !err.fatal && hasElse ==>
        && jpcAt < jmpAt <= gen.cIndex
        && gen.code[jpcAt] == Inst(Jpc, jmpAt + 1, 0)
        && gen.code[jmpAt] == Inst(Jmp, gen.cIndex + 1, 0)
      decreases ts.Remaining(), err.Budget(), 39
    {
      jpcAt, hasElse, jmpAt := 0, false, 0;
      var j := IfHead();
      jpcAt := j;
      if err.fatal { return; }
      Statement();
      if err.fatal { return; }
      hasElse := token.kind == Else;
      if token.kind == Else {
        jmpAt := ElsePart(j);
      } else {
        Patch(j);
      }
    }

    /** "else" statement, after the then-branch whose `jpc` is at `jpcAt`. */
    method ElsePart(jpcAt: int) returns (ghost jmpAt: int)
      requires Valid() && !err.fatal && 0 <= tab.level && 0 <= jpcAt <= gen.cIndex
      requires gen.code[jpcAt] == Inst(Jpc, 0, 0)
      modifies this, ts, err, tab, tab.nameTable, tab.index, tab.addr, gen, gen.code
      ensures Valid()
      ensures !err.fatal ==> Moved() && ScopeKept()
      ensures !err.fatal ==>
        && gen.cIndex >= jmpAt > old(gen.cIndex)
        && (forall j | 0 <= j <= old(gen.cIndex) && j != jpcAt :: gen.code[j] == old(gen.code[j]))
        && gen.code[jpcAt] == Inst(Jpc, jmpAt + 1, 0)
        && gen.code[jmpAt] == Inst(Jmp, gen.cIndex + 1, 0)
      decreases ts.Remaining(), err.Budget(), 38
    {
      jmpAt := 0;
      Next();
      if err.fatal { return; }
      var k := EmitV(Jmp, 0);
      jmpAt := k;
      if err.fatal { return; }
      Patch(jpcAt);
      Statement();
      if err.fatal { return; }
      Patch(k);
    }

    /** unless condition then statement: a `jpc` over a `jmp` that skips
        the statement. */
    method UnlessStatement() returns (ghost jpcAt: int)
      requires Valid() && !err.fatal && 0 <= tab.level && 0 <= gen.cIndex && token.kind == Unless
      modifies this, ts, err, tab, tab.nameTable, tab.index, tab.addr, gen, gen.code
      ensures Valid()
      ensures !err.fatal ==> Moved() && CodeKept() && ScopeKept()
      ensures !err.fatal ==>
        && old(gen.cIndex) < jpcAt && jpcAt + 1 <= gen.cIndex
        && gen.code[jpcAt] == Inst(Jpc, jpcAt + 2, 0)
        && gen.code[jpcAt + 1] == Inst(Jmp, gen.cIndex + 1, 0)
      decreases ts.Remaining(), err.Budget(), 39
    {
      jpcAt := 0;
      var j := UnlessHead();
      jpcAt := j;
      if err.fatal { return; }
      Expect(Then);
      if err.fatal { return; }
      Patch(j);
      Statement();
      if err.fatal { return; }
      Patch(j + 1);
    }

    /** "unless" condition, then a `jpc` and a `jmp`, both to be patched. */
    method UnlessHead() returns (jpcAt: int)
      requires Valid() && !err.fatal && 0 <= tab.level
      modifies this, ts, err, tab, tab.nameTable, tab.index, tab.addr, gen, gen.code
      ensures Valid()
      ensures !err.fatal ==> Moved() && CodeKept() && ScopeKept() && ts.next > old(ts.next)
      ensures !err.fatal ==>
        && old(gen.cIndex) < jpcAt && jpcAt + 1 == gen.cIndex
        && gen.code[jpcAt] == Inst(Jpc, 0, 0) && gen.code[jpcAt + 1] == Inst(Jmp, 0, 0)
      decreases ts.Remaining(), err.Budget(), 38
    {
      jpcAt := 0;
      Next();
      if err.fatal { return; }
      ghost var _ := Condition();
      if err.fatal { return; }
      jpcAt := EmitV(Jpc, 0);
      if err.fatal { return; }
      var _ := EmitV(Jmp, 0);
    }

    /** "return": `retp` in a procedure; otherwise the value, then `ret`. */
    method ReturnStatement()
      requires Valid() && !err.fatal && 0 <= tab.level && 0 <= gen.cIndex && token.kind == KeyId.Ret
      modifies this, ts, err, tab, tab.nameTable, tab.index, tab.addr, gen, gen.code
      ensures Valid()
      ensures !err.fatal ==> Moved() && CodeKept() && ScopeKept()
      ensures !err.fatal ==>
        || gen.code[gen.cIndex].op == OpCode.Ret
        || (tab.InProcedureBlock() && gen.code[gen.cIndex] == Inst(Retp, tab.level, tab.FPars()))
      decreases ts.Remaining(), err.Budget(), 39
    {
      Next();
      if err.fatal { return; }
      if tab.InProcedureBlock() {
        EmitR(true);
      } else {
        ghost var _ := Expression();
        if err.fatal { return; }
        EmitR(false);
      }
    }

    /** "begin" statement { ";" statement } "end", with the recovery of
        `Separator` between statements. */
    method BeginStatement()
      requires Valid() && !err.fatal && 0 <= tab.level && 0 <= gen.cIndex && token.kind == Begin
      modifies this, ts, err, tab, tab.nameTable, tab.index, tab.addr, gen, gen.code
      ensures Valid()
      ensures !err.fatal ==> Moved() && CodeKept() && ScopeKept()
      decreases ts.Remaining(), err.Budget(), 39
    {
      Next();
      if err.fatal { return; }
      while true
        invariant Valid() && !err.fatal && Moved() && CodeKept() && ScopeKept() && ts.next > old(ts.next)
        decreases ts.Remaining(), err.Budget()
      {
        Statement();
        if err.fatal { return; }
        var done := Separator();
        if err.fatal || done { return; }
      }
    }

    /** What may follow a statement inside begin-end: ";" is read and
        another statement follows, "end" is read and the sequence is done,
        a token that starts a statement counts as a missing ";" and is not
        read, and any other token is deleted and the next one examined. */
    method Separator() returns (done: bool)
      requires Valid() && !err.fatal
      modifies this, ts, err
      ensures Valid() && Moved()
      ensures !err.fatal ==> ts.next > old(ts.next) || err.errorNo > old(err.errorNo)
      ensures !err.fatal && old(token.kind) == Semicolon ==>
        !done && ts.next == old(ts.next) + 1 && err.log == old(err.log) + ts.LexedAt(old(ts.next))
      ensures !err.fatal && old(token.kind) == End ==>
        done && ts.next == old(ts.next) + 1 && err.log == old(err.log) + ts.LexedAt(old(ts.next))
      ensures !err.fatal && IsStBeginKey(old(token.kind)) ==>
        !done && ts.next == old(ts.next) && err.log == old(err.log) + [Insert(Semicolon)]
      ensures !err.fatal && old(token.kind) != Semicolon && old(token.kind) != End && !IsStBeginKey(old(token.kind)) ==>
        |err.log| > |old(err.log)| && err.log[..|old(err.log)| + 1] == old(err.log) + [Delete(old(ts.cToken))]
    {
      done := false;
      while true
        invariant Valid() && !err.fatal && Moved()
        invariant ts.next == old(ts.next) ==> token == old(token) && ts.cToken == old(ts.cToken) && err.log == old(err.log)
        invariant ts.next > old(ts.next) ==>
          && old(token.kind) != Semicolon && old(token.kind) != End && !IsStBeginKey(old(token.kind))
          && |err.log| > |old(err.log)| && err.log[..|old(err.log)| + 1] == old(err.log) + [Delete(old(ts.cToken))]
        decreases ts.Remaining()
      {
        ghost var n0, log0, t0 := ts.next, err.log, ts.cToken;
        var stop;
        stop, done := SeparatorStep();
        if stop || err.fatal {
          return;
        }
        if n0 > old(ts.next) {
          assert (log0 + [Delete(t0)] + ts.LexedAt(n0))[..|old(err.log)| + 1] == log0[..|old(err.log)| + 1];
        }
      }
    }

    /** One examination of the token after a statement: stop on ";", "end"
        or a statement-begin token, otherwise delete the token and read the next. */
    method SeparatorStep() returns (stop: bool, done: bool)
      requires Valid() && !err.fatal
      modifies this, ts, err
      ensures Valid() && Moved()
      ensures !err.fatal && old(token.kind) == Semicolon ==>
        stop && !done && ts.next == old(ts.next) + 1 && err.log == old(err.log) + ts.LexedAt(old(ts.next))
      ensures !err.fatal && old(token.kind) == End ==>
        stop && done && ts.next == old(ts.next) + 1 && err.log == old(err.log) + ts.LexedAt(old(ts.next))
      ensures !err.fatal && IsStBeginKey(old(token.kind)) ==>
        stop && !done && ts.next == old(ts.next) && err.log == old(err.log) + [Insert(Semicolon)]
        && err.errorNo > old(err.errorNo)
      ensures old(token.kind) != Semicolon && old(token.kind) != End && !IsStBeginKey(old(token.kind)) ==>
        && !stop
        && (!err.fatal ==> ts.next == old(ts.next) + 1 && err.log == old(err.log) + [Delete(old(ts.cToken))] + ts.LexedAt(old(ts.next)))
    {
      if token.kind == Semicolon || token.kind == End {
        done := token.kind == End;
        Next();
        return true, done;
      }
      done := false;
      stop := SeparatorRepair();
    }

    /** After a statement, neither ";" nor "end": a statement-begin token
        counts as a missing ";", anything else is deleted and skipped. */
    method SeparatorRepair() returns (stop: bool)
      requires Valid() && !err.fatal
      modifies this, ts, err
      ensures Valid() && Moved()
      ensures stop == IsStBeginKey(old(token.kind))
      ensures !err.fatal && stop ==>
        ts.next == old(ts.next) && err.log == old(err.log) + [Insert(Semicolon)]
        && err.errorNo > old(err.errorNo)
      ensures !err.fatal && !stop ==>
        ts.next == old(ts.next) + 1 && err.log == old(err.log) + [Delete(old(ts.cToken))] + ts.LexedAt(old(ts.next))
    {
      stop := IsStBeginKey(token.kind);
      if stop {
        err.ErrorInsert(Semicolon);
      } else {
        err.ErrorDelete(ts.cToken);
        Next();
      }
    }

    /** "while" condition "do": the loop start, the condition and its `jpc`. */
    method WhileHead() returns (start: int, jpcAt: int)
      requires Valid() && !err.fatal && 0 <= tab.level
      modifies this, ts, err, tab, tab.nameTable, tab.index, tab.addr, gen, gen.code
      ensures Valid()
      ensures !err.fatal ==> Moved() && CodeKept() && ScopeKept() && ts.next > old(ts.next)
      ensures !err.fatal ==>
        && start == old(gen.cIndex) + 1 <= jpcAt == gen.cIndex && gen.code[jpcAt] == Inst(Jpc, 0, 0)
      decreases ts.Remaining(), err.Budget(), 38
    {
      start, jpcAt := 0, 0;
      Next();
      start := gen.NextCode();
      if err.fatal { return; }
      ghost var _ := Condition();
      if err.fatal { return; }
      Expect(Do);
      if err.fatal { return; }
      jpcAt := EmitV(Jpc, 0);
    }

    /** while: the test comes first; the body ends in a `jmp` back to the
        test, and the test's `jpc` jumps just past that `jmp`. */
    method WhileStatement() returns (ghost jpcAt: int)
      requires Valid() && !err.fatal && 0 <= tab.level && 0 <= gen.cIndex && token.kind == While
      modifies this, ts, err, tab, tab.nameTable, tab.index, tab.addr, gen, gen.code
      ensures Valid()
      ensures !err.fatal ==> Moved() && CodeKept() && ScopeKept()
      ensures !err.fatal ==>
        && old(gen.cIndex) < jpcAt < gen.cIndex
        && gen.code[jpcAt] == Inst(Jpc, gen.cIndex + 1, 0)
        && gen.code[gen.cIndex] == Inst(Jmp, old(gen.cIndex) + 1, 0)
      decreases ts.Remaining(), err.Budget(), 39
    {
      jpcAt := 0;
      var start, j := WhileHead();
      jpcAt := j;
      if err.fatal { return; }
      Statement();
      if err.fatal { return; }
      var _ := EmitV(Jmp, start);
      if err.fatal { return; }
      Patch(j);
    }

    /** The end of a do-while loop: a `jpc` that leaves the loop, jumping
        just past the `jmp` back to `start` that follows it. */
    method LoopBack(start: int)
      requires Valid() && !err.fatal
      modifies gen, gen.code, err
      ensures Valid() && Moved() && CodeKept()
      ensures !err.fatal ==>
        && gen.cIndex == old(gen.cIndex) + 2
        && gen.code[gen.cIndex - 1] == Inst(Jpc, gen.cIndex + 1, 0)
        && gen.code[gen.cIndex] == Inst(Jmp, start, 0)
    {
      var j := EmitV(Jpc, 0);
      if err.fatal { return; }
      var _ := EmitV(Jmp, start);
      if err.fatal { return; }
      Patch(j);
    }

    /** do statement while condition: the body first, then the test; a true
        condition jumps back to the body. */
    method DoStatement()
      requires Valid() && !err.fatal && 0 <= tab.level && 0 <= gen.cIndex && token.kind == Do
      modifies this, ts, err, tab, tab.nameTable, tab.index, tab.addr, gen, gen.code
      ensures Valid()
      ensures !err.fatal ==> Moved() && CodeKept() && ScopeKept()
      ensures !err.fatal ==>
        && old(gen.cIndex) + 2 <= gen.cIndex
        && gen.code[gen.cIndex - 1] == Inst(Jpc, gen.cIndex + 1, 0)
        && gen.code[gen.cIndex] == Inst(Jmp, old(gen.cIndex) + 1, 0)
      decreases ts.Remaining(), err.Budget(), 39
    {
      Next();
      var start := gen.NextCode();
      if err.fatal { return; }
      Statement();
      if err.fatal { return; }
      DoTail(start);
    }

    /** "while" condition, closing a do loop that starts at `start`. */
    method DoTail(start: int)
      requires Valid() && !err.fatal && 0 <= tab.level
      modifies this, ts, err, tab, tab.nameTable, tab.index, tab.addr, gen, gen.code
      ensures Valid()
      ensures !err.fatal ==> Moved() && CodeKept() && ScopeKept()
      ensures !err.fatal ==>
        && old(gen.cIndex) + 2 <= gen.cIndex
        && gen.code[gen.cIndex - 1] == Inst(Jpc, gen.cIndex + 1, 0)
        && gen.code[gen.cIndex] == Inst(Jmp, start, 0)
      decreases ts.Remaining(), err.Budget(), 38
    {
      DoTest();
      if err.fatal { return; }
      LoopBack(start);
    }

    /** "while" condition after the body of a do loop. */
    method DoTest()
      requires Valid() && !err.fatal && 0 <= tab.level
      modifies this, ts, err, tab, tab.nameTable, tab.index, tab.addr, gen, gen.code
      ensures Valid()
      ensures !err.fatal ==> Moved() && CodeKept() && ScopeKept()
      decreases ts.Remaining(), err.Budget(), 30
    {
      Expect(While);
      if err.fatal { return; }
      ghost var _ := Condition();
    }

    /** repeat statement until condition: a false condition jumps back to
        the body. */
    method RepeatStatement()
      requires Valid() && !err.fatal && 0 <= tab.level && 0 <= gen.cIndex && token.kind == Repeat
      modifies this, ts, err, tab, tab.nameTable, tab.index, tab.addr, gen, gen.code
      ensures Valid()
      ensures !err.fatal ==> Moved() && CodeKept() && ScopeKept()
      ensures !err.fatal ==>
        old(gen.cIndex) < gen.cIndex && gen.code[gen.cIndex] == Inst(Jpc, old(gen.cIndex) + 1, 0)
      decreases ts.Remaining(), err.Budget(), 39
    {
      Next();
      var start := gen.NextCode();
      if err.fatal { return; }
      Statement();
      if err.fatal { return; }
      RepeatTail(start);
    }

    /** "until" condition, then the `jpc` back to `start`. */
    method RepeatTail(start: int)
      requires Valid() && !err.fatal && 0 <= tab.level
      modifies this, ts, err, tab, tab.nameTable, tab.index, tab.addr, gen, gen.code
      ensures Valid()
      ensures !err.fatal ==> Moved() && CodeKept() && ScopeKept()
      ensures !err.fatal ==>
        old(gen.cIndex) < gen.cIndex && gen.code[gen.cIndex] == Inst(Jpc, start, 0)
      decreases ts.Remaining(), err.Budget(), 38
    {
      Expect(Until);
      if err.fatal { return; }
      ghost var _ := Condition();
      if err.fatal { return; }
      var _ := EmitV(Jpc, start);
    }

    /** for init; condition; step do body. The code is laid out as
        init, test, `jpc` out, `jmp` to the body, step, `jmp` to the test,
        body, `jmp` to the step: the `jpc` leaves past the last `jmp`. */
    method ForStatement() returns (ghost test: int, ghost jpcAt: int, ghost stepBack: int)
      requires Valid() && !err.fatal && 0 <= tab.level && 0 <= gen.cIndex && token.kind == For
      modifies this, ts, err, tab, tab.nameTable, tab.index, tab.addr, gen, gen.code
      ensures Valid()
      ensures !err.fatal ==> Moved() && CodeKept() && ScopeKept()
      ensures !err.fatal ==>
        && old(gen.cIndex) < test <= jpcAt && jpcAt + 2 <= stepBack < gen.cIndex
        && gen.code[jpcAt] == Inst(Jpc, gen.cIndex + 1, 0)
        && gen.code[jpcAt + 1] == Inst(Jmp, stepBack + 1, 0)
        && gen.code[stepBack] == Inst(Jmp, test, 0)
        && gen.code[gen.cIndex] == Inst(Jmp, jpcAt + 2, 0)
      decreases ts.Remaining(), err.Budget(), 39
    {
      test, jpcAt, stepBack := 0, 0, 0;
      Next();
      if err.fatal { return; }
      Statement();
      if err.fatal { return; }
      test, jpcAt, stepBack := ForLoop();
    }

    /** Everything after the init statement of a for loop. */
    method ForLoop() returns (ghost test: int, ghost jpcAt: int, ghost stepBack: int)
      requires Valid() && !err.fatal && 0 <= tab.level && 0 <= gen.cIndex
      modifies this, ts, err, tab, tab.nameTable, tab.index, tab.addr, gen, gen.code
      ensures Valid()
      ensures !err.fatal ==> Moved() && CodeKept() && ScopeKept()
      ensures !err.fatal ==>
        && old(gen.cIndex) < test <= jpcAt && jpcAt + 2 <= stepBack < gen.cIndex
        && gen.code[jpcAt] == Inst(Jpc, gen.cIndex + 1, 0)
        && gen.code[jpcAt + 1] == Inst(Jmp, stepBack + 1, 0)
        && gen.code[stepBack] == Inst(Jmp, test, 0)
        && gen.code[gen.cIndex] == Inst(Jmp, jpcAt + 2, 0)
      decreases ts.Remaining(), err.Budget(), 38
    {
      test, jpcAt, stepBack := 0, 0, 0;
      var t, j := ForTest();
      test, jpcAt := t, j;
      if err.fatal { return; }
      stepBack := ForStep(t);
      if err.fatal { return; }
      ForBody(j, j + 2);
    }

    /** ";" condition ";": the test and its `jpc`, still to be patched. */
    method ForTest() returns (test: int, jpcAt: int)
      requires Valid() && !err.fatal && 0 <= tab.level
      modifies this, ts, err, tab, tab.nameTable, tab.index, tab.addr, gen, gen.code
      ensures Valid()
      ensures !err.fatal ==> Moved() && CodeKept() && ScopeKept()
      ensures !err.fatal ==> ts.next > old(ts.next) || err.errorNo > old(err.errorNo)
      ensures !err.fatal ==>
        && old(gen.cIndex) < test <= jpcAt == gen.cIndex && gen.code[jpcAt] == Inst(Jpc, 0, 0)
      decreases ts.Remaining(), err.Budget(), 37
    {
      test, jpcAt := 0, 0;
      Expect(Semicolon);
      test := gen.NextCode();
      if err.fatal { return; }
      jpcAt := TestJump();
      if err.fatal { return; }
      Expect(Semicolon);
    }

    /** A condition and the `jpc` that leaves the loop when it is false. */
    method TestJump() returns (jpcAt: int)
      requires Valid() && !err.fatal && 0 <= tab.level
      modifies this, ts, err, tab, tab.nameTable, tab.index, tab.addr, gen, gen.code
      ensures Valid()
      ensures !err.fatal ==> Moved() && CodeKept() && ScopeKept()
      ensures !err.fatal ==> old(gen.cIndex) < jpcAt == gen.cIndex && gen.code[jpcAt] == Inst(Jpc, 0, 0)
      decreases ts.Remaining(), err.Budget(), 36
    {
      jpcAt := 0;
      ghost var _ := Condition();
      if err.fatal { return; }
      jpcAt := EmitV(Jpc, 0);
    }

    /** The `jmp` over the step, the step statement, and the `jmp` back to
        the test; returns where that last `jmp` is. */
    method ForStep(test: int) returns (stepBack: int)
      requires Valid() && !err.fatal && 0 <= tab.level && 0 <= gen.cIndex
      modifies this, ts, err, tab, tab.nameTable, tab.index, tab.addr, gen, gen.code
      ensures Valid()
      ensures !err.fatal ==> Moved() && ScopeKept()
      ensures !err.fatal ==>
        && old(gen.cIndex) + 2 <= stepBack + 1 == gen.cIndex + 1
        && (forall j | 0 <= j <= old(gen.cIndex) :: gen.code[j] == old(gen.code[j]))
        && gen.code[old(gen.cIndex) + 1] == Inst(Jmp, gen.cIndex + 1, 0)
        && gen.code[stepBack] == Inst(Jmp, test, 0)
      decreases ts.Remaining(), err.Budget(), 43
    {
      stepBack := 0;
      var k := EmitV(Jmp, 0);
      if err.fatal { return; }
      Statement();
      if err.fatal { return; }
      stepBack := EmitV(Jmp, test);
      if err.fatal { return; }
      Patch(k);
    }

    /** "do" body, the `jmp` back to the step at `step`, and the patch of
        the test's `jpc` at `jpcAt`. */
    method ForBody(jpcAt: int, step: int)
      requires Valid() && !err.fatal && 0 <= tab.level && 0 <= jpcAt <= gen.cIndex
      requires gen.code[jpcAt] == Inst(Jpc, 0, 0)
      modifies this, ts, err, tab, tab.nameTable, tab.index, tab.addr, gen, gen.code
      ensures Valid()
      ensures !err.fatal ==> Moved() && ScopeKept()
      ensures !err.fatal ==>
        && old(gen.cIndex) < gen.cIndex
        && (forall j | 0 <= j <= old(gen.cIndex) && j != jpcAt :: gen.code[j] == old(gen.code[j]))
        && gen.code[jpcAt] == Inst(Jpc, gen.cIndex + 1, 0)
        && gen.code[gen.cIndex] == Inst(Jmp, step, 0)
      decreases ts.Remaining(), err.Budget(), 38
    {
      Expect(Do);
      if err.fatal { return; }
      Statement();
      if err.fatal { return; }
      JumpBack(jpcAt, step);
    }

    /** `jmp step`, then the exit `jpc` patched to the instruction after it. */
    method JumpBack(jpcAt: int, step: int)
      requires Valid() && !err.fatal && 0 <= jpcAt <= gen.cIndex
      modifies gen, gen.code, err
      ensures Valid() && Moved()
      ensures !err.fatal ==>
        && gen.cIndex == old(gen.cIndex) + 1
        && (forall j | 0 <= j <= old(gen.cIndex) && j != jpcAt :: gen.code[j] == old(gen.code[j]))
        && gen.code[jpcAt] == old(gen.code[jpcAt]).(value := gen.cIndex + 1)
        && gen.code[gen.cIndex] == Inst(Jmp, step, 0)
    {
      var _ := EmitV(Jmp, step);
      if err.fatal { return; }
      Patch(jpcAt);
    }

    /** call name [ "(" arguments ")" ]: only a procedure can be called;
        any other name is reported and nothing is emitted. `kind` is the
        kind the lookup found. */
    method CallStatement() returns (ghost ti: int, ghost kind: KindT)
      requires Valid() && !err.fatal && 0 <= tab.level && token.kind == Call
      modifies this, ts, err, tab, tab.nameTable, tab.index, tab.addr, gen, gen.code
      ensures Valid()
      ensures !err.fatal ==> Moved() && CodeKept() && ScopeKept()
      ensures !err.fatal ==> 0 <= ti <= tab.tIndex && (1 <= ti ==> tab.KindOf(ti) == kind)
      ensures !err.fatal ==> old(ts.next) < |ts.tokens| && Resolves(ti, ts.tokens[old(ts.next)].id, ProcId)
      ensures !err.fatal && kind == ProcId ==>
        && gen.cIndex > old(gen.cIndex)
        && gen.code[gen.cIndex] == Inst(Cal, tab.nameTable[ti].lv, tab.nameTable[ti].addr)
      ensures !err.fatal && kind != ProcId ==>
        && gen.cIndex == old(gen.cIndex)
        && |err.log| > 0 && err.log[|err.log| - 1] == TypeError("proc")
      decreases ts.Remaining(), err.Budget(), 39
    {
      ti, kind := 0, VarId;
      Next();
      if err.fatal { return; }
      ti, kind := CallProc();
    }

    /** The name of a call statement, looked up as a procedure. */
    method CallProc() returns (ghost ti: int, ghost kind: KindT)
      requires Valid() && !err.fatal && 0 <= tab.level
      modifies this, ts, err, tab, tab.nameTable, tab.index, tab.addr, gen, gen.code
      ensures Valid()
      ensures !err.fatal ==> Moved() && CodeKept() && ScopeKept()
      ensures !err.fatal ==> 0 <= ti <= tab.tIndex && (1 <= ti ==> tab.KindOf(ti) == kind)
      ensures !err.fatal ==> Resolves(ti, old(token).id, ProcId)
      ensures !err.fatal && kind == ProcId ==>
        && gen.cIndex > old(gen.cIndex)
        && gen.code[gen.cIndex] == Inst(Cal, tab.nameTable[ti].lv, tab.nameTable[ti].addr)
      ensures !err.fatal && kind != ProcId ==>
        && gen.cIndex == old(gen.cIndex)
        && |err.log| > 0 && err.log[|err.log| - 1] == TypeError("proc")
      decreases ts.Remaining(), err.Budget(), 38
    {
      var i := ProcLookup();
      ti := i;
      kind := tab.KindOf(i);
      if err.fatal || tab.KindOf(i) != ProcId { return; }
      Next();
      if err.fatal { return; }
      ghost var _, _, _, _, _, _ := CallTail(i);
    }

    /** The entry of the procedure name; any other kind is reported. */
    method ProcLookup() returns (ti: int)
      requires Valid() && !err.fatal
      modifies tab, tab.nameTable, err
      ensures Valid() && 0 <= ti <= tab.tIndex
      ensures !err.fatal ==> Moved() && ScopeKept() && Resolves(ti, old(token).id, ProcId)
      ensures !err.fatal && tab.KindOf(ti) != ProcId ==>
        |err.log| > 0 && err.log[|err.log| - 1] == TypeError("proc")
    {
      ti := tab.SearchT(token.id, ProcId, err);
      if err.fatal { return; }
      if tab.KindOf(ti) != ProcId {
        err.ErrorType("proc");
      }
    }

    /** write expression: the value, then `wrt`. */
    method WriteStatement()
      requires Valid() && !err.fatal && 0 <= tab.level && token.kind == Write
      modifies this, ts, err, tab, tab.nameTable, tab.index, tab.addr, gen, gen.code
      ensures Valid()
      ensures !err.fatal ==> Moved() && CodeKept() && ScopeKept()
      ensures !err.fatal ==>
        gen.cIndex > old(gen.cIndex) && gen.code[gen.cIndex] == Inst(Opr, OperatorOrd(Wrt), 0)
      decreases ts.Remaining(), err.Budget(), 39
    {
      Next();
      if err.fatal { return; }
      ghost var _ := Expression();
      if err.fatal { return; }
      var _ := EmitO(Wrt);
    }

    /** writeln: `wrl`. */
    method WriteLnStatement()
      requires Valid() && !err.fatal && 0 <= tab.level && token.kind == WriteLn
      modifies this, ts, err, tab, tab.nameTable, tab.index, tab.addr, gen, gen.code
      ensures Valid()
      ensures !err.fatal ==> Moved() && CodeKept() && ScopeKept()
      ensures !err.fatal ==>
        && gen.cIndex == old(gen.cIndex) + 1 && gen.code[gen.cIndex] == Inst(Opr, OperatorOrd(Wrl), 0)
        && err.log == old(err.log) + ts.LexedAt(old(ts.next)) && ts.next == old(ts.next) + 1
    {
      Next();
      if err.fatal { return; }
      var _ := EmitO(Wrl);
    }

    // ---- Declarations and blocks ----

    /** block: a `jmp` over the code of the inner functions, the
        declarations, then `BlockBody`. The `jmp` lands on the block's `ict`,
        which is also the address the owning entry `pIndex` now holds. */
    method Block(pIndex: int) returns (ghost jmpAt: int, ghost ictAt: int)
      requires Valid() && !err.fatal && 0 <= tab.level && 0 <= pIndex <= MAXTABLE
      modifies this, ts, err, tab, tab.nameTable, tab.index, tab.addr, gen, gen.code
      ensures Valid()
      ensures !err.fatal ==> Moved() && CodeKept()
      ensures !err.fatal ==>
        && jmpAt == old(gen.cIndex) + 1 && jmpAt < ictAt <= gen.cIndex
        && gen.code[jmpAt] == Inst(Jmp, ictAt, 0)
        && gen.code[ictAt].op == Ict
        && (gen.code[gen.cIndex].op == OpCode.Ret || gen.code[gen.cIndex].op == Retp)
        && (old(tab.level) == 0 ==> gen.code[gen.cIndex].op == OpCode.Ret)
      ensures !err.fatal ==> BlockClosed(pIndex, ictAt)
      decreases ts.Remaining(), err.Budget(), 50
    {
      jmpAt, ictAt := 0, 0;
      var j := EmitV(Jmp, 0);
      jmpAt := j;
      if err.fatal { return; }
      Declarations();
      if err.fatal { return; }
      ictAt := BlockBody(pIndex, j);
    }

    /** What closing a block opened at the old level leaves in the table:
        one level less, the height and the counter the enclosing block had
        saved, the saved values below untouched, and every entry below the
        old height untouched except that the owner `pIndex` now starts at
        `ictAt`. */
    twostate predicate BlockClosed(pIndex: int, ictAt: int)
      reads tab, tab.nameTable, tab.index, tab.addr
    {
      && tab.level == old(tab.level) - 1
      && (0 < old(tab.level) <= tab.index.Length && old(tab.level) <= tab.addr.Length ==>
            && tab.tIndex == old(tab.index[tab.level - 1])
            && tab.localAddr == old(tab.addr[tab.level - 1]))
      && (forall l | 0 <= l < old(tab.level) && l < tab.index.Length && l < tab.addr.Length ::
            tab.index[l] == old(tab.index[l]) && tab.addr[l] == old(tab.addr[l]))
      && (forall j | 1 <= j <= old(tab.tIndex) && j != pIndex && j < tab.nameTable.Length ::
            tab.nameTable[j] == old(tab.nameTable[j]))
      && (1 <= pIndex <= old(tab.tIndex) && pIndex < tab.nameTable.Length ==>
            tab.nameTable[pIndex] == old(tab.nameTable[pIndex]).(addr := ictAt))
    }

    /** After the declarations: patch the `jmp` at `jmpAt` to here, set the
        owner's address to here, reserve the frame with `ict`, compile the
        statement, return, and close the block. */
    method BlockBody(pIndex: int, jmpAt: int) returns (ghost ictAt: int)
      requires Valid() && !err.fatal && 0 <= tab.level && 0 <= pIndex <= MAXTABLE
      requires 0 <= jmpAt <= gen.cIndex && gen.code[jmpAt] == Inst(Jmp, 0, 0)
      modifies this, ts, err, tab, tab.nameTable, tab.index, tab.addr, gen, gen.code
      ensures Valid()
      ensures !err.fatal ==> Moved()
      ensures !err.fatal ==>
        && old(gen.cIndex) < ictAt <= gen.cIndex
        && (forall j | 0 <= j <= old(gen.cIndex) && j != jmpAt :: gen.code[j] == old(gen.code[j]))
        && gen.code[jmpAt] == Inst(Jmp, ictAt, 0)
        && gen.code[ictAt] == Inst(Ict, old(tab.FrameL()), 0)
        && (gen.code[gen.cIndex].op == OpCode.Ret || gen.code[gen.cIndex].op == Retp)
        && (old(tab.level) == 0 ==> gen.code[gen.cIndex].op == OpCode.Ret)
      ensures !err.fatal ==> BlockClosed(pIndex, ictAt)
      decreases ts.Remaining(), err.Budget(), 45
    {
      ictAt := BlockEntry(pIndex, jmpAt);
      if err.fatal { return; }
      Statement();
      if err.fatal { return; }
      BlockExit();
    }

    /** backPatch the skip `jmp`, changeV the owner, and genCodeV(ict, frameL()). */
    method BlockEntry(pIndex: int, jmpAt: int) returns (ictAt: int)
      requires Valid() && !err.fatal && 0 <= pIndex <= MAXTABLE
      requires 0 <= jmpAt <= gen.cIndex && gen.code[jmpAt] == Inst(Jmp, 0, 0)
      modifies tab.nameTable, gen, gen.code, err
      ensures Valid() && Moved()
      ensures !err.fatal ==>
        && ictAt == old(gen.cIndex) + 1 == gen.cIndex
        && (forall j | 0 <= j <= old(gen.cIndex) && j != jmpAt :: gen.code[j] == old(gen.code[j]))
        && gen.code[jmpAt] == Inst(Jmp, ictAt, 0)
        && gen.code[ictAt] == Inst(Ict, tab.FrameL(), 0)
        && tab.nameTable[pIndex] == old(tab.nameTable[pIndex]).(addr := ictAt)
        && (forall j | 0 <= j < tab.nameTable.Length && j != pIndex :: tab.nameTable[j] == old(tab.nameTable[j]))
    {
      Patch(jmpAt);
      tab.ChangeV(pIndex, gen.NextCode());
      ictAt := EmitV(Ict, tab.FrameL());
    }

    /** genCodeR(inProcedureBlock()), then blockEnd(). */
    method BlockExit()
      requires Valid() && !err.fatal && 0 <= tab.level && 0 <= gen.cIndex
      modifies tab, gen, gen.code, err
      ensures Valid() && Moved() && CodeKept()
      ensures tab.level == old(tab.level) - 1
      ensures old(tab.level) > 0 ==> tab.tIndex == tab.index[tab.level] && tab.localAddr == tab.addr[tab.level]
      ensures !err.fatal ==>
        || gen.code[gen.cIndex].op == OpCode.Ret
        || (old(tab.InProcedureBlock()) && gen.code[gen.cIndex] == Inst(Retp, old(tab.level), old(tab.FPars())))
    {
      EmitR(tab.InProcedureBlock());
      tab.BlockEnd();
    }

    /** The declaration part: const, var, function and procedure
        declarations in any order and number. */
    method Declarations()
      requires Valid() && !err.fatal && 0 <= tab.level
      modifies this, ts, err, tab, tab.nameTable, tab.index, tab.addr, gen, gen.code
      ensures Valid()
      ensures !err.fatal ==> Moved() && CodeKept() && ScopeKept()
      decreases ts.Remaining(), err.Budget(), 49
    {
      while true
        invariant Valid() && !err.fatal && Moved() && CodeKept() && ScopeKept()
        decreases ts.Remaining(), err.Budget()
      {
        var k := token.kind;
        var kind;
        if k == Const {
          kind := ConstId;
        } else if k == Var {
          kind := VarId;
        } else if k == Func {
          kind := FuncId;
        } else if k == Proc {
          kind := ProcId;
        } else {
          return;
        }
        Next();
        if err.fatal { return; }
        Declaration(kind);
        if err.fatal { return; }
      }
    }

    /** declaration(kind), the keyword already read. */
    method Declaration(kind: KindT)
      requires Valid() && !err.fatal && 0 <= tab.level
      modifies this, ts, err, tab, tab.nameTable, tab.index, tab.addr, gen, gen.code
      ensures Valid()
      ensures !err.fatal ==> Moved() && CodeKept() && ScopeKept()
      decreases ts.Remaining(), err.Budget(), 48
    {
      if kind == ConstId {
        ConstList();
      } else if kind == VarId {
        VarList();
      } else {
        ghost var _, _, _ := FuncDecl(if kind == FuncId then FuncId else ProcId);
      }
    }

    /** Between the items of a list: "," is read and another item follows; a
        name right after an item counts as a missing "," and is not read;
        anything else ends the list. */
    method ListContinues() returns (more: bool)
      requires Valid() && !err.fatal
      modifies this, ts, err
      ensures Valid() && Moved()
      ensures old(token.kind) == Comma ==>
        more && (!err.fatal ==> ts.next == old(ts.next) + 1 && err.log == old(err.log) + ts.LexedAt(old(ts.next)))
      ensures old(token.kind) == Id ==>
        && more && ts.next == old(ts.next) && token == old(token)
        && err.log == old(err.log) + [Insert(Comma)]
      ensures old(token.kind) != Comma && old(token.kind) != Id ==>
        !more && ts.next == old(ts.next) && token == old(token) && err.log == old(err.log) && !err.fatal
    {
      if token.kind != Comma {
        if token.kind == Id {
          err.ErrorInsert(Comma);
          return true;
        }
        return false;
      }
      Next();
      return true;
    }

    /** const name "=" number {"," name "=" number} ";" */
    method ConstList()
      requires Valid() && !err.fatal && 0 <= tab.level
      modifies this, ts, err, tab, tab.nameTable
      ensures Valid()
      ensures !err.fatal ==> Moved() && ScopeKept() && tab.localAddr == old(tab.localAddr)
    {
      ConstItems();
      if err.fatal { return; }
      Expect(Semicolon);
    }

    /** item {"," item} */
    method ConstItems()
      requires Valid() && !err.fatal && 0 <= tab.level
      modifies this, ts, err, tab, tab.nameTable
      ensures Valid()
      ensures !err.fatal ==> Moved() && ScopeKept() && tab.localAddr == old(tab.localAddr)
    {
      while true
        invariant Valid() && !err.fatal && Moved() && ScopeKept() && tab.localAddr == old(tab.localAddr)
        decreases ts.Remaining(), err.Budget()
      {
        ghost var _ := ConstItem();
        if err.fatal { return; }
        var more := ListContinues();
        if err.fatal { return; }
        if !more { break; }
      }
    }

    /** name "=" number, entering a constant. Without a name, a missing name
        is reported and nothing is read. */
    method ConstItem() returns (ghost entered: bool)
      requires Valid() && !err.fatal && 0 <= tab.level
      modifies this, ts, err, tab, tab.nameTable
      ensures Valid()
      ensures !err.fatal ==> Moved() && ScopeKept() && tab.localAddr == old(tab.localAddr)
      ensures !err.fatal ==> ts.next > old(ts.next) || err.errorNo > old(err.errorNo)
      ensures !err.fatal && old(token.kind) != Id ==>
        !entered && err.log == old(err.log) + [MissingId] && ts.next == old(ts.next) && tab.tIndex == old(tab.tIndex)
      ensures !err.fatal && entered ==>
        && tab.tIndex == old(tab.tIndex) + 1
        && tab.nameTable[tab.tIndex].name == old(token.id) && tab.KindOf(tab.tIndex) == ConstId
    {
      entered := false;
      if token.kind != Id {
        err.ErrorMissingId();
        return;
      }
      var name := token.id;
      Next();
      if err.fatal { return; }
      Expect(Equal);
      if err.fatal { return; }
      entered := ConstValue(name);
    }

    /** The value of a constant: a number is entered with that value,
        anything else is reported as not a number; either way it is read. */
    method ConstValue(name: string) returns (entered: bool)
      requires Valid() && !err.fatal && 0 <= tab.level
      modifies this, ts, err, tab, tab.nameTable
      ensures Valid()
      ensures !err.fatal ==> Moved() && ScopeKept() && tab.localAddr == old(tab.localAddr)
      ensures !err.fatal ==> ts.next == old(ts.next) + 1 && entered == (old(token.kind) == Num)
      ensures !err.fatal && entered ==>
        && tab.tIndex == old(tab.tIndex) + 1 && err.log == old(err.log) + ts.LexedAt(old(ts.next))
        && tab.nameTable[tab.tIndex].name == name
        && tab.KindOf(tab.tIndex) == ConstId && tab.Val(tab.tIndex) == old(token.value)
      ensures !err.fatal && !entered ==>
        tab.tIndex == old(tab.tIndex) && err.log == old(err.log) + [TypeError("number")] + ts.LexedAt(old(ts.next))
    {
      entered := ConstEnter(name);
      if err.fatal { return; }
      Next();
    }

    /** Enter the constant when the token is a number, else report it. */
    method ConstEnter(name: string) returns (entered: bool)
      requires Valid() && !err.fatal && 0 <= tab.level
      modifies tab, tab.nameTable, err
      ensures Valid()
      ensures !err.fatal ==> Moved() && ScopeKept() && tab.localAddr == old(tab.localAddr)
      ensures entered == (token.kind == Num)
      ensures !err.fatal && entered ==>
        && tab.tIndex == old(tab.tIndex) + 1 && err.log == old(err.log)
        && tab.nameTable[tab.tIndex].name == name
        && tab.KindOf(tab.tIndex) == ConstId && tab.Val(tab.tIndex) == token.value
      ensures !err.fatal && !entered ==>
        tab.tIndex == old(tab.tIndex) && err.log == old(err.log) + [TypeError("number")]
    {
      entered := token.kind == Num;
      if entered {
        var _ := tab.EnterTconst(name, token.value, err);
      } else {
        err.ErrorType("number");
      }
    }

    /** var item {"," item} ";" */
    method VarList()
      requires Valid() && !err.fatal && 0 <= tab.level
      modifies this, ts, err, tab, tab.nameTable
      ensures Valid()
      ensures !err.fatal ==> Moved() && ScopeKept()
    {
      VarItems();
      if err.fatal { return; }
      Expect(Semicolon);
    }

    /** item {"," item} */
    method VarItems()
      requires Valid() && !err.fatal && 0 <= tab.level
      modifies this, ts, err, tab, tab.nameTable
      ensures Valid()
      ensures !err.fatal ==> Moved() && ScopeKept()
    {
      while true
        invariant Valid() && !err.fatal && Moved() && ScopeKept()
        decreases ts.Remaining(), err.Budget()
      {
        var more := VarStep();
        if err.fatal { return; }
        if !more { break; }
      }
    }

    /** One item of a variable list and what follows it. */
    method VarStep() returns (more: bool)
      requires Valid() && !err.fatal && 0 <= tab.level
      modifies this, ts, err, tab, tab.nameTable
      ensures Valid()
      ensures !err.fatal ==>
        Moved() && ScopeKept() && (ts.next > old(ts.next) || err.errorNo > old(err.errorNo))
    {
      more := false;
      ghost var _, _ := VarItem();
      if err.fatal { return; }
      more := ListContinues();
    }

    /** name ["[" number "]"]: a variable at the next free address, or an
        array whose cells follow it. Without a name, a missing name is
        reported and nothing is read. */
    method VarItem() returns (ghost ti: int, ghost cells: int)
      requires Valid() && !err.fatal && 0 <= tab.level
      modifies this, ts, err, tab, tab.nameTable
      ensures Valid()
      ensures !err.fatal ==> Moved() && ScopeKept()
      ensures !err.fatal ==> ts.next > old(ts.next) || err.errorNo > old(err.errorNo)
      ensures !err.fatal && old(token.kind) != Id ==>
        err.log == old(err.log) + [MissingId] && ts.next == old(ts.next) && tab.tIndex == old(tab.tIndex)
      ensures !err.fatal && old(token.kind) == Id ==>
        && ti == old(tab.tIndex) + 1 == tab.tIndex
        && tab.nameTable[ti].name == old(token.id) && tab.KindOf(ti) == VarId
        && tab.RelAddrOf(ti) == RelAddr(tab.level, old(tab.localAddr))
        && tab.localAddr == old(tab.localAddr) + cells
        && old(ts.next) < |ts.tokens|
        && (ts.tokens[old(ts.next)].kind != Lbracket ==> cells == 1)
        && (ts.tokens[old(ts.next)].kind == Lbracket ==>
              && old(ts.next) + 1 < |ts.tokens|
              && var size := ts.tokens[old(ts.next) + 1];
                 cells == if size.kind == Num then size.value else 1)
    {
      ti, cells := 0, 1;
      if token.kind != Id {
        err.ErrorMissingId();
        return;
      }
      ti, cells := VarEntry();
    }

    /** A variable name, then "[" size "]" when it is an array. */
    method VarEntry() returns (ghost ti: int, ghost cells: int)
      requires Valid() && !err.fatal && 0 <= tab.level && token.kind == Id
      modifies this, ts, err, tab, tab.nameTable
      ensures Valid()
      ensures !err.fatal ==>
        && Moved() && ScopeKept() && ts.next > old(ts.next)
        && ti == old(tab.tIndex) + 1 == tab.tIndex
        && tab.nameTable[ti].name == old(token.id) && tab.KindOf(ti) == VarId
        && tab.RelAddrOf(ti) == RelAddr(tab.level, old(tab.localAddr))
        && tab.localAddr == old(tab.localAddr) + cells
        && old(ts.next) < |ts.tokens|
        && (ts.tokens[old(ts.next)].kind != Lbracket ==> cells == 1)
        && (ts.tokens[old(ts.next)].kind == Lbracket ==>
              && old(ts.next) + 1 < |ts.tokens|
              && var size := ts.tokens[old(ts.next) + 1];
                 cells == if size.kind == Num then size.value else 1)
    {
      cells := 1;
      ti := VarName();
      if err.fatal || token.kind != Lbracket { return; }
      cells := ArraySize();
    }

    /** The name of a variable: entered at the next free address, then read. */
    method VarName() returns (ti: int)
      requires Valid() && !err.fatal && 0 <= tab.level
      modifies this, ts, err, tab, tab.nameTable
      ensures Valid()
      ensures !err.fatal ==>
        && Moved() && ScopeKept() && err.log == old(err.log) + ts.LexedAt(old(ts.next))
        && ts.next == old(ts.next) + 1 && token == ts.tokens[old(ts.next)]
        && ti == old(tab.tIndex) + 1 == tab.tIndex
        && tab.nameTable[ti].name == old(token.id) && tab.KindOf(ti) == VarId
        && tab.RelAddrOf(ti) == RelAddr(tab.level, old(tab.localAddr))
        && tab.localAddr == old(tab.localAddr) + 1
    {
      ti := tab.EnterTvar(token.id, err);
      if err.fatal { return; }
      Next();
    }

    /** "[" number "]" after an array name: the cells beyond the first are
        reserved. A missing number is reported and reserves nothing. */
    method ArraySize() returns (ghost cells: int)
      requires Valid() && !err.fatal
      modifies this, ts, err, tab
      ensures Valid() && Moved()
      ensures tab.tIndex == old(tab.tIndex) && tab.level == old(tab.level) && tab.tfIndex == old(tab.tfIndex)
      ensures !err.fatal ==>
        && old(ts.next) < |ts.tokens| && ts.next > old(ts.next)
        && var size := ts.tokens[old(ts.next)];
           && cells == (if size.kind == Num then size.value else 1)
           && tab.localAddr == old(tab.localAddr) + cells - 1
    {
      cells := 1;
      Next();
      if err.fatal { return; }
      if token.kind == Num {
        cells := token.value;
        tab.ForwardAllocatedAddr(token.value - 1);
      } else {
        err.ErrorType("number");
        if err.fatal { return; }
      }
      Next();
      if err.fatal { return; }
      Expect(Rbracket);
    }

    /** function or procedure: name "(" parameters ")" block ";". The new
        entry stays visible after its block, starts at the block's `ict`,
        and counts its parameters; the block's own names are gone again.
        Without a name, a missing name is reported and nothing else done. */
    method FuncDecl(kind: KindT) returns (ghost fIndex: int, ghost ictAt: int, ghost n: nat)
      requires Valid() && !err.fatal && 0 <= tab.level && (kind == FuncId || kind == ProcId)
      modifies this, ts, err, tab, tab.nameTable, tab.index, tab.addr, gen, gen.code
      ensures Valid()
      ensures !err.fatal ==> Moved() && CodeKept() && ScopeKept()
      ensures !err.fatal && old(token.kind) != Id ==>
        && err.log == old(err.log) + [MissingId] && ts.next == old(ts.next)
        && tab.tIndex == old(tab.tIndex) && gen.cIndex == old(gen.cIndex)
      ensures !err.fatal && old(token.kind) == Id ==>
        && fIndex == old(tab.tIndex) + 1 == tab.tIndex
        && tab.nameTable[fIndex] == Entry(kind, old(token.id), old(tab.level), ictAt, n)
        && tab.localAddr == old(tab.localAddr)
        && old(gen.cIndex) < ictAt <= gen.cIndex && gen.code[ictAt].op == Ict
      decreases ts.Remaining(), err.Budget(), 47
    {
      fIndex, ictAt, n := 0, 0, 0;
      if token.kind != Id {
        err.ErrorMissingId();
        return;
      }
      var f := FuncEntry(kind);
      fIndex := f;
      if err.fatal { return; }
      ictAt, n := FuncBody(f);
    }

    /** Enter the name as a function or procedure starting at the next
        instruction, then read the name and the "(". */
    method FuncEntry(kind: KindT) returns (fIndex: int)
      requires Valid() && !err.fatal && (kind == FuncId || kind == ProcId)
      modifies this, ts, err, tab, tab.nameTable
      ensures Valid() && Moved()
      ensures !err.fatal ==>
        && ts.next > old(ts.next)
        && fIndex == old(tab.tIndex) + 1 == tab.tIndex == tab.tfIndex
        && tab.level == old(tab.level) && tab.localAddr == old(tab.localAddr)
        && tab.nameTable[fIndex] == Entry(kind, old(token.id), old(tab.level), old(gen.cIndex) + 1, 0)
        && (forall j | 0 <= j < tab.nameTable.Length && j != fIndex :: tab.nameTable[j] == old(tab.nameTable[j]))
    {
      if kind == FuncId {
        fIndex := tab.EnterTfunc(token.id, gen.NextCode(), err);
      } else {
        fIndex := tab.EnterTproc(token.id, gen.NextCode(), err);
      }
      if err.fatal { return; }
      Next();
      if err.fatal { return; }
      Expect(Lparen);
    }

    /** Open the block of entry `fIndex`, read its parameters, compile the
        block and the ";" after it. */
    method FuncBody(fIndex: int) returns (ghost ictAt: int, ghost n: nat)
      requires Valid() && !err.fatal && 0 <= tab.level
      requires 1 <= fIndex == tab.tIndex == tab.tfIndex && tab.nameTable[fIndex].pars == 0
      modifies this, ts, err, tab, tab.nameTable, tab.index, tab.addr, gen, gen.code
      ensures Valid()
      ensures !err.fatal ==> Moved() && CodeKept()
      ensures !err.fatal ==>
        && tab.level == old(tab.level) && tab.tIndex == fIndex && tab.localAddr == old(tab.localAddr)
        && (forall l | 0 <= l < old(tab.level) :: tab.index[l] == old(tab.index[l]) && tab.addr[l] == old(tab.addr[l]))
        && (forall j | 1 <= j < fIndex :: tab.nameTable[j] == old(tab.nameTable[j]))
        && tab.nameTable[fIndex] == old(tab.nameTable[fIndex]).(addr := ictAt, pars := n)
        && old(gen.cIndex) < ictAt <= gen.cIndex && gen.code[ictAt].op == Ict
      decreases ts.Remaining(), err.Budget(), 46
    {
      ictAt, n := 0, 0;
      n := FuncScope();
      if err.fatal { return; }
      ictAt := FuncBlock(fIndex);
    }

    /** blockBegin(FIRSTADDR), then the parameter part: the block of the
        entry at `tfIndex` is open, its parameters entered in it. */
    method FuncScope() returns (n: nat)
      requires Valid() && !err.fatal && 0 <= tab.level
      requires 1 <= tab.tfIndex == tab.tIndex && tab.nameTable[tab.tfIndex].pars == 0
      modifies this, ts, err, tab, tab.nameTable, tab.index, tab.addr
      ensures Valid() && Moved()
      ensures !err.fatal ==>
        && (ts.next > old(ts.next) || err.errorNo > old(err.errorNo))
        && tab.level == old(tab.level) + 1 && tab.tfIndex == old(tab.tfIndex) && tab.localAddr == FIRSTADDR
        && tab.index[old(tab.level)] == old(tab.tIndex) && tab.addr[old(tab.level)] == old(tab.localAddr)
        && (forall l | 0 <= l < MAXLEVEL && l != old(tab.level) ::
              tab.index[l] == old(tab.index[l]) && tab.addr[l] == old(tab.addr[l]))
        && tab.tIndex == old(tab.tIndex) + n
        && (forall j | 1 <= j < tab.tfIndex :: tab.nameTable[j] == old(tab.nameTable[j]))
        && tab.nameTable[tab.tfIndex] == old(tab.nameTable[tab.tfIndex]).(pars := n)
        && (forall j | tab.tfIndex < j <= tab.tIndex ::
              && tab.nameTable[j].kind == ParId && tab.nameTable[j].lv == tab.level
              && tab.nameTable[j].addr == ParamAddr(j - tab.tfIndex, n))
    {
      n := 0;
      OpenScope();
      if err.fatal { return; }
      n := ParameterPart();
    }

    /** The block of entry `fIndex` and the ";" after it. */
    method FuncBlock(fIndex: int) returns (ghost ictAt: int)
      requires Valid() && !err.fatal && 0 <= tab.level && 0 <= fIndex <= MAXTABLE
      modifies this, ts, err, tab, tab.nameTable, tab.index, tab.addr, gen, gen.code
      ensures Valid()
      ensures !err.fatal ==> Moved() && CodeKept() && BlockClosed(fIndex, ictAt)
      ensures !err.fatal ==> old(gen.cIndex) < ictAt <= gen.cIndex && gen.code[ictAt].op == Ict
      decreases ts.Remaining(), err.Budget(), 51
    {
      ghost var _, i := Block(fIndex);
      ictAt := i;
      if err.fatal { return; }
      Expect(Semicolon);
    }

    /** The parameter names, ")", the back-filled parameter addresses, and
        a ";" before the block deleted. Parameter j of n gets j-1-n. */
    method ParameterPart() returns (n: nat)
      requires Valid() && !err.fatal
      requires 1 <= tab.tfIndex == tab.tIndex && tab.nameTable[tab.tfIndex].pars == 0
      modifies this, ts, err, tab, tab.nameTable
      ensures Valid() && Moved()
      ensures !err.fatal ==> ts.next > old(ts.next) || err.errorNo > old(err.errorNo)
      ensures tab.level == old(tab.level) && tab.localAddr == old(tab.localAddr) && tab.tfIndex == old(tab.tfIndex)
      ensures !err.fatal ==>
        && tab.tIndex == old(tab.tIndex) + n
        && (forall j | 1 <= j < tab.tfIndex :: tab.nameTable[j] == old(tab.nameTable[j]))
        && tab.nameTable[tab.tfIndex] == old(tab.nameTable[tab.tfIndex]).(pars := n)
        && (forall j | tab.tfIndex < j <= tab.tIndex ::
              && tab.nameTable[j].kind == ParId && tab.nameTable[j].lv == tab.level
              && tab.nameTable[j].addr == ParamAddr(j - tab.tfIndex, n))
    {
      n := Parameters();
      if err.fatal { return; }
      CloseParameters(n);
    }

    /** ")" after the `n` parameters just entered, their addresses, and a
        ";" before the block deleted. */
    method CloseParameters(n: nat)
      requires Valid() && !err.fatal
      requires 1 <= tab.tfIndex && tab.tIndex == tab.tfIndex + n && tab.nameTable[tab.tfIndex].pars == n
      modifies this, ts, err, tab.nameTable
      ensures Valid() && Moved()
      ensures !err.fatal ==> ts.next > old(ts.next) || err.errorNo > old(err.errorNo)
      ensures !err.fatal ==>
        forall j | 0 <= j < tab.nameTable.Length ::
          tab.nameTable[j] == if tab.tfIndex < j <= tab.tIndex
                              then old(tab.nameTable[j]).(addr := ParamAddr(j - tab.tfIndex, n))
                              else old(tab.nameTable[j])
    {
      Expect(Rparen);
      if err.fatal { return; }
      tab.EndPar();
      DropSemicolon();
    }

    /** A ";" right after the parameter list is deleted. */
    method DropSemicolon()
      requires Valid() && !err.fatal
      modifies this, ts, err
      ensures Valid() && Moved()
      ensures old(token.kind) != Semicolon ==> ts.next == old(ts.next) && err.log == old(err.log) && token == old(token)
      ensures !err.fatal && old(token.kind) == Semicolon ==>
        ts.next == old(ts.next) + 1 && err.log == old(err.log) + [Delete(old(ts.cToken))] + ts.LexedAt(old(ts.next))
    {
      if token.kind == Semicolon {
        err.ErrorDelete(ts.cToken);
        Next();
      }
    }

    /** name {"," name}, each entered as a parameter of the entry at
        `tfIndex`; a name right after a name counts as a missing ",". */
    method Parameters() returns (n: nat)
      requires Valid() && !err.fatal
      requires 1 <= tab.tfIndex == tab.tIndex && tab.nameTable[tab.tfIndex].pars == 0
      modifies this, ts, err, tab, tab.nameTable
      ensures Valid() && Moved()
      ensures tab.level == old(tab.level) && tab.localAddr == old(tab.localAddr) && tab.tfIndex == old(tab.tfIndex)
      ensures !err.fatal ==>
        && tab.tIndex == old(tab.tIndex) + n
        && (forall j | 1 <= j < tab.tfIndex :: tab.nameTable[j] == old(tab.nameTable[j]))
        && tab.nameTable[tab.tfIndex] == old(tab.nameTable[tab.tfIndex]).(pars := n)
        && (forall j | tab.tfIndex < j <= tab.tIndex :: tab.nameTable[j].kind == ParId && tab.nameTable[j].lv == tab.level)
    {
      n := 0;
      while token.kind == Id
        invariant Valid() && !err.fatal && Moved()
        invariant tab.level == old(tab.level) && tab.localAddr == old(tab.localAddr) && tab.tfIndex == old(tab.tfIndex)
        invariant tab.tIndex == old(tab.tIndex) + n
        invariant forall j | 1 <= j < tab.tfIndex :: tab.nameTable[j] == old(tab.nameTable[j])
        invariant tab.nameTable[tab.tfIndex] == old(tab.nameTable[tab.tfIndex]).(pars := n)
        invariant forall j | tab.tfIndex < j <= tab.tIndex :: tab.nameTable[j].kind == ParId && tab.nameTable[j].lv == tab.level
        decreases ts.Remaining(), err.Budget()
      {
        var more := ParameterStep();
        if err.fatal { return; }
        n := n + 1;
        if !more { return; }
      }
    }

    /** One parameter and what follows it: whether another comes. */
    method ParameterStep() returns (more: bool)
      requires Valid() && !err.fatal && tab.tfIndex <= tab.tIndex
      modifies this, ts, err, tab, tab.nameTable
      ensures Valid() && Moved()
      ensures tab.level == old(tab.level) && tab.localAddr == old(tab.localAddr) && tab.tfIndex == old(tab.tfIndex)
      ensures !err.fatal ==>
        && ts.next > old(ts.next) && tab.tIndex == old(tab.tIndex) + 1
        && (forall j | 0 <= j < tab.nameTable.Length && j != tab.tIndex && j != tab.tfIndex ::
              tab.nameTable[j] == old(tab.nameTable[j]))
        && tab.nameTable[tab.tIndex].kind == ParId && tab.nameTable[tab.tIndex].lv == tab.level
        && tab.nameTable[tab.tfIndex] == old(tab.nameTable[tab.tfIndex]).(pars := old(tab.nameTable[tab.tfIndex].pars) + 1)
    {
      more := false;
      Parameter();
      if err.fatal { return; }
      more := ListContinues();
    }

    /** One parameter name: entered, counted at `tfIndex`, and read. */
    method Parameter()
      requires Valid() && !err.fatal && tab.tfIndex <= tab.tIndex
      modifies this, ts, err, tab, tab.nameTable
      ensures Valid() && Moved()
      ensures tab.level == old(tab.level) && tab.localAddr == old(tab.localAddr) && tab.tfIndex == old(tab.tfIndex)
      ensures !err.fatal ==>
        && ts.next > old(ts.next) && tab.tIndex == old(tab.tIndex) + 1
        && (forall j | 0 <= j < tab.nameTable.Length && j != tab.tIndex && j != tab.tfIndex ::
              tab.nameTable[j] == old(tab.nameTable[j]))
        && tab.nameTable[tab.tIndex].kind == ParId && tab.nameTable[tab.tIndex].lv == tab.level
        && tab.nameTable[tab.tfIndex] == old(tab.nameTable[tab.tfIndex]).(pars := old(tab.nameTable[tab.tfIndex].pars) + 1)
    {
      var _ := tab.EnterTpar(token.id, err);
      if err.fatal { return; }
      Next();
    }

    /** blockBegin(FIRSTADDR) for an inner block, seen cell by cell. */
    method OpenScope()
      requires Valid() && !err.fatal && 0 <= tab.level
      modifies tab, tab.index, tab.addr, err
      ensures Valid() && Moved()
      ensures tab.tfIndex == old(tab.tfIndex)
      ensures !err.fatal ==>
        && tab.level == old(tab.level) + 1 && tab.tIndex == old(tab.tIndex) && tab.localAddr == FIRSTADDR
        && tab.index[old(tab.level)] == old(tab.tIndex) && tab.addr[old(tab.level)] == old(tab.localAddr)
        && (forall l | 0 <= l < MAXLEVEL && l != old(tab.level) ::
              tab.index[l] == old(tab.index[l]) && tab.addr[l] == old(tab.addr[l]))
        && err.log == old(err.log)
    {
      tab.BlockBegin(FIRSTADDR, err);
      if !err.fatal {
        assert forall l | 0 <= l < MAXLEVEL :: tab.index[l] == tab.index[..][l] && tab.addr[l] == tab.addr[..][l];
      }
    }
    /** The body of compile(), from the first token to the final ".". */
    method Program() returns (ghost ictAt: int)
      requires Valid() && !err.fatal && tab.level == -1 && gen.cIndex == -1
      modifies this, ts, err, tab, tab.nameTable, tab.index, tab.addr, gen, gen.code
      ensures Valid()
      ensures !err.fatal ==>
        && 0 < ictAt <= gen.cIndex
        && gen.code[0] == Inst(Jmp, ictAt, 0) && gen.code[ictAt].op == Ict
        && gen.code[gen.cIndex].op == OpCode.Ret
    {
      ictAt := 0;
      Next();
      if err.fatal { return; }
      tab.BlockBegin(FIRSTADDR, err);
      ghost var _, i := Block(0);
      ictAt := i;
      if err.fatal { return; }
      ts.FinalSource(err);
    }
  }

  /** An append seen pointwise: the cells up to the old end are kept. */
  lemma Appended(before: seq<Inst>, after: seq<Inst>, c0: int, c1: int)
    requires -1 <= c0 <= c1 < |before| == |after|
    requires c1 == c0 ==> after == before
    requires c1 > c0 ==> after[..c1 + 1] == before[..c0 + 1] + [after[c1]]
    ensures forall j | 0 <= j <= c0 :: after[j] == before[j]
  {
    if c1 > c0 {
      forall j | 0 <= j <= c0 ensures after[j] == before[j] {
        assert after[j] == after[..c1 + 1][j];
      }
    }
  }

  /** An operator and its right operand read after the left operand: the
      binary expression was read, and its code emitted. */
  lemma BinaryCompiled(p: Operator, t: Token, l: Expr, r: Expr,
                       a0: seq<Token>, a1: seq<Token>, a2: seq<Token>,
                       c0: seq<Inst>, c1: seq<Inst>, c2: seq<Inst>)
    requires a0 == TokensOf(l) + a1 && a1 == ([t] + TokensOf(r)) + a2
    requires c1 == c0 + CodeOf(l) && c2 == c1 + (CodeOf(r) + [Inst(Opr, OperatorOrd(p), 0)])
    ensures a0 == TokensOf(Binary(p, t, l, r)) + a2 && c2 == c0 + CodeOf(Binary(p, t, l, r))
  {
    ReadThen(a0, TokensOf(l), a1, [t] + TokensOf(r), a2);
    AppendThen(c0, CodeOf(l), c1, CodeOf(r) + [Inst(Opr, OperatorOrd(p), 0)], c2);
  }

  /** "(" expression ")" read and compiled. */
  lemma ParenCompiled(o: Token, x: Expr, c: Token, a0: seq<Token>, a1: seq<Token>, a2: seq<Token>, a3: seq<Token>,
                      c0: seq<Inst>, c2: seq<Inst>)
    requires a0 == [o] + a1 && a1 == TokensOf(x) + a2 && a2 == [c] + a3 && c2 == c0 + CodeOf(x)
    ensures a0 == TokensOf(Paren(o, x, c)) + a3 && c2 == c0 + CodeOf(Paren(o, x, c))
  {
    ReadThen(a0, [o], a1, TokensOf(x), a2);
    ReadThen(a0, [o] + TokensOf(x), a2, [c], a3);
  }

  /** A function name, then its parenthesised arguments and `cal`. */
  lemma AppliedCompiled(t: Token, o: Token, a: Args, c: Token, call: Inst,
                        a0: seq<Token>, a1: seq<Token>, a2: seq<Token>, c0: seq<Inst>, c2: seq<Inst>)
    requires a0 == [t] + a1 && a1 == (([o] + ArgsTokens(a)) + [c]) + a2 && c2 == c0 + (ArgsCode(a) + [call])
    ensures a0 == TokensOf(Applied(t, o, a, c, call)) + a2 && c2 == c0 + CodeOf(Applied(t, o, a, c, call))
  {
    ReadThen(a0, [t], a1, ([o] + ArgsTokens(a)) + [c], a2);
  }

  /** An array name with `lod`, then "[" index "]" and `loda`. */
  lemma IndexedCompiled(t: Token, load: Inst, o: Token, x: Expr, c: Token, f: Inst,
                        a0: seq<Token>, a1: seq<Token>, a2: seq<Token>, a3: seq<Token>,
                        c0: seq<Inst>, c1: seq<Inst>, c2: seq<Inst>)
    requires a0 == [t] + a1 && a1 == [o] + a2 && a2 == (TokensOf(x) + [c]) + a3
    requires c1 == c0 + [load] && c2 == c1 + (CodeOf(x) + [f])
    ensures a0 == TokensOf(Indexed(t, load, o, x, c, f)) + a3 && c2 == c0 + CodeOf(Indexed(t, load, o, x, c, f))
  {
    ReadThen(a1, [o], a2, TokensOf(x) + [c], a3);
    ReadThen(a0, [t], a1, [o] + (TokensOf(x) + [c]), a3);
    assert [t] + ([o] + (TokensOf(x) + [c])) == [t, o] + TokensOf(x) + [c];
    AppendThen(c0, [load], c1, CodeOf(x) + [f], c2);
    assert [load] + (CodeOf(x) + [f]) == [load] + CodeOf(x) + [f];
  }

  /** The argument list `a`, then `x` after the pending comma, if any. */
  function Extend(a: Args, comma: Option<Token>, x: Expr): Args {
    if comma.None? then FirstArg(x) else NextArg(a, comma.value, x)
  }

  function Pending(comma: Option<Token>): seq<Token> {
    if comma.Some? then [comma.value] else []
  }

  /** One more argument and the separator after it read and compiled. */
  lemma ArgStep(open: Token, a: Args, comma: Option<Token>, x: Expr, sep: Token,
                a0: seq<Token>, a1: seq<Token>, a2: seq<Token>, a3: seq<Token>,
                c0: seq<Inst>, c1: seq<Inst>, c2: seq<Inst>)
    requires comma.None? ==> a == NoArgs
    requires comma.Some? ==> comma.value.kind == Comma && a != NoArgs
    requires IsArgs(a) && IsExpression(x)
    requires a0 == (([open] + ArgsTokens(a)) + Pending(comma)) + a1 && a1 == TokensOf(x) + a2 && a2 == [sep] + a3
    requires c1 == c0 + ArgsCode(a) && c2 == c1 + CodeOf(x)
    ensures IsArgs(Extend(a, comma, x)) && ArgCount(Extend(a, comma, x)) == ArgCount(a) + 1
    ensures a0 == (([open] + ArgsTokens(Extend(a, comma, x))) + Pending(Some(sep))) + a3
    ensures c2 == c0 + ArgsCode(Extend(a, comma, x))
  {
    ArgCompiled(open, a, comma, x, a0, a1, a2, c0, c1, c2);
    ReadThen(a0, [open] + ArgsTokens(Extend(a, comma, x)), a2, [sep], a3);
  }

  /** One more argument read and compiled. */
  lemma ArgCompiled(open: Token, a: Args, comma: Option<Token>, x: Expr,
                    a0: seq<Token>, a1: seq<Token>, a2: seq<Token>, c0: seq<Inst>, c1: seq<Inst>, c2: seq<Inst>)
    requires comma.None? ==> a == NoArgs
    requires a0 == (([open] + ArgsTokens(a)) + Pending(comma)) + a1 && a1 == TokensOf(x) + a2
    requires c1 == c0 + ArgsCode(a) && c2 == c1 + CodeOf(x)
    ensures a0 == ([open] + ArgsTokens(Extend(a, comma, x))) + a2 && c2 == c0 + ArgsCode(Extend(a, comma, x))
  {
    ReadThen(a0, ([open] + ArgsTokens(a)) + Pending(comma), a1, TokensOf(x), a2);
    AppendThen(c0, ArgsCode(a), c1, CodeOf(x), c2);
    if comma.None? {
      assert ([open] + ArgsTokens(a)) + Pending(comma) == [open];
    } else {
      assert (([open] + ArgsTokens(a)) + Pending(comma)) + TokensOf(x)
          == [open] + (ArgsTokens(a) + [comma.value] + TokensOf(x));
    }
  }

  /** Two expressions around a relational operator, then the comparison. */
  lemma CompareCompiled(p: Operator, l: Expr, t: Token, r: Expr,
                        a0: seq<Token>, a1: seq<Token>, a2: seq<Token>, a3: seq<Token>,
                        c0: seq<Inst>, c1: seq<Inst>, c2: seq<Inst>, c3: seq<Inst>)
    requires a0 == TokensOf(l) + a1 && a1 == [t] + a2 && a2 == TokensOf(r) + a3
    requires c1 == c0 + CodeOf(l) && c2 == c1 + CodeOf(r) && c3 == c2 + [Inst(Opr, OperatorOrd(p), 0)]
    ensures a0 == CondTokens(Compare(p, l, t, r)) + a3 && c3 == c0 + CondCode(Compare(p, l, t, r))
  {
    ReadThen(a1, [t], a2, TokensOf(r), a3);
    ReadThen(a0, TokensOf(l), a1, [t] + TokensOf(r), a3);
    AppendThen(c1, CodeOf(r), c2, [Inst(Opr, OperatorOrd(p), 0)], c3);
    AppendThen(c0, CodeOf(l), c1, CodeOf(r) + [Inst(Opr, OperatorOrd(p), 0)], c3);
  }

  /** Reading `x` from `a0` leaves `a1`, reading `y` from that leaves `a2`:
      reading `x + y` from `a0` leaves `a2`. */
  lemma ReadThen<T>(a0: seq<T>, x: seq<T>, a1: seq<T>, y: seq<T>, a2: seq<T>)
    requires a0 == x + a1 && a1 == y + a2
    ensures a0 == (x + y) + a2
  {
  }

  /** Appending `x` to `c0` gives `c1`, appending `y` to that gives `c2`:
      `c2` is `c0` with `x + y` appended. */
  lemma AppendThen<T>(c0: seq<T>, x: seq<T>, c1: seq<T>, y: seq<T>, c2: seq<T>)
    requires c1 == c0 + x && c2 == c1 + y
    ensures c2 == c0 + (x + y)
  {
  }

  /** What `compile` ends with: an abort (end of input, too many errors or
      a full table), or the code with the diagnostics and whether they are
      few enough for the program to be run. */
  datatype Compilation =
    | Aborted(log: seq<Diag>)
    | Compiled(ok: bool, code: seq<Inst>, errors: nat, log: seq<Diag>)

  /** What every finished compilation satisfies: `ok` judges the count of
      counted diagnostics in the log against MINERROR, and the code starts
      with the `jmp` to the main block's `ict` and ends with the main
      block's `ret`. */
  predicate Finished(r: Compilation) {
    r.Compiled? ==>
      && r.errors == CountOf(r.log) && r.ok == (r.errors < MINERROR)
      && 2 <= |r.code| <= MAXCODE
      && r.code[0].op == Jmp && 0 < r.code[0].value < |r.code|
      && r.code[r.code[0].value].op == Ict
      && r.code[|r.code| - 1].op == OpCode.Ret
  }

  /** compile() on a token sequence with the scanner's diagnostics for each
      token: read the first token, open the main block, compile it, check
      the final ".", and judge the error count. */
  method Compile(tokens: seq<Token>, diags: seq<seq<Diag>>) returns (r: Compilation)
    requires |diags| == |tokens| && forall j | 0 <= j < |diags| :: LexDiags(diags[j])
    ensures Finished(r)
  {
    var ts := new TokenStream(tokens, diags);
    var err := new Errors();
    var tab := new SymbolTable();
    var gen := new Generator();
    var p := new Parser(ts, err, tab, gen);
    ghost var ictAt := p.Program();
    if err.fatal { return Aborted(err.log); }
    var n := err.ErrorN();
    r := Compiled(n < MINERROR, gen.code[..gen.cIndex + 1], n, err.log);
  }

  /** compile() on a source text: the scanner's tokens, each with the
      "too long" or "too large" message it records, are what the parser
      reads, so those messages count towards the error limit. */
  method CompileSource(text: seq<char>) returns (r: Compilation)
    ensures Finished(r)
  {
    ScanDiagsShape(Stream(text), 0);
    r := Compile(ScanAll(Stream(text), 0), ScanDiags(Stream(text), 0));
  }
}
