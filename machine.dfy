/** The stack machine that runs the object code: its state, the effect of
    each instruction, the run loop, and the same loop over mutable arrays. */
module Machine {
  import opened Wrappers
  import opened CodeGen

  const MAXMEM: int := 2000
  const MAXREG: int := 20
  /** Cells of the display: one base address per block level. */
  const DISPLAY: int := 5

  /** The range of a C `int`. */
  predicate Int32(v: int) {
    -0x8000_0000 <= v < 0x8000_0000
  }

  /** What `wrt` and `wrl` print. */
  datatype Output = Printed(v: int) | NewLine

  /** How a run ends: `pc` became 0, a fatal run-time error, behaviour the
      C program leaves undefined (an index out of range, an overflow, a
      division by zero), or the step budget ran out. */
  datatype Outcome =
    | Halted(out: seq<Output>)
    | Fatal(msg: string, out: seq<Output>)
    | Fault(out: seq<Output>)
    | OutOfFuel

  /** The run-time stack, the display, the instruction counter, the next
      free stack cell, and everything printed so far. */
  datatype MState = MState(stack: seq<int>, display: seq<int>, pc: int, top: int, out: seq<Output>)

  predicate Wf(s: MState) {
    |s.stack| == MAXMEM && |s.display| == DISPLAY
  }

  predicate InStack(a: int) {
    0 <= a < MAXMEM
  }

  predicate InDisplay(l: int) {
    0 <= l < DISPLAY
  }

  datatype StepResult = Continue(s: MState) | Stop(o: Outcome)

  /** Before the first instruction: `top` and `pc` 0, the save cells of the
      main block and its display entry 0. */
  function Init(): (s: MState)
    ensures Wf(s) && s.stack[0] == 0 && s.stack[1] == 0 && s.display[0] == 0
  {
    MState(seq(MAXMEM, _ => 0), seq(DISPLAY, _ => 0), 0, 0, [])
  }

  /** C's `/`: the quotient truncated toward zero. */
  function TruncDiv(x: int, y: int): (q: int)
    requires y != 0
    ensures Abs(q) == Abs(x) / Abs(y)
    ensures q < 0 ==> (x < 0) != (y < 0)
    ensures q > 0 ==> (x < 0) == (y < 0)
  {
    var m := Abs(x) / Abs(y);
    DivNonNeg(Abs(x), Abs(y));
    if (x < 0) == (y < 0) then m else -m
  }

  lemma DivNonNeg(a: nat, b: nat)
    requires b > 0
    ensures a / b >= 0
  {
  }

  function Abs(x: int): nat {
    if x < 0 then -x else x
  }

  /** The truncated quotient: the remainder left has the sign of the
      dividend and is smaller than the divisor in magnitude. */
  lemma TruncDivSpec(x: int, y: int)
    requires y != 0
    ensures var r := x - TruncDiv(x, y) * y;
      Abs(r) < Abs(y) && (r == 0 || (r < 0 <==> x < 0))
  {
    var ax: int, ay: int := Abs(x), Abs(y);
    var q, m := ax / ay, ax % ay;
    assert ax == q * ay + m && 0 <= m < ay;
    var p: int := q * ay;
    if (x < 0) == (y < 0) {
      assert TruncDiv(x, y) * y == (if y < 0 then -p else p);
    } else {
      assert TruncDiv(x, y) * y == (if y < 0 then p else -p);
    }
  }

  function Bool(b: bool): int {
    if b then 1 else 0
  }

  /** The result of a two-operand operator, or None when C leaves it
      undefined. */
  function Binary(p: Operator, x: int, y: int): Option<int>
    requires p !in {Neg, Odd, Wrt, Wrl}
  {
    match p
    case Add => if Int32(x + y) then Some(x + y) else None
    case Sub => if Int32(x - y) then Some(x - y) else None
    case Mul => if Int32(x * y) then Some(x * y) else None
    case Div => if y != 0 && Int32(TruncDiv(x, y)) then Some(TruncDiv(x, y)) else None
    case Eq => Some(Bool(x == y))
    case Ls => Some(Bool(x < y))
    case Gr => Some(Bool(x > y))
    case Neq => Some(Bool(x != y))
    case LsEq => Some(Bool(x <= y))
    case GrEq => Some(Bool(x >= y))
  }

  predicate Relational(p: Operator) {
    p == Eq || p == Ls || p == Gr || p == Neq || p == LsEq || p == GrEq
  }

  function PushCell(s: MState, v: int): (r: StepResult)
    requires Wf(s)
    ensures r.Continue? ==> Wf(r.s)
  {
    if InStack(s.top) then Continue(s.(stack := s.stack[s.top := v], top := s.top + 1))
    else Stop(Fault(s.out))
  }

  function ExecLod(l: int, a: int, s: MState): (r: StepResult)
    requires Wf(s)
    ensures r.Continue? ==> Wf(r.s)
  {
    if InDisplay(l) && InStack(s.display[l] + a) then PushCell(s, s.stack[s.display[l] + a])
    else Stop(Fault(s.out))
  }

  function ExecSto(l: int, a: int, s: MState): (r: StepResult)
    requires Wf(s)
    ensures r.Continue? ==> Wf(r.s)
  {
    if InStack(s.top - 1) && InDisplay(l) && InStack(s.display[l] + a) then
      Continue(s.(stack := s.stack[s.display[l] + a := s.stack[s.top - 1]], top := s.top - 1))
    else Stop(Fault(s.out))
  }

  /** Call the function at `a` whose name is at level `l`: its block is at
      level l+1, whose display entry and the return address are saved in
      the two cells at `top`, which becomes the new frame base. */
  function ExecCal(l: int, a: int, s: MState): (r: StepResult)
    requires Wf(s)
    ensures r.Continue? ==> Wf(r.s)
  {
    var lev := l + 1;
    if InDisplay(lev) && InStack(s.top) && InStack(s.top + 1) then
      Continue(s.(stack := s.stack[s.top := s.display[lev]][s.top + 1 := s.pc],
                  display := s.display[lev := s.top], pc := a))
    else Stop(Fault(s.out))
  }

  /** Return a value from the block at level `l` with `n` parameters. */
  function ExecRet(l: int, n: int, s: MState): (r: StepResult)
    requires Wf(s)
    ensures r.Continue? ==> Wf(r.s)
  {
    if InStack(s.top - 1) && InDisplay(l) && InStack(s.display[l]) && InStack(s.display[l] + 1)
       && InStack(s.display[l] - n) then
      var temp := s.stack[s.top - 1];
      var b := s.display[l];
      Continue(s.(stack := s.stack[b - n := temp], display := s.display[l := s.stack[b]],
                  pc := s.stack[b + 1], top := b - n + 1))
    else Stop(Fault(s.out))
  }

  /** Return from a procedure: as `ret`, with no value. */
  function ExecRetp(l: int, n: int, s: MState): (r: StepResult)
    requires Wf(s)
    ensures r.Continue? ==> Wf(r.s)
  {
    if InDisplay(l) && InStack(s.display[l]) && InStack(s.display[l] + 1) then
      var b := s.display[l];
      Continue(s.(display := s.display[l := s.stack[b]], pc := s.stack[b + 1], top := b - n))
    else Stop(Fault(s.out))
  }

  /** Reserve `n` cells; reaching MAXMEM-MAXREG is the fatal "stack overflow". */
  function ExecIct(n: int, s: MState): (r: StepResult)
    ensures r.Continue? ==> r.s.stack == s.stack && r.s.display == s.display
  {
    if s.top + n >= MAXMEM - MAXREG then Stop(Fatal("stack overflow", s.out))
    else Continue(s.(top := s.top + n))
  }

  function ExecJpc(v: int, s: MState): (r: StepResult)
    requires Wf(s)
    ensures r.Continue? ==> Wf(r.s)
  {
    if InStack(s.top - 1) then
      Continue(s.(top := s.top - 1, pc := if s.stack[s.top - 1] == 0 then v else s.pc))
    else Stop(Fault(s.out))
  }

  /** Replace the top cell by the element it indexes in the array at (l, a). */
  function ExecLoda(l: int, a: int, s: MState): (r: StepResult)
    requires Wf(s)
    ensures r.Continue? ==> Wf(r.s)
  {
    if InStack(s.top - 1) && InDisplay(l) && InStack(s.display[l] + a + s.stack[s.top - 1]) then
      Continue(s.(stack := s.stack[s.top - 1 := s.stack[s.display[l] + a + s.stack[s.top - 1]]]))
    else Stop(Fault(s.out))
  }

  /** Pop a value and an index, and store the value at that element of the
      array at (l, a). */
  function ExecStoa(l: int, a: int, s: MState): (r: StepResult)
    requires Wf(s)
    ensures r.Continue? ==> Wf(r.s)
  {
    if InStack(s.top - 1) && InStack(s.top - 2) && InDisplay(l)
       && InStack(s.display[l] + a + s.stack[s.top - 2]) then
      Continue(s.(stack := s.stack[s.display[l] + a + s.stack[s.top - 2] := s.stack[s.top - 1]],
                  top := s.top - 2))
    else Stop(Fault(s.out))
  }

  function ExecOperator(p: Operator, s: MState): (r: StepResult)
    requires Wf(s)
    ensures r.Continue? ==> Wf(r.s)
  {
    match p
    case Neg =>
      if InStack(s.top - 1) && Int32(-s.stack[s.top - 1]) then
        Continue(s.(stack := s.stack[s.top - 1 := -s.stack[s.top - 1]]))
      else Stop(Fault(s.out))
    case Odd =>
      if InStack(s.top - 1) then Continue(s.(stack := s.stack[s.top - 1 := s.stack[s.top - 1] % 2]))
      else Stop(Fault(s.out))
    case Wrt =>
      if InStack(s.top - 1) then Continue(s.(top := s.top - 1, out := s.out + [Printed(s.stack[s.top - 1])]))
      else Stop(Fault(s.out))
    case Wrl => Continue(s.(out := s.out + [NewLine]))
    case _ =>
      if InStack(s.top - 2) && InStack(s.top - 1) then
        match Binary(p, s.stack[s.top - 2], s.stack[s.top - 1])
        case Some(r) => Continue(s.(stack := s.stack[s.top - 2 := r], top := s.top - 1))
        case None => Stop(Fault(s.out))
      else Stop(Fault(s.out))
  }

  /** The effect of one instruction, `pc` already advanced past it. An
      `opr` word naming no operator runs on into `loda`. */
  function Exec(i: Inst, s: MState): (r: StepResult)
    requires Wf(s)
    ensures r.Continue? ==> Wf(r.s)
  {
    match i.op
    case Lit => PushCell(s, i.value)
    case Lod => ExecLod(i.value, i.addr, s)
    case Sto => ExecSto(i.value, i.addr, s)
    case Cal => ExecCal(i.value, i.addr, s)
    case Ret => ExecRet(i.value, i.addr, s)
    case Ict => ExecIct(i.value, s)
    case Jmp => Continue(s.(pc := i.value))
    case Jpc => ExecJpc(i.value, s)
    case Opr =>
      (match OperatorOf(i.value)
       case Some(p) => ExecOperator(p, s)
       case None => ExecLoda(i.value, i.addr, s))
    case Loda => ExecLoda(i.value, i.addr, s)
    case Stoa => ExecStoa(i.value, i.addr, s)
    case Retp => ExecRetp(i.value, i.addr, s)
  }

  /** Fetch, execute, and stop once `pc` is 0. */
  function Step(code: seq<Inst>, s: MState): (r: StepResult)
    requires Wf(s)
    ensures r.Continue? ==> Wf(r.s)
  {
    if !(0 <= s.pc < |code|) then Stop(Fault(s.out))
    else
      match Exec(code[s.pc], s.(pc := s.pc + 1))
      case Stop(o) => Stop(o)
      case Continue(s') => if s'.pc == 0 then Stop(Halted(s'.out)) else Continue(s')
  }

  /** At most `fuel` steps from `s`; with no steps left the run has not
      ended. */
  function Run(code: seq<Inst>, s: MState, fuel: nat): (o: Outcome)
    requires Wf(s)
    ensures fuel == 0 ==> o == OutOfFuel
    decreases fuel
  {
    if fuel == 0 then OutOfFuel
    else
      match Step(code, s)
      case Stop(o) => o
      case Continue(s') => Run(code, s', fuel - 1)
  }

  /** The step budget only bounds the run: a run that ends within `f`
      steps ends the same way with any larger budget. */
  lemma {:induction false} RunFuel(code: seq<Inst>, s: MState, f: nat, g: nat)
    requires Wf(s) && f <= g && Run(code, s, f) != OutOfFuel
    ensures Run(code, s, g) == Run(code, s, f)
    decreases f
  {
    match Step(code, s)
    case Stop(o) =>
    case Continue(s') =>
      RunFuel(code, s', f - 1, g - 1);
  }

  // ---- Properties of single instructions ----

  /** `lit` and `lod` push one cell. */
  lemma PushOne(i: Inst, s: MState)
    requires Wf(s) && (i.op == Lit || i.op == Lod) && Exec(i, s).Continue?
    ensures var s' := Exec(i, s).s;
      && s'.top == s.top + 1 && s'.pc == s.pc && s'.display == s.display
      && s'.stack == s.stack[s.top := if i.op == Lit then i.value else s.stack[s.display[i.value] + i.addr]]
  {
  }

  /** `sto` pops the top cell into the addressed cell. */
  lemma StoPops(i: Inst, s: MState)
    requires Wf(s) && i.op == Sto && Exec(i, s).Continue?
    ensures var s' := Exec(i, s).s;
      && s'.top == s.top - 1 && s'.pc == s.pc
      && s'.stack == s.stack[s.display[i.value] + i.addr := s.stack[s.top - 1]]
  {
  }

  /** `jpc` pops one cell and jumps exactly when it was 0; `jmp` always jumps. */
  lemma Jumps(i: Inst, s: MState)
    requires Wf(s) && (i.op == Jpc || i.op == Jmp) && Exec(i, s).Continue?
    ensures var s' := Exec(i, s).s;
      && s'.stack == s.stack
      && (i.op == Jmp ==> s'.pc == i.value && s'.top == s.top)
      && (i.op == Jpc ==> s'.top == s.top - 1 && s'.pc == if s.stack[s.top - 1] == 0 then i.value else s.pc)
  {
  }

  /** `ict n` adds n to `top`; it stops the run exactly when `top` reaches
      MAXMEM-MAXREG. */
  lemma IctGrows(n: int, s: MState)
    ensures ExecIct(n, s).Stop? <==> s.top + n >= 1980
    ensures ExecIct(n, s).Stop? ==> ExecIct(n, s).o == Fatal("stack overflow", s.out)
    ensures ExecIct(n, s).Continue? ==> ExecIct(n, s).s == s.(top := s.top + n)
  {
  }

  /** A two-operand operator replaces its two operands by one result and
      leaves every lower cell alone; a relational one yields 0 or 1. */
  lemma BinaryPopsOne(p: Operator, s: MState)
    requires Wf(s) && p !in {Neg, Odd, Wrt, Wrl} && ExecOperator(p, s).Continue?
    ensures var s' := ExecOperator(p, s).s;
      && s'.top == s.top - 1
      && (forall j | 0 <= j < MAXMEM && j != s.top - 2 :: s'.stack[j] == s.stack[j])
      && s'.out == s.out && s'.pc == s.pc
      && s'.stack[s.top - 2] == Binary(p, s.stack[s.top - 2], s.stack[s.top - 1]).value
      && (Relational(p) ==> s'.stack[s.top - 2] == 0 || s'.stack[s.top - 2] == 1)
      && (p == Div ==> s'.stack[s.top - 2] == TruncDiv(s.stack[s.top - 2], s.stack[s.top - 1]))
  {
  }

  /** `loda` replaces the index on top by the element it selects; the cells
      below it, among them the array's first cell that `lod` pushed, are
      left as they were. */
  lemma LodaEffect(l: int, a: int, s: MState)
    requires Wf(s) && Exec(Inst(Loda, l, a), s).Continue?
    ensures var s' := Exec(Inst(Loda, l, a), s).s;
      && s'.top == s.top && s'.pc == s.pc && s'.display == s.display && s'.out == s.out
      && s'.stack == s.stack[s.top - 1 := s.stack[s.display[l] + a + s.stack[s.top - 1]]]
      && (InStack(s.top - 2) ==> s'.stack[s.top - 2] == s.stack[s.top - 2])
  {
  }

  /** `stoa` pops the value and the index under it, and stores the value
      at that element of the array; nothing else changes. */
  lemma StoaEffect(l: int, a: int, s: MState)
    requires Wf(s) && Exec(Inst(Stoa, l, a), s).Continue?
    ensures var s' := Exec(Inst(Stoa, l, a), s).s;
      && s'.top == s.top - 2 && s'.pc == s.pc && s'.display == s.display && s'.out == s.out
      && s'.stack == s.stack[s.display[l] + a + s.stack[s.top - 2] := s.stack[s.top - 1]]
  {
  }

  /** Division by zero is never a step. */
  lemma DivByZeroFaults(s: MState)
    requires Wf(s) && InStack(s.top - 2) && InStack(s.top - 1) && s.stack[s.top - 1] == 0
    ensures ExecOperator(Div, s) == Stop(Fault(s.out))
  {
  }

  /** `neg` negates the top cell, `odd` leaves the lowest bit, `wrt` pops
      and prints, `wrl` prints a newline and leaves the stack. */
  lemma UnaryEffects(p: Operator, s: MState)
    requires Wf(s) && p in {Neg, Odd, Wrt, Wrl} && ExecOperator(p, s).Continue?
    ensures var s' := ExecOperator(p, s).s;
      && (p == Neg ==> s'.top == s.top && s'.out == s.out && s'.stack == s.stack[s.top - 1 := -s.stack[s.top - 1]])
      && (p == Odd ==> s'.top == s.top && (s'.stack[s.top - 1] == 0 || s'.stack[s.top - 1] == 1)
                       && (s'.stack[s.top - 1] - s.stack[s.top - 1]) % 2 == 0)
      && (p == Wrt ==> s'.top == s.top - 1 && s'.out == s.out + [Printed(s.stack[s.top - 1])])
      && (p == Wrl ==> s'.top == s.top && s'.stack == s.stack && s'.out == s.out + [NewLine])
  {
  }

  /** `cal` followed, after the callee ran on top of the two saved cells,
      by the `ret` of the callee's block: `pc` is back after the `cal`, the
      display entry is restored, the `n` argument cells below the frame are
      dropped and the result sits where the first of them was. */
  lemma CallReturn(l: int, a: int, n: int, s: MState, body: MState)
    requires Wf(s) && Wf(body) && ExecCal(l, a, s).Continue?
    requires var c := ExecCal(l, a, s).s;
      && body.display[l + 1] == c.display[l + 1]
      && body.stack[s.top] == c.stack[s.top] && body.stack[s.top + 1] == c.stack[s.top + 1]
    requires ExecRet(l + 1, n, body).Continue?
    ensures var r := ExecRet(l + 1, n, body).s;
      && r.pc == s.pc
      && r.display[l + 1] == s.display[l + 1]
      && r.top == s.top - n + 1
      && r.stack[s.top - n] == body.stack[body.top - 1]
  {
  }

  /** The same for `retp`, which leaves no value. */
  lemma CallReturnProc(l: int, a: int, n: int, s: MState, body: MState)
    requires Wf(s) && Wf(body) && ExecCal(l, a, s).Continue?
    requires var c := ExecCal(l, a, s).s;
      && body.display[l + 1] == c.display[l + 1]
      && body.stack[s.top] == c.stack[s.top] && body.stack[s.top + 1] == c.stack[s.top + 1]
    requires ExecRetp(l + 1, n, body).Continue?
    ensures var r := ExecRetp(l + 1, n, body).s;
      && r.pc == s.pc && r.display[l + 1] == s.display[l + 1] && r.top == s.top - n
  {
  }

  /** The run stops exactly when a step leaves `pc` at 0. The final `ret`
      of the main block does: its frame base is 0 and the return address
      saved there is 0. */
  lemma MainReturnHalts(code: seq<Inst>, s: MState)
    requires Wf(s) && 0 <= s.pc < |code| && code[s.pc] == Inst(Ret, 0, 0)
    requires s.display[0] == 0 && s.stack[1] == 0 && 1 <= s.top <= MAXMEM
    ensures Step(code, s) == Stop(Halted(s.out))
  {
  }

  /** A machine whose stack and display are arrays updated in place. */
  class VM {
    const stack: array<int>
    const display: array<int>
    var pc: int
    var top: int
    var out: seq<Output>

    ghost predicate Valid()
      reads this
    {
      stack.Length == MAXMEM && display.Length == DISPLAY && stack != display
    }

    ghost function State(): MState
      reads this, stack, display
    {
      MState(stack[..], display[..], pc, top, out)
    }

    constructor ()
      ensures Valid() && State() == Init() && fresh(stack) && fresh(display)
    {
      stack := new int[MAXMEM](_ => 0);
      display := new int[DISPLAY](_ => 0);
      pc, top, out := 0, 0, [];
    }

    /** The state now is what `r` continues with, or the run stops with
        the outcome of `r`. */
    ghost predicate Did(r: StepResult, stop: Option<Outcome>)
      reads this, stack, display
    {
      if r.Continue? then stop.None? && State() == r.s else stop == Some(r.o)
    }

    method Push(v: int) returns (stop: Option<Outcome>)
      requires Valid()
      modifies this, stack
      ensures Valid() && Did(PushCell(old(State()), v), stop)
    {
      if 0 <= top < MAXMEM {
        stack[top] := v;
        top := top + 1;
        return None;
      }
      return Some(Fault(out));
    }

    method Lod(l: int, a: int) returns (stop: Option<Outcome>)
      requires Valid()
      modifies this, stack
      ensures Valid() && Did(ExecLod(l, a, old(State())), stop)
    {
      if 0 <= l < DISPLAY && 0 <= display[l] + a < MAXMEM {
        stop := Push(stack[display[l] + a]);
        return;
      }
      return Some(Fault(out));
    }

    method Sto(l: int, a: int) returns (stop: Option<Outcome>)
      requires Valid()
      modifies this, stack
      ensures Valid() && Did(ExecSto(l, a, old(State())), stop)
    {
      if 0 <= top - 1 < MAXMEM && 0 <= l < DISPLAY && 0 <= display[l] + a < MAXMEM {
        top := top - 1;
        stack[display[l] + a] := stack[top];
        return None;
      }
      return Some(Fault(out));
    }

    method Cal(l: int, a: int) returns (stop: Option<Outcome>)
      requires Valid()
      modifies this, stack, display
      ensures Valid() && Did(ExecCal(l, a, old(State())), stop)
    {
      var lev := l + 1;
      if 0 <= lev < DISPLAY && 0 <= top && top + 1 < MAXMEM {
        stack[top] := display[lev];
        stack[top + 1] := pc;
        display[lev] := top;
        pc := a;
        return None;
      }
      return Some(Fault(out));
    }

    method Ret(l: int, n: int) returns (stop: Option<Outcome>)
      requires Valid()
      modifies this, stack, display
      ensures Valid() && Did(ExecRet(l, n, old(State())), stop)
    {
      if 0 <= top - 1 < MAXMEM && 0 <= l < DISPLAY && 0 <= display[l] && display[l] + 1 < MAXMEM
         && 0 <= display[l] - n < MAXMEM {
        top := top - 1;
        var temp := stack[top];
        top := display[l];
        display[l] := stack[top];
        pc := stack[top + 1];
        top := top - n;
        stack[top] := temp;
        top := top + 1;
        return None;
      }
      return Some(Fault(out));
    }

    method Retp(l: int, n: int) returns (stop: Option<Outcome>)
      requires Valid()
      modifies this, display
      ensures Valid() && Did(ExecRetp(l, n, old(State())), stop)
    {
      if 0 <= l < DISPLAY && 0 <= display[l] && display[l] + 1 < MAXMEM {
        top := display[l];
        display[l] := stack[top];
        pc := stack[top + 1];
        top := top - n;
        return None;
      }
      return Some(Fault(out));
    }

    method Ict(n: int) returns (stop: Option<Outcome>)
      requires Valid()
      modifies this
      ensures Valid() && Did(ExecIct(n, old(State())), stop)
    {
      top := top + n;
      if top >= MAXMEM - MAXREG {
        return Some(Fatal("stack overflow", out));
      }
      return None;
    }

    method Jpc(v: int) returns (stop: Option<Outcome>)
      requires Valid()
      modifies this
      ensures Valid() && Did(ExecJpc(v, old(State())), stop)
    {
      if 0 <= top - 1 < MAXMEM {
        top := top - 1;
        if stack[top] == 0 {
          pc := v;
        }
        return None;
      }
      return Some(Fault(out));
    }

    method Loda(l: int, a: int) returns (stop: Option<Outcome>)
      requires Valid()
      modifies this, stack
      ensures Valid() && Did(ExecLoda(l, a, old(State())), stop)
    {
      if 0 <= top - 1 < MAXMEM && 0 <= l < DISPLAY && 0 <= display[l] + a + stack[top - 1] < MAXMEM {
        stack[top - 1] := stack[display[l] + a + stack[top - 1]];
        return None;
      }
      return Some(Fault(out));
    }

    method Stoa(l: int, a: int) returns (stop: Option<Outcome>)
      requires Valid()
      modifies this, stack
      ensures Valid() && Did(ExecStoa(l, a, old(State())), stop)
    {
      if 0 <= top - 2 && top - 1 < MAXMEM && 0 <= l < DISPLAY
         && 0 <= display[l] + a + stack[top - 2] < MAXMEM {
        top := top - 1;
        stack[display[l] + a + stack[top - 1]] := stack[top];
        top := top - 1;
        return None;
      }
      return Some(Fault(out));
    }

    method Operate(p: Operator) returns (stop: Option<Outcome>)
      requires Valid()
      modifies this, stack
      ensures Valid() && Did(ExecOperator(p, old(State())), stop)
    {
      match p {
        case Neg =>
          if 0 <= top - 1 < MAXMEM && Int32(-stack[top - 1]) {
            stack[top - 1] := -stack[top - 1];
            return None;
          }
        case Odd =>
          if 0 <= top - 1 < MAXMEM {
            stack[top - 1] := stack[top - 1] % 2;
            return None;
          }
        case Wrt =>
          if 0 <= top - 1 < MAXMEM {
            top := top - 1;
            out := out + [Printed(stack[top])];
            return None;
          }
        case Wrl =>
          out := out + [NewLine];
          return None;
        case _ =>
          if 0 <= top - 2 && top - 1 < MAXMEM {
            var r := Binary(p, stack[top - 2], stack[top - 1]);
            if r.Some? {
              top := top - 1;
              stack[top - 1] := r.value;
              return None;
            }
          }
      }
      return Some(Fault(out));
    }

    /** Fetch the instruction at `pc`, execute it, and stop if that left
        `pc` at 0. */
    method Cycle(code: seq<Inst>) returns (stop: Option<Outcome>)
      requires Valid()
      modifies this, stack, display
      ensures Valid() && Did(Step(code, old(State())), stop)
    {
      if !(0 <= pc < |code|) {
        return Some(Fault(out));
      }
      var i := code[pc];
      pc := pc + 1;
      stop := Perform(i);
      if stop.None? && pc == 0 {
        stop := Some(Halted(out));
      }
    }

    /** Execute one instruction, `pc` already advanced past it. */
    method Perform(i: Inst) returns (stop: Option<Outcome>)
      requires Valid()
      modifies this, stack, display
      ensures Valid() && Did(Exec(i, old(State())), stop)
    {
      match i.op {
        case Lit => stop := Push(i.value);
        case Lod => stop := Lod(i.value, i.addr);
        case Sto => stop := Sto(i.value, i.addr);
        case Cal => stop := Cal(i.value, i.addr);
        case Ret => stop := Ret(i.value, i.addr);
        case Ict => stop := Ict(i.value);
        case Jmp => pc := i.value; stop := None;
        case Jpc => stop := Jpc(i.value);
        case Opr =>
          var p := OperatorOf(i.value);
          if p.Some? {
            stop := Operate(p.value);
          } else {
            stop := Loda(i.value, i.addr);
          }
        case Loda => stop := Loda(i.value, i.addr);
        case Stoa => stop := Stoa(i.value, i.addr);
        case Retp => stop := Retp(i.value, i.addr);
      }
    }
  }

  /** Run `code` from the initial state until `pc` returns to 0, a fatal
      error, undefined behaviour, or `fuel` steps. */
  method Execute(code: seq<Inst>, fuel: nat) returns (r: Outcome)
    ensures r == Run(code, Init(), fuel)
  {
    var m := new VM();
    var f := fuel;
    while f > 0
      invariant m.Valid() && Run(code, m.State(), f) == Run(code, Init(), fuel)
    {
      var stop := m.Cycle(code);
      if stop.Some? {
        return stop.value;
      }
      f := f - 1;
    }
    return OutOfFuel;
  }
}
