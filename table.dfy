/** The name table: an append-only array of declared names with the block
    structure kept as saved table heights and saved allocation counters, one
    per enclosing block, and lookup by a backward scan with a sentinel. */
module Table {
  import opened Tokens
  import opened Source

  const MAXTABLE: int := 100
  const MAXLEVEL: int := 5

  /** What a declared name stands for. */
  datatype KindT = VarId | FuncId | ProcId | ParId | ConstId

  /** A run-time address: the block level and the offset in that block's frame. */
  datatype RelAddr = RelAddr(level: int, addr: int)

  /** One cell of the name table. The value of a constant and the level of
      an address share one word (`lv`); `addr` is the offset or the first
      instruction of a function, and `pars` its parameter count. */
  datatype Entry = Entry(kind: KindT, name: string, lv: int, addr: int, pars: int)

  /** The all-zero cell of the static table. */
  const ZeroEntry: Entry := Entry(VarId, "", 0, 0, 0)

  /** The position of the newest name spelled `id` among cells 1..t, or 0
      when none is. */
  function Find(tbl: seq<Entry>, t: int, id: string): (r: nat)
    requires 0 <= t < |tbl|
    ensures r <= t
    ensures r > 0 ==> tbl[r].name == id
    ensures forall j | r < j <= t :: tbl[j].name != id
    decreases t
  {
    if t == 0 then 0
    else if tbl[t].name == id then t
    else Find(tbl, t - 1, id)
  }

  /** A name just entered at the top hides every earlier name spelled the same. */
  lemma FindNewest(tbl: seq<Entry>, t: int, id: string)
    requires 0 < t < |tbl| && tbl[t].name == id
    ensures Find(tbl, t, id) == t
  {
  }

  /** Lookups below height `t` depend only on the names in cells 1..t: a
      table whose lower names are unchanged answers every lookup the same. */
  lemma FindFrame(tbl: seq<Entry>, tbl': seq<Entry>, t: int, id: string)
    requires 0 <= t < |tbl| && t < |tbl'|
    requires forall j | 1 <= j <= t :: tbl[j].name == tbl'[j].name
    ensures Find(tbl, t, id) == Find(tbl', t, id)
  {
  }

  /** A name entered at `t + 1` is found by its own spelling and leaves the
      lookup of every other spelling as it was. */
  lemma FindAfterEnter(tbl: seq<Entry>, t: int, e: Entry, id: string)
    requires 0 <= t && t + 1 < |tbl|
    ensures Find(tbl[t + 1 := e], t + 1, id) == if e.name == id then t + 1 else Find(tbl, t, id)
  {
    if e.name != id {
      FindFrame(tbl[t + 1 := e], tbl, t, id);
    }
  }

  class SymbolTable {
    /** Cells 1..MAXTABLE hold names; cell 0 is the sentinel of the lookup.
        Cell MAXTABLE is one past the end of the C array: the hundredth name
        is written there (see README). */
    const nameTable: array<Entry>
    /** index[l], addr[l]: table height and allocation counter of the block
        at level l, saved while an inner block is open. */
    const index: array<int>
    const addr: array<int>
    var tIndex: int
    var level: int
    var localAddr: int
    var tfIndex: int

    ghost predicate Valid()
      reads this, index
    {
      && nameTable.Length == MAXTABLE + 1 && index.Length == MAXLEVEL && addr.Length == MAXLEVEL
      && index != addr
      && -1 <= level < MAXLEVEL
      && 0 <= tIndex <= MAXTABLE
      && 0 <= tfIndex <= MAXTABLE
      && (forall l | 0 <= l < MAXLEVEL :: 0 <= index[l] <= MAXTABLE)
    }

    /** The static initial state: all cells zero, no block open. */
    constructor ()
      ensures Valid() && fresh(nameTable) && fresh(index) && fresh(addr)
      ensures tIndex == 0 && level == -1 && localAddr == 0 && tfIndex == 0
      ensures forall j | 0 <= j < nameTable.Length :: nameTable[j] == ZeroEntry
    {
      nameTable := new Entry[MAXTABLE + 1](_ => ZeroEntry);
      index := new int[MAXLEVEL](_ => 0);
      addr := new int[MAXLEVEL](_ => 0);
      tIndex, level, localAddr, tfIndex := 0, -1, 0, 0;
    }

    /** The names of every cell, as a sequence. */
    function Cells(): seq<Entry>
      reads this, nameTable
    {
      nameTable[..]
    }

    /** Open a block whose first variable gets address `firstAddr`. The main
        block starts the table afresh and saves nothing; an inner block saves
        the height and the counter of the enclosing one. */
    method BlockBegin(firstAddr: int, err: Errors)
      requires Valid() && err.Valid() && !err.fatal
      modifies this, index, addr, err
      ensures Valid() && err.Valid()
      ensures tfIndex == old(tfIndex)
      ensures old(level) == -1 ==>
        && level == 0 && tIndex == 0 && localAddr == firstAddr
        && unchanged(err) && unchanged(index) && unchanged(addr)
      ensures old(level) == MAXLEVEL - 1 ==>
        && err.fatal && err.log == old(err.log) + [Message("too many nested blocks")]
        && err.errorNo == old(err.errorNo) + 1
      ensures -1 < old(level) < MAXLEVEL - 1 ==>
        && level == old(level) + 1 && tIndex == old(tIndex) && localAddr == firstAddr
        && index[..] == old(index[..])[old(level) := old(tIndex)]
        && addr[..] == old(addr[..])[old(level) := old(localAddr)]
        && unchanged(err)
    {
      if level == -1 {
        localAddr := firstAddr;
        tIndex := 0;
        level := level + 1;
        return;
      }
      if level == MAXLEVEL - 1 {
        err.ErrorF("too many nested blocks");
        return;
      }
      index[level] := tIndex;
      addr[level] := localAddr;
      localAddr := firstAddr;
      level := level + 1;
    }

    /** Close the current block: the enclosing block's height and counter
        come back. Closing the main block only leaves level -1. */
    method BlockEnd()
      requires Valid() && 0 <= level
      modifies this
      ensures Valid() && level == old(level) - 1 && tfIndex == old(tfIndex)
      ensures old(level) == 0 ==> tIndex == old(tIndex) && localAddr == old(localAddr)
      ensures old(level) > 0 ==> tIndex == index[level] && localAddr == addr[level]
    {
      level := level - 1;
      if level >= 0 {
        tIndex := index[level];
        localAddr := addr[level];
      }
    }

    /** The level of the current block: -1 before the main block opens,
        and never MAXLEVEL or more. */
    function BLevel(): (l: int)
      reads this, index
      ensures Valid() ==> -1 <= l < MAXLEVEL
    {
      level
    }

    /** The current block belongs to a procedure. The main block does not. */
    function InProcedureBlock(): (b: bool)
      reads this, index, nameTable
      requires Valid() && 0 <= level
      ensures b ==> 0 < level && KindOf(index[level - 1]) == ProcId
      ensures 0 < level && KindOf(index[level - 1]) == ProcId ==> b
    {
      level > 0 && nameTable[index[level - 1]].kind == ProcId
    }

    /** The parameter count of the function or procedure whose block is
        current; 0 for the main block. */
    function FPars(): (n: int)
      reads this, index, nameTable
      requires Valid() && 0 <= level
      ensures level == 0 ==> n == 0
      ensures 0 < level ==> n == ParsOf(index[level - 1])
    {
      if level == 0 then 0 else nameTable[index[level - 1]].pars
    }

    /** The kind word of cell `i`. */
    function KindOf(i: int): (k: KindT)
      reads nameTable
      requires 0 <= i < nameTable.Length
      ensures k == nameTable[..][i].kind
    {
      nameTable[i].kind
    }

    /** The address of cell `ti`: its level word and its offset word. */
    function RelAddrOf(ti: int): (r: RelAddr)
      reads nameTable
      requires 0 <= ti < nameTable.Length
      ensures r.level == nameTable[..][ti].lv && r.addr == nameTable[..][ti].addr
    {
      RelAddr(nameTable[ti].lv, nameTable[ti].addr)
    }

    /** The value of a constant, read from the word that holds the level of
        an address: the two share storage. */
    function Val(ti: int): (v: int)
      reads nameTable
      requires 0 <= ti < nameTable.Length
      ensures v == RelAddrOf(ti).level
    {
      nameTable[ti].lv
    }

    /** The parameter count of the function or procedure in cell `ti`. */
    function ParsOf(ti: int): (n: int)
      reads nameTable
      requires 0 <= ti < nameTable.Length
      ensures n == nameTable[..][ti].pars
    {
      nameTable[ti].pars
    }

    /** The frame size of the current block: its next free address, the
        number of cells the block's `ict` reserves. */
    function FrameL(): (n: int)
      reads this
      ensures n == localAddr
    {
      localAddr
    }

    /** Reserve `n` more cells of the current frame. */
    method ForwardAllocatedAddr(n: int)
      requires Valid()
      modifies this
      ensures Valid() && localAddr == old(localAddr) + n
      ensures tIndex == old(tIndex) && level == old(level) && tfIndex == old(tfIndex)
    {
      localAddr := localAddr + n;
    }

    /** The height grew by one and every cell but the new top is as before. */
    twostate predicate Pushed()
      reads this, nameTable
    {
      && tIndex == old(tIndex) + 1
      && (forall j | 0 <= j < nameTable.Length && j != tIndex :: nameTable[j] == old(nameTable[j]))
    }

    /** The table was full: "too many names" is the fatal diagnostic. */
    twostate predicate Full(err: Errors)
      reads err
    {
      err.fatal && err.log == old(err.log) + [Message("too many names")]
      && err.errorNo == old(err.errorNo) + 1
    }

    /** Take the next cell for `id`; its other words keep what they held.
        A full table is fatal. */
    method EnterT(id: string, err: Errors)
      requires Valid() && err.Valid() && !err.fatal
      modifies this, nameTable, err
      ensures Valid() && err.Valid()
      ensures level == old(level) && localAddr == old(localAddr) && tfIndex == old(tfIndex)
      ensures old(tIndex) < MAXTABLE ==>
        && Pushed() && nameTable[tIndex] == old(nameTable[tIndex + 1]).(name := id)
        && unchanged(err)
      ensures old(tIndex) >= MAXTABLE ==> Full(err) && tIndex == old(tIndex) && unchanged(nameTable)
    {
      if tIndex < MAXTABLE {
        tIndex := tIndex + 1;
        nameTable[tIndex] := nameTable[tIndex].(name := id);
      } else {
        err.ErrorF("too many names");
      }
    }

    /** Enter a function or procedure that starts at instruction `v`. It
        becomes the entry whose parameters are counted next. */
    method EnterTsequence(id: string, v: int, kind: KindT, err: Errors) returns (ti: int)
      requires Valid() && err.Valid() && !err.fatal
      modifies this, nameTable, err
      ensures Valid() && err.Valid()
      ensures level == old(level) && localAddr == old(localAddr)
      ensures old(tIndex) < MAXTABLE ==>
        && Pushed() && ti == tIndex == tfIndex && unchanged(err)
        && nameTable[ti] == old(nameTable[ti]).(name := id, kind := kind, lv := old(level), addr := v, pars := 0)
      ensures old(tIndex) >= MAXTABLE ==> Full(err) && tIndex == old(tIndex) && unchanged(nameTable)
      ensures ti == tIndex
    {
      EnterT(id, err);
      ti := tIndex;
      if err.fatal {
        return;
      }
      nameTable[tIndex] := nameTable[tIndex].(kind := kind);
      nameTable[tIndex] := nameTable[tIndex].(lv := level);
      nameTable[tIndex] := nameTable[tIndex].(addr := v);
      nameTable[tIndex] := nameTable[tIndex].(pars := 0);
      tfIndex := tIndex;
    }

    method EnterTfunc(id: string, v: int, err: Errors) returns (ti: int)
      requires Valid() && err.Valid() && !err.fatal
      modifies this, nameTable, err
      ensures Valid() && err.Valid()
      ensures level == old(level) && localAddr == old(localAddr)
      ensures old(tIndex) < MAXTABLE ==>
        && Pushed() && ti == tIndex == tfIndex && unchanged(err)
        && nameTable[ti] == old(nameTable[ti]).(name := id, kind := FuncId, lv := old(level), addr := v, pars := 0)
      ensures old(tIndex) >= MAXTABLE ==> Full(err) && tIndex == old(tIndex) && unchanged(nameTable)
      ensures ti == tIndex
    {
      ti := EnterTsequence(id, v, FuncId, err);
    }

    method EnterTproc(id: string, v: int, err: Errors) returns (ti: int)
      requires Valid() && err.Valid() && !err.fatal
      modifies this, nameTable, err
      ensures Valid() && err.Valid()
      ensures level == old(level) && localAddr == old(localAddr)
      ensures old(tIndex) < MAXTABLE ==>
        && Pushed() && ti == tIndex == tfIndex && unchanged(err)
        && nameTable[ti] == old(nameTable[ti]).(name := id, kind := ProcId, lv := old(level), addr := v, pars := 0)
      ensures old(tIndex) >= MAXTABLE ==> Full(err) && tIndex == old(tIndex) && unchanged(nameTable)
      ensures ti == tIndex
    {
      ti := EnterTsequence(id, v, ProcId, err);
    }

    /** Enter a parameter of the function at `tfIndex` and count it there;
        its address is filled in by `EndPar`. */
    method EnterTpar(id: string, err: Errors) returns (ti: int)
      requires Valid() && err.Valid() && !err.fatal
      modifies this, nameTable, err
      ensures Valid() && err.Valid()
      ensures level == old(level) && localAddr == old(localAddr) && tfIndex == old(tfIndex)
      ensures old(tIndex) < MAXTABLE ==> tIndex == old(tIndex) + 1 && ti == tIndex && unchanged(err)
      ensures old(tIndex) < MAXTABLE && tfIndex != tIndex ==>
        && ti == tIndex
        && (forall j | 0 <= j < nameTable.Length && j != tIndex && j != tfIndex :: nameTable[j] == old(nameTable[j]))
        && nameTable[ti] == old(nameTable[ti]).(name := id, kind := ParId, lv := old(level))
        && nameTable[tfIndex] == old(nameTable[tfIndex]).(pars := old(nameTable[tfIndex].pars) + 1)
      ensures old(tIndex) >= MAXTABLE ==> Full(err) && tIndex == old(tIndex) && unchanged(nameTable)
      ensures ti == tIndex
    {
      EnterT(id, err);
      ti := tIndex;
      if err.fatal {
        return;
      }
      nameTable[tIndex] := nameTable[tIndex].(kind := ParId);
      nameTable[tIndex] := nameTable[tIndex].(lv := level);
      nameTable[tfIndex] := nameTable[tfIndex].(pars := nameTable[tfIndex].pars + 1);
    }

    /** Enter a variable at the next free address of the current frame. */
    method EnterTvar(id: string, err: Errors) returns (ti: int)
      requires Valid() && err.Valid() && !err.fatal
      modifies this, nameTable, err
      ensures Valid() && err.Valid()
      ensures level == old(level) && tfIndex == old(tfIndex)
      ensures old(tIndex) < MAXTABLE ==>
        && Pushed() && ti == tIndex && unchanged(err)
        && nameTable[ti] == old(nameTable[ti]).(name := id, kind := VarId, lv := old(level), addr := old(localAddr))
        && localAddr == old(localAddr) + 1
        && KindOf(ti) == VarId && RelAddrOf(ti) == RelAddr(level, old(localAddr))
      ensures old(tIndex) >= MAXTABLE ==> Full(err) && tIndex == old(tIndex) && unchanged(nameTable)
      ensures ti == tIndex
    {
      EnterT(id, err);
      ti := tIndex;
      if err.fatal {
        return;
      }
      nameTable[tIndex] := nameTable[tIndex].(kind := VarId);
      nameTable[tIndex] := nameTable[tIndex].(lv := level);
      nameTable[tIndex] := nameTable[tIndex].(addr := localAddr);
      localAddr := localAddr + 1;
    }

    /** Enter a constant with value `v`. */
    method EnterTconst(id: string, v: int, err: Errors) returns (ti: int)
      requires Valid() && err.Valid() && !err.fatal
      modifies this, nameTable, err
      ensures Valid() && err.Valid()
      ensures level == old(level) && localAddr == old(localAddr) && tfIndex == old(tfIndex)
      ensures old(tIndex) < MAXTABLE ==>
        && Pushed() && ti == tIndex && unchanged(err)
        && nameTable[ti] == old(nameTable[ti]).(name := id, kind := ConstId, lv := v)
        && KindOf(ti) == ConstId && Val(ti) == v
      ensures old(tIndex) >= MAXTABLE ==> Full(err) && tIndex == old(tIndex) && unchanged(nameTable)
      ensures ti == tIndex
    {
      EnterT(id, err);
      ti := tIndex;
      if err.fatal {
        return;
      }
      nameTable[tIndex] := nameTable[tIndex].(kind := ConstId);
      nameTable[tIndex] := nameTable[tIndex].(lv := v);
    }

    /** At the end of a parameter list: the `j`-th of the `n` parameters
        gets address j-1-n, so the last one sits just below the frame. */
    method EndPar()
      requires Valid() && tfIndex + nameTable[tfIndex].pars <= MAXTABLE
      modifies nameTable
      ensures Valid()
      ensures forall j | 0 <= j < nameTable.Length ::
        nameTable[j] == if tfIndex < j <= tfIndex + old(nameTable[tfIndex].pars)
                        then old(nameTable[j]).(addr := ParamAddr(j - tfIndex, old(nameTable[tfIndex].pars)))
                        else old(nameTable[j])
    {
      var pars := nameTable[tfIndex].pars;
      if pars <= 0 {
        return;
      }
      for i := 1 to pars + 1
        invariant forall j | 0 <= j < nameTable.Length ::
          nameTable[j] == if tfIndex < j < tfIndex + i
                          then old(nameTable[j]).(addr := ParamAddr(j - tfIndex, pars))
                          else old(nameTable[j])
      {
        nameTable[tfIndex + i] := nameTable[tfIndex + i].(addr := i - 1 - pars);
      }
    }

    /** Set the first instruction of the function at `ti`. */
    method ChangeV(ti: int, newVal: int)
      requires Valid() && 0 <= ti <= MAXTABLE
      modifies nameTable
      ensures Valid()
      ensures nameTable[ti] == old(nameTable[ti]).(addr := newVal)
      ensures forall j | 0 <= j < nameTable.Length && j != ti :: nameTable[j] == old(nameTable[j])
    {
      nameTable[ti] := nameTable[ti].(addr := newVal);
    }

    /** Look `id` up, newest first. A miss records "undef"; for a variable
        use the name is then declared on the spot, for other uses the answer
        is 0. */
    method SearchT(id: string, k: KindT, err: Errors) returns (i: int)
      requires Valid() && err.Valid() && !err.fatal
      modifies this, nameTable, err
      ensures Valid() && err.Valid() && level == old(level) && tfIndex == old(tfIndex)
      ensures 0 <= i <= tIndex && err.errorNo >= old(err.errorNo) && tIndex >= old(tIndex)
      ensures forall j | 1 <= j <= old(tIndex) :: nameTable[j] == old(nameTable[j])
      ensures Find(old(nameTable[..]), old(tIndex), id) > 0 ==>
        && i == Find(old(nameTable[..]), old(tIndex), id)
        && unchanged(err) && tIndex == old(tIndex) && localAddr == old(localAddr)
        && nameTable[0] == old(nameTable[0]).(name := id)
        && (forall j | 1 <= j < nameTable.Length :: nameTable[j] == old(nameTable[j]))
      ensures Find(old(nameTable[..]), old(tIndex), id) == 0 ==>
        && |err.log| > |old(err.log)| && err.log[..|old(err.log)| + 1] == old(err.log) + [TypeError("undef")]
        && err.errorNo > old(err.errorNo)
        && (!err.fatal ==> if k == VarId then Declared(i, id, old(tIndex), old(localAddr))
                           else i == 0 && tIndex == old(tIndex))
    {
      i := ScanNames(id);
      if i != 0 {
        return;
      }
      err.ErrorType("undef");
      if err.fatal {
        return;
      }
      if k == VarId {
        i := EnterTvar(id, err);
      }
    }

    /** The variable entered for an undeclared name. */
    ghost predicate Declared(i: int, id: string, t0: int, a0: int)
      reads this, nameTable
    {
      && i == tIndex == t0 + 1 && 0 <= i < nameTable.Length
      && nameTable[i].name == id && KindOf(i) == VarId && RelAddrOf(i) == RelAddr(level, a0)
    }

    /** The backward scan: the sentinel `id` in cell 0 stops it. */
    method ScanNames(id: string) returns (i: int)
      requires Valid()
      modifies nameTable
      ensures i == Find(old(nameTable[..]), tIndex, id)
      ensures nameTable[0] == old(nameTable[0]).(name := id)
      ensures forall j | 1 <= j < nameTable.Length :: nameTable[j] == old(nameTable[j])
    {
      nameTable[0] := nameTable[0].(name := id);
      i := tIndex;
      while nameTable[i].name != id
        invariant 0 <= i <= tIndex
        invariant forall j | i < j <= tIndex :: nameTable[j].name != id
        decreases i
      {
        i := i - 1;
      }
      FindAgree(old(nameTable[..]), nameTable[..], tIndex, id, i);
    }
  }

  /** A backward scan that stopped at `i` (cell 0 always matching) found
      what `Find` finds. */
  lemma FindAgree(tbl: seq<Entry>, scanned: seq<Entry>, t: int, id: string, i: int)
    requires 0 <= i <= t < |tbl| == |scanned|
    requires forall j | 1 <= j <= t :: tbl[j].name == scanned[j].name
    requires i > 0 ==> scanned[i].name == id
    requires forall j | i < j <= t :: scanned[j].name != id
    ensures Find(tbl, t, id) == i
  {
  }

  /** The address of the `j`-th of `n` parameters: -n .. -1 in order. */
  function ParamAddr(j: int, n: int): int {
    j - 1 - n
  }
}
