/** The scanner and the diagnostic counter: reading characters, turning them
    into tokens, the parser's "expect token K" primitive, and the running count
    of diagnostics with its abort rule. */
module Source {
  import opened Tokens

  /** More counted diagnostics than this abort the compilation. */
  const MAXERROR: int := 30
  const EOFMESSAGE: string := "end of file\n"

  /** One call into the diagnostic sink. */
  datatype Diag =
    | TypeError(what: string)
    | Insert(key: KeyId)
    | MissingId
    | MissingOp
    | Delete(token: Token)
    | Message(text: string)

  /** Every diagnostic but a deletion adds one to the error count. */
  predicate Counted(d: Diag) {
    !d.Delete?
  }

  function CountOf(log: seq<Diag>): nat {
    if log == [] then 0
    else CountOf(log[..|log| - 1]) + (if Counted(log[|log| - 1]) then 1 else 0)
  }

  lemma CountOfAppend(log: seq<Diag>, d: Diag)
    ensures CountOf(log + [d]) == CountOf(log) + (if Counted(d) then 1 else 0)
  {
    assert (log + [d])[..|log + [d]| - 1] == log;
  }

  /** The counter of diagnostics, the record of what was sent to the sink, and
      whether the process has stopped (a fatal error or too many errors). */
  class Errors {
    var errorNo: int
    var log: seq<Diag>
    var fatal: bool

    ghost predicate Valid()
      reads this
    {
      && errorNo == CountOf(log)
      && errorNo <= MAXERROR + 2
      && (!fatal ==> errorNo <= MAXERROR + 1)
    }

    /** How many more counted diagnostics can be recorded before the abort. */
    function Budget(): nat
      reads this
      requires Valid()
    {
      MAXERROR + 2 - errorNo
    }

    /** The number of counted diagnostics recorded so far (`compile`
        compares it with MINERROR). */
    function ErrorN(): (n: int)
      reads this
      ensures Valid() ==> n == CountOf(log) && n >= 0
    {
      errorNo
    }

    constructor ()
      ensures Valid() && errorNo == 0 && log == [] && !fatal
    {
      errorNo, log, fatal := 0, [], false;
    }

    /** What recording `d` did: appended it, counted it unless it is a
        deletion, and aborted when the count before was already over MAXERROR. */
    twostate predicate Recorded(d: Diag)
      reads this
    {
      && log == old(log) + [d]
      && errorNo == old(errorNo) + (if Counted(d) then 1 else 0)
      && fatal == (Counted(d) && old(errorNo) > MAXERROR)
    }

    /** Count one diagnostic; abort when the count before exceeded MAXERROR. */
    method ErrorNoCheck()
      requires !fatal
      modifies this
      ensures errorNo == old(errorNo) + 1 && log == old(log)
      ensures fatal == (old(errorNo) > MAXERROR)
    {
      if errorNo > MAXERROR {
        fatal := true;
      }
      errorNo := errorNo + 1;
    }

    method Record(d: Diag)
      requires Valid() && !fatal
      modifies this
      ensures Valid() && Recorded(d)
    {
      CountOfAppend(log, d);
      log := log + [d];
      if Counted(d) {
        ErrorNoCheck();
      }
    }

    method ErrorType(m: string)
      requires Valid() && !fatal
      modifies this
      ensures Valid() && Recorded(TypeError(m))
    {
      Record(TypeError(m));
    }

    method ErrorInsert(k: KeyId)
      requires Valid() && !fatal
      modifies this
      ensures Valid() && Recorded(Insert(k))
    {
      Record(Insert(k));
    }

    method ErrorMissingId()
      requires Valid() && !fatal
      modifies this
      ensures Valid() && Recorded(MissingId)
    {
      Record(MissingId);
    }

    method ErrorMissingOp()
      requires Valid() && !fatal
      modifies this
      ensures Valid() && Recorded(MissingOp)
    {
      Record(MissingOp);
    }

    /** A deletion is shown but not counted. */
    method ErrorDelete(t: Token)
      requires Valid() && !fatal
      modifies this
      ensures Valid() && Recorded(Delete(t))
      ensures errorNo == old(errorNo) && !fatal
    {
      Record(Delete(t));
    }

    method ErrorMessage(m: string)
      requires Valid() && !fatal
      modifies this
      ensures Valid() && Recorded(Message(m))
    {
      Record(Message(m));
    }

    /** A fatal error: the message is counted like any other, then the
        process stops. */
    method ErrorF(m: string)
      requires Valid() && !fatal
      modifies this
      ensures Valid() && fatal
      ensures log == old(log) + [Message(m)] && errorNo == old(errorNo) + 1
    {
      ErrorMessage(m);
      fatal := true;
    }
  }

  /** The characters the scanner sees: the initial newline held in `ch`
      before the first read, then the source text line by line. A last line
      with no newline ends in the '\0' that terminates fgets's buffer, which
      nextChar hands back as the character after that line. */
  function Stream(src: seq<char>): (s: seq<char>)
    ensures |s| == |src| + 2 || |s| == |src| + 1
    ensures |s| == |src| + 2 <==> src != [] && src[|src| - 1] != '\n'
    ensures s[0] == '\n' && s[1..|src| + 1] == src
    ensures s[|s| - 1] == '\n' || s[|s| - 1] == '\0'
  {
    if src == [] || src[|src| - 1] == '\n' then ['\n'] + src else ['\n'] + src + ['\0']
  }

  /** A run's end lies at or before any character outside the run. */
  lemma {:induction false} RunEndBefore(s: seq<char>, p: nat, i: nat, digitsOnly: bool)
    requires p <= i < |s| && !InRun(s[i], digitsOnly)
    ensures RunEnd(s, p, digitsOnly) <= i
    decreases i - p
  {
    if p < i && InRun(s[p], digitsOnly) {
      RunEndBefore(s, p + 1, i, digitsOnly);
    }
  }

  /** On the stream of any text, every token whose first character lies in
      the text is read in full: a word, numeral or operator that ends the
      text is still followed by a newline or by the buffer's '\0', so it
      never runs into the end of the input. */
  lemma TextTokensComplete(src: seq<char>, q: nat)
    requires 1 <= q <= |src| && !IsBlank(src[q - 1])
    ensures ScanAt(Stream(src), q).Scanned?
  {
    var s := Stream(src);
    var last := |s| - 1;
    assert s[q] == src[q - 1];
    assert q < last;
    EndedAt(s, q, last);
  }

  /** A token that starts before a final newline or '\0' is read in full:
      no run, and no second character of a pair, takes in that character. */
  lemma EndedAt(s: seq<char>, q: nat, last: nat)
    requires q < last == |s| - 1 && (s[last] == '\n' || s[last] == '\0')
    ensures ScanAt(s, q).Scanned?
  {
    var cc := CharClass(s[q]);
    if cc == Letter {
      RunEndBefore(s, q + 1, last, false);
    } else if cc == Digit {
      RunEndBefore(s, q + 1, last, true);
    } else if q + 1 == last {
      assert s[q + 1] != '=' && s[q + 1] != '>';
    }
  }

  /** A program whose final `.` has no newline after it scans to that
      period, just as one whose `.` ends a full line. */
  lemma FinalPeriodScanned()
    ensures ScanAll(Stream("."), 0) == [KeyToken(Period)]
    ensures ScanAll(Stream(".\n"), 0) == [KeyToken(Period)]
  {
    var s := Stream(".");
    assert s == ['\n', '.', '\0'];
    assert CharClass('.') == Period && CharClass('\0') == Others;
    assert SkipBlanks(s, 0) == 1;
    assert Scan(s, 0) == Scanned(KeyToken(Period), 2, []);
    assert SkipBlanks(s, 2) == 2;
    assert Scan(s, 2) == EndOfInput;
    var t := Stream(".\n");
    assert t == ['\n', '.', '\n'];
    assert SkipBlanks(t, 0) == 1;
    assert Scan(t, 0) == Scanned(KeyToken(Period), 2, []);
    assert SkipBlanks(t, 2) == 3;
    assert Scan(t, 2) == EndOfInput;
  }

  predicate IsBlank(c: char) {
    c == ' ' || c == '\t' || c == '\n'
  }

  /** The first position at or after `p` holding a non-blank character, or
      |s| when there is none. */
  function SkipBlanks(s: seq<char>, p: nat): (q: nat)
    requires p <= |s|
    ensures p <= q <= |s|
    ensures forall j | p <= j < q :: IsBlank(s[j])
    ensures q < |s| ==> !IsBlank(s[q])
    decreases |s| - p
  {
    if p == |s| then p
    else if IsBlank(s[p]) then SkipBlanks(s, p + 1)
    else p
  }

  /** Membership in a run: letters and digits for identifiers, digits only
      for numerals. */
  predicate InRun(c: char, digitsOnly: bool) {
    if digitsOnly then IsDigitChar(c) else IsAlnum(c)
  }

  /** The end of the run that continues at `p`: the first position at or
      after `p` outside the run, or |s|. */
  function RunEnd(s: seq<char>, p: nat, digitsOnly: bool): (r: nat)
    requires p <= |s|
    ensures p <= r <= |s|
    decreases |s| - p
  {
    if p == |s| then p
    else if InRun(s[p], digitsOnly) then RunEnd(s, p + 1, digitsOnly)
    else p
  }

  /** A run is maximal: every character before its end belongs to it and the
      character at its end (if any) does not. */
  lemma {:induction false} RunEndIsMaximal(s: seq<char>, p: nat, digitsOnly: bool)
    requires p <= |s|
    ensures forall j | p <= j < RunEnd(s, p, digitsOnly) :: InRun(s[j], digitsOnly)
    ensures RunEnd(s, p, digitsOnly) < |s| ==> !InRun(s[RunEnd(s, p, digitsOnly)], digitsOnly)
    decreases |s| - p
  {
    if p < |s| && InRun(s[p], digitsOnly) {
      RunEndIsMaximal(s, p + 1, digitsOnly);
    }
  }

  /** A run that ends at `e` has end `e`. */
  lemma {:induction false} RunEndAt(s: seq<char>, p: nat, e: nat, digitsOnly: bool)
    requires p <= e <= |s|
    requires forall j | p <= j < e :: InRun(s[j], digitsOnly)
    requires e < |s| ==> !InRun(s[e], digitsOnly)
    ensures RunEnd(s, p, digitsOnly) == e
    decreases e - p
  {
    if p < e {
      RunEndAt(s, p + 1, e, digitsOnly);
    }
  }

  function DigitValue(c: char): int {
    c as int - '0' as int
  }

  /** The value of a digit string folded left to right as v := 10*v + d. */
  function DecimalValue(s: seq<char>): int {
    if s == [] then 0
    else 10 * DecimalValue(s[..|s| - 1]) + DigitValue(s[|s| - 1])
  }

  /** The fold over unbounded integers never goes negative. C's `num` is a
      32-bit `int`, so a long enough numeral wraps and can come out negative;
      that wrap-around is not modelled. */
  lemma {:induction false} DecimalValueNonNegative(s: seq<char>)
    requires forall j | 0 <= j < |s| :: IsDigitChar(s[j])
    ensures DecimalValue(s) >= 0
  {
    if s != [] {
      DecimalValueNonNegative(s[..|s| - 1]);
    }
  }

  /** An identifier's spelling as stored: names of MAXNAME or more characters
      keep their first MAXNAME-1. */
  function Truncated(w: seq<char>): seq<char> {
    if |w| >= MAXNAME then w[..MAXNAME - 1] else w
  }

  /** How many characters of a run of length `n` the identifier buffer keeps. */
  function Kept(n: int): int {
    if n < MAXNAME then n else MAXNAME
  }

  function IdentToken(w: string): Token {
    match Keyword(w)
    case Some(k) => KeyToken(k)
    case None => Token(Id, w, 0)
  }

  /** What one call of the scanner yields from position `p` of the stream:
      the token, the position of the character left in `ch`, and the
      diagnostics it records; or the end of the input. */
  datatype ScanResult =
    | Scanned(token: Token, next: nat, diags: seq<Diag>)
    | EndOfInput

  /** A result that consumes at least the character at `q`, stays inside the
      stream and records at most one counted diagnostic. */
  predicate Advances(r: ScanResult, q: nat, n: nat) {
    r.Scanned? ==> q < r.next < n && |r.diags| <= 1 && forall d | d in r.diags :: Counted(d)
  }

  /** An identifier or reserved word starting with the letter at `q`. */
  function ScanWord(s: seq<char>, q: nat): (r: ScanResult)
    requires q < |s|
    ensures Advances(r, q, |s|)
  {
    var e := RunEnd(s, q + 1, false);
    if e == |s| then EndOfInput
    else
      var w := s[q..e];
      Scanned(IdentToken(Truncated(w)), e, if |w| >= MAXNAME then [Message("too long")] else [])
  }

  /** A numeral starting with the digit at `q`. */
  function ScanNumeral(s: seq<char>, q: nat): (r: ScanResult)
    requires q < |s|
    ensures Advances(r, q, |s|)
  {
    var e := RunEnd(s, q + 1, true);
    if e == |s| then EndOfInput
    else Scanned(Token(Num, "", DecimalValue(s[q..e])), e, if e - q > MAXNUM then [Message("too large")] else [])
  }

  /** A two-character operator whose first character is at `q`. */
  function Pair(s: seq<char>, q: nat, k: KeyId): (r: ScanResult)
    requires q + 1 < |s|
    ensures Advances(r, q, |s|)
  {
    if q + 2 == |s| then EndOfInput else Scanned(KeyToken(k), q + 2, [])
  }

  /** An operator or delimiter (or an unclassified character) of class `cc`
      at `q`: `:`, `<` and `>` look one character ahead. */
  function ScanSymbol(s: seq<char>, q: nat, cc: KeyId): (r: ScanResult)
    requires q < |s|
    ensures Advances(r, q, |s|)
  {
    if q + 1 == |s| then EndOfInput
    else if cc == Colon then
      if s[q + 1] == '=' then Pair(s, q, Assign) else Scanned(KeyToken(Nul), q + 1, [])
    else if cc == Lss then
      if s[q + 1] == '=' then Pair(s, q, LssEq)
      else if s[q + 1] == '>' then Pair(s, q, NotEq)
      else Scanned(KeyToken(Lss), q + 1, [])
    else if cc == Gtr then
      if s[q + 1] == '=' then Pair(s, q, GtrEq) else Scanned(KeyToken(Gtr), q + 1, [])
    else Scanned(KeyToken(cc), q + 1, [])
  }

  /** One token from position `p`: blanks are skipped, then the class of the
      first other character decides the token's shape. */
  function Scan(s: seq<char>, p: nat): (r: ScanResult)
    requires p < |s|
    ensures Advances(r, p, |s|)
  {
    var q := SkipBlanks(s, p);
    if q == |s| then EndOfInput else ScanAt(s, q)
  }

  /** The token whose first character is at `q`, by that character's class. */
  function ScanAt(s: seq<char>, q: nat): (r: ScanResult)
    requires q < |s|
    ensures Advances(r, q, |s|)
  {
    var cc := CharClass(s[q]);
    if cc == Letter then ScanWord(s, q)
    else if cc == Digit then ScanNumeral(s, q)
    else ScanSymbol(s, q, cc)
  }

  /** The scanner never yields `for`, `call`, `[` or `]`. */
  lemma ScanNeverBracket(s: seq<char>, p: nat)
    requires p < |s|
    ensures Scan(s, p).Scanned? ==> !Unscanned(Scan(s, p).token.kind)
  {
    var q := SkipBlanks(s, p);
    if q < |s| {
      var cc := CharClass(s[q]);
      ClassNeverBracket(s[q]);
      if cc == Letter {
        WordNeverBracket(s, q);
      } else if cc != Digit {
        SymbolKinds(s, q, cc);
      }
    }
  }

  lemma WordNeverBracket(s: seq<char>, q: nat)
    requires q < |s|
    ensures ScanWord(s, q).Scanned? ==> !Unscanned(ScanWord(s, q).token.kind)
  {
    var e := RunEnd(s, q + 1, false);
    if e < |s| {
      IdentNeverBracket(Truncated(s[q..e]));
    }
  }

  lemma IdentNeverBracket(w: string)
    ensures !Unscanned(IdentToken(w).kind)
  {
    KeywordNeverUnscanned(w);
  }

  /** The operators that look one character ahead, case by case: a pair is
      consumed whole, and a lone `:`, `<` or `>` leaves the character after it
      unread; any other class is a one-character token of that class. */
  lemma ScanOperators(s: seq<char>, q: nat, cc: KeyId)
    requires q + 2 < |s|
    ensures cc == Colon && s[q + 1] == '=' ==> ScanSymbol(s, q, cc) == Scanned(KeyToken(Assign), q + 2, [])
    ensures cc == Colon && s[q + 1] != '=' ==> ScanSymbol(s, q, cc) == Scanned(KeyToken(Nul), q + 1, [])
    ensures cc == Lss && s[q + 1] == '=' ==> ScanSymbol(s, q, cc) == Scanned(KeyToken(LssEq), q + 2, [])
    ensures cc == Lss && s[q + 1] == '>' ==> ScanSymbol(s, q, cc) == Scanned(KeyToken(NotEq), q + 2, [])
    ensures cc == Lss && s[q + 1] != '=' && s[q + 1] != '>' ==>
      ScanSymbol(s, q, cc) == Scanned(KeyToken(Lss), q + 1, [])
    ensures cc == Gtr && s[q + 1] == '=' ==> ScanSymbol(s, q, cc) == Scanned(KeyToken(GtrEq), q + 2, [])
    ensures cc == Gtr && s[q + 1] != '=' ==> ScanSymbol(s, q, cc) == Scanned(KeyToken(Gtr), q + 1, [])
    ensures cc != Colon && cc != Lss && cc != Gtr ==> ScanSymbol(s, q, cc) == Scanned(KeyToken(cc), q + 1, [])
  {
  }

  /** A two-character operator yields its kind with no diagnostic and
      consumes both characters, unless the input ends right after it. */
  lemma PairConsumesBoth(s: seq<char>, q: nat, k: KeyId)
    requires q + 1 < |s|
    ensures Pair(s, q, k).EndOfInput? <==> q + 2 == |s|
    ensures Pair(s, q, k).Scanned? ==> Pair(s, q, k) == Scanned(KeyToken(k), q + 2, [])
  {
  }

  lemma SymbolKinds(s: seq<char>, q: nat, cc: KeyId)
    requires q < |s|
    ensures ScanSymbol(s, q, cc).Scanned? ==>
      var k := ScanSymbol(s, q, cc).token.kind;
      k == Assign || k == Nul || k == LssEq || k == NotEq || k == Lss || k == GtrEq || k == Gtr || k == cc
  {
  }

  /** Identifiers: the spelling is the maximal letter/digit run that starts
      with a letter, cut to MAXNAME-1 characters when MAXNAME or longer (with
      a "too long" message); an exact match with a reserved word yields that
      word, otherwise an identifier carrying the spelling. */
  lemma ScanIdentifier(s: seq<char>, q: nat)
    requires q < |s| && CharClass(s[q]) == Letter
    ensures ScanWord(s, q).Scanned? ==>
      var e := ScanWord(s, q).next;
      && (forall j | q <= j < e :: IsAlnum(s[j]))
      && !IsAlnum(s[e])
      && (e - q >= MAXNAME ==> ScanWord(s, q).diags == [Message("too long")])
      && (e - q < MAXNAME ==> ScanWord(s, q).diags == [])
      && var w := if e - q >= MAXNAME then s[q..q + MAXNAME - 1] else s[q..e];
         && (Keyword(w).Some? ==> ScanWord(s, q).token == KeyToken(Keyword(w).value))
         && (Keyword(w).None? ==> ScanWord(s, q).token == Token(Id, w, 0))
  {
    var e := RunEnd(s, q + 1, false);
    if e < |s| {
      RunEndIsMaximal(s, q + 1, false);
      AlnumClass(s[q]);
      assert forall j | q <= j < e :: IsAlnum(s[j]);
      TruncatedRun(s, q, e);
      var w := if e - q >= MAXNAME then s[q..q + MAXNAME - 1] else s[q..e];
      IdentTokenCases(w);
      assert ScanWord(s, q) == Scanned(IdentToken(w), e, if e - q >= MAXNAME then [Message("too long")] else []);
    }
  }

  /** The token of a spelling: the reserved word it spells, or an identifier. */
  lemma IdentTokenCases(w: string)
    ensures Keyword(w).Some? ==> IdentToken(w) == KeyToken(Keyword(w).value)
    ensures Keyword(w).None? ==> IdentToken(w) == Token(Id, w, 0)
  {
  }

  /** The stored spelling of the run s[q..e]. */
  lemma TruncatedRun(s: seq<char>, q: nat, e: nat)
    requires q <= e <= |s|
    ensures Truncated(s[q..e]) == if e - q >= MAXNAME then s[q..q + MAXNAME - 1] else s[q..e]
  {
  }

  /** Numerals: the maximal digit run, valued by the fold 10*v + d; more than
      MAXNUM digits records "too large" but the token still carries the value. */
  lemma ScanNumber(s: seq<char>, q: nat)
    requires q < |s| && CharClass(s[q]) == Digit
    ensures ScanNumeral(s, q).Scanned? ==>
      var e := ScanNumeral(s, q).next;
      && (forall j | q <= j < e :: IsDigitChar(s[j]))
      && !IsDigitChar(s[e])
      && ScanNumeral(s, q).token == Token(Num, "", DecimalValue(s[q..e]))
      && DecimalValue(s[q..e]) >= 0
      && (ScanNumeral(s, q).diags == [] <==> e - q <= MAXNUM)
  {
    RunEndIsMaximal(s, q + 1, true);
    var e := RunEnd(s, q + 1, true);
    if e < |s| {
      DecimalValueNonNegative(s[q..e]);
    }
  }

  /** The scanner: the source text, the class table, the position of the
      character held in `ch`, and the last token read. */
  class Lexer {
    /** The characters read in order, as `Stream` gives them for the source
        text. */
    const input: seq<char>
    const charClassT: array<KeyId>
    var pos: nat
    var ch: char
    var cToken: Token

    ghost predicate Valid()
      reads this, charClassT
    {
      && charClassT.Length == 256
      && (forall i | 0 <= i < 256 :: charClassT[i] == CodeClass(i))
      && pos < |input|
      && ch == input[pos]
    }

    /** Characters still to be read. */
    function Remaining(): nat
      reads this
      requires pos < |input|
    {
      |input| - 1 - pos
    }

    /** The static initial state: nothing read yet, the class table still
        unset and the last token all zero (kind Begin). */
    constructor (text: seq<char>)
      ensures input == Stream(text) && fresh(charClassT) && charClassT.Length == 256
      ensures pos == 0 && ch == '\n' && cToken == KeyToken(Begin)
    {
      input := Stream(text);
      charClassT := new KeyId[256](_ => Others);
      pos, ch := 0, '\n';
      cToken := KeyToken(Begin);
    }

    /** The class of a character through the table; characters outside the
        table are `others`. */
    method ClassOf(c: char) returns (k: KeyId)
      requires Valid()
      ensures k == CharClass(c)
      ensures k == Letter || k == Digit <==> IsAlnum(c)
      ensures k == Digit <==> IsDigitChar(c)
    {
      k := if (c as int) < 256 then charClassT[c as int] else Others;
      AlnumClass(c);
    }

    /** The table says `c` continues an identifier: it is a letter or a digit. */
    method ContinuesWord(c: char) returns (b: bool)
      requires Valid()
      ensures b <==> IsAlnum(c)
    {
      var k := ClassOf(c);
      b := k == Letter || k == Digit;
    }

    /** The table says `c` continues a numeral: it is a digit. */
    method ContinuesNumeral(c: char) returns (b: bool)
      requires Valid()
      ensures b <==> IsDigitChar(c)
    {
      var k := ClassOf(c);
      b := k == Digit;
    }

    /** Fill the class table: letters, digits, the single-character symbols,
        and `others` everywhere else. */
    method InitCharClassT()
      requires charClassT.Length == 256
      modifies charClassT
      ensures forall i | 0 <= i < 256 :: charClassT[i] == CodeClass(i)
    {
      FillAlnum();
      SetSymbols();
    }

    /** The four loops of the table set-up: all `others`, then digits and letters. */
    method FillAlnum()
      requires charClassT.Length == 256
      modifies charClassT
      ensures forall j | 0 <= j < 256 :: charClassT[j] == AlnumCode(j)
    {
      for i := 0 to 256
        invariant forall j | 0 <= j < i :: charClassT[j] == Others
      {
        charClassT[i] := Others;
      }
      for i := '0' as int to '9' as int + 1
        invariant forall j | 0 <= j < 256 ::
          charClassT[j] == if '0' as int <= j < i then Digit else Others
      {
        charClassT[i] := Digit;
      }
      for i := 'A' as int to 'Z' as int + 1
        invariant forall j | 0 <= j < 256 ::
          charClassT[j] == if '0' as int <= j <= '9' as int then Digit
                           else if 'A' as int <= j < i then Letter else Others
      {
        charClassT[i] := Letter;
      }
      for i := 'a' as int to 'z' as int + 1
        invariant forall j | 0 <= j < 256 ::
          charClassT[j] == if '0' as int <= j <= '9' as int then Digit
                           else if 'A' as int <= j <= 'Z' as int || 'a' as int <= j < i then Letter
                           else Others
      {
        charClassT[i] := Letter;
      }
    }

    /** The thirteen single-character entries, set over the letter/digit
        table one after the other, in the order of `SymbolEntries`. */
    method SetSymbols()
      requires charClassT.Length == 256
      requires forall j | 0 <= j < 256 :: charClassT[j] == AlnumCode(j)
      modifies charClassT
      ensures forall i | 0 <= i < 256 :: charClassT[i] == CodeClass(i)
    {
      forall j | 0 <= j < 256 ensures charClassT[j] == PartialClass(j, 0) {
        SymbolOrder(j);
      }
      for m := 0 to |SymbolEntries|
        invariant forall j | 0 <= j < 256 :: charClassT[j] == PartialClass(j, m)
      {
        SymbolEntry(m);
        var (c, k) := SymbolEntries[m];
        charClassT[c as int] := k;
        forall j | 0 <= j < 256 ensures charClassT[j] == PartialClass(j, m + 1) {
          if j != c as int {
            RankInjective(j, c as int);
          }
        }
      }
      forall i | 0 <= i < 256 ensures charClassT[i] == CodeClass(i) {
        SymbolOrder(i);
      }
    }

    /** Ready to read: nothing consumed, `ch` holds a newline. */
    method InitSource()
      requires charClassT.Length == 256 && |input| > 0 && input[0] == '\n'
      modifies this, charClassT
      ensures Valid() && pos == 0 && ch == '\n' && cToken == old(cToken)
    {
      pos := 0;
      ch := '\n';
      InitCharClassT();
    }

    /** Read the next character into `ch`; past the end of the stream the
        compilation stops with "end of file". */
    method NextChar(err: Errors)
      requires Valid() && err.Valid() && !err.fatal
      modifies this`pos, this`ch, err
      ensures Valid() && err.Valid()
      ensures old(pos) + 1 < |input| ==>
        pos == old(pos) + 1 && !err.fatal && err.log == old(err.log) && err.errorNo == old(err.errorNo)
      ensures old(pos) + 1 == |input| ==>
        pos == old(pos) && err.fatal && err.log == old(err.log) + [Message(EOFMESSAGE)]
        && err.errorNo == old(err.errorNo) + 1
    {
      if pos + 1 == |input| {
        err.ErrorF(EOFMESSAGE);
        return;
      }
      pos := pos + 1;
      ch := input[pos];
    }

    /** The state a scan result `res` leaves behind, where `log0` and `n0`
        were the diagnostic log and count before the scan: the end of the
        input is fatal; otherwise the diagnostics are recorded and, unless
        they aborted, `t` is the token and `ch` the character after it. */
    ghost predicate Yields(res: ScanResult, log0: seq<Diag>, n0: int, t: Token, err: Errors)
      reads this, err
    {
      match res
      case EndOfInput =>
        err.fatal && err.log == log0 + [Message(EOFMESSAGE)] && err.errorNo == n0 + 1
      case Scanned(tok, next, ds) =>
        && err.log == log0 + ds
        && err.errorNo == n0 + |ds|
        && (err.fatal <==> ds != [] && n0 > MAXERROR)
        && (!err.fatal ==> t == tok && pos == next)
    }

    /** The state one scan from position `p0` leaves behind. */
    ghost predicate TokenRead(p0: nat, log0: seq<Diag>, n0: int, t: Token, err: Errors)
      reads this, err
      requires p0 < |input|
    {
      Yields(Scan(input, p0), log0, n0, t, err) && (!err.fatal ==> cToken == t)
    }

    method SkipSpace(err: Errors)
      requires Valid() && err.Valid() && !err.fatal
      modifies this`pos, this`ch, err
      ensures Valid() && err.Valid() && pos >= old(pos)
      ensures !err.fatal ==>
        pos == SkipBlanks(input, old(pos)) && err.log == old(err.log) && err.errorNo == old(err.errorNo)
      ensures err.fatal ==>
        SkipBlanks(input, old(pos)) == |input|
        && err.log == old(err.log) + [Message(EOFMESSAGE)] && err.errorNo == old(err.errorNo) + 1
    {
      ghost var s := input;
      while IsBlank(ch)
        invariant Valid() && err.Valid() && !err.fatal
        invariant old(pos) <= pos && SkipBlanks(s, pos) == SkipBlanks(s, old(pos))
        invariant err.log == old(err.log) && err.errorNo == old(err.errorNo)
        decreases |input| - pos
      {
        NextChar(err);
        if err.fatal {
          return;
        }
      }
    }

    /** Read the letter/digit run that starts at `ch`, keeping its first
        MAXNAME characters. */
    method ReadRun(err: Errors) returns (ident: seq<char>, i: int)
      requires Valid() && err.Valid() && !err.fatal
      modifies this`pos, this`ch, err
      ensures Valid() && err.Valid() && pos >= old(pos)
      ensures err.fatal <==> RunEnd(input, old(pos) + 1, false) == |input|
      ensures err.fatal ==>
        err.log == old(err.log) + [Message(EOFMESSAGE)] && err.errorNo == old(err.errorNo) + 1
      ensures !err.fatal ==>
        && err.log == old(err.log) && err.errorNo == old(err.errorNo)
        && pos == RunEnd(input, old(pos) + 1, false) && i == pos - old(pos)
        && ident == input[old(pos)..old(pos) + Kept(i)]
    {
      ghost var s := input;
      ghost var q := pos;
      ident := [ch];
      i := 1;
      assert s[q..q + Kept(i)] == ident;
      NextChar(err);
      if err.fatal {
        return;
      }
      var more := ContinuesWord(ch);
      while more
        invariant Valid() && err.Valid() && !err.fatal
        invariant more <==> IsAlnum(ch)
        invariant q < pos && i == pos - q
        invariant forall j | q + 1 <= j < pos :: InRun(s[j], false)
        invariant ident == s[q..q + Kept(i)]
        invariant err.log == old(err.log) && err.errorNo == old(err.errorNo)
        decreases |input| - pos
      {
        if i < MAXNAME {
          assert s[q..q + i + 1] == s[q..q + i] + [ch];
          ident := ident + [ch];
        }
        i := i + 1;
        NextChar(err);
        if err.fatal {
          RunEndAt(s, q + 1, |s|, false);
          return;
        }
        more := ContinuesWord(ch);
      }
      RunEndAt(s, q + 1, pos, false);
    }

    /** The keyword table searched in order: the reserved word spelled
        `spelled`, or an identifier. */
    static method LookupKeyword(spelled: string) returns (t: Token)
      ensures t == IdentToken(spelled)
      ensures t.kind == Id <==> Keyword(spelled).None?
    {
      for k := 0 to |KeyWdT|
        invariant KeywordFrom(spelled, k) == Keyword(spelled)
      {
        if spelled == KeyWdT[k].0 {
          t := KeyToken(KeyWdT[k].1);
          KeywordIsReserved(spelled);
          return;
        }
      }
      t := Token(Id, spelled, 0);
    }

    method ReadWord(err: Errors) returns (t: Token)
      requires Valid() && err.Valid() && !err.fatal && CharClass(ch) == Letter
      modifies this`pos, this`ch, err
      ensures Valid() && err.Valid() && pos >= old(pos)
      ensures Yields(ScanWord(input, old(pos)), old(err.log), old(err.errorNo), t, err)
    {
      ghost var s := input;
      ghost var q := pos;
      t := cToken;
      var ident, i := ReadRun(err);
      if err.fatal {
        return;
      }
      if i >= MAXNAME {
        err.ErrorMessage("too long");
        if err.fatal {
          return;
        }
        i := MAXNAME - 1;
      }
      var spelled := ident[..i];
      assert spelled == Truncated(s[q..pos]);
      t := LookupKeyword(spelled);
    }

    method ReadNumeral(err: Errors) returns (t: Token)
      requires Valid() && err.Valid() && !err.fatal && CharClass(ch) == Digit
      modifies this`pos, this`ch, err
      ensures Valid() && err.Valid() && pos >= old(pos)
      ensures Yields(ScanNumeral(input, old(pos)), old(err.log), old(err.errorNo), t, err)
    {
      ghost var q := pos;
      t := cToken;
      var num := DigitValue(ch);
      assert input[q..q + 1][..0] == [];
      NextChar(err);
      if err.fatal {
        return;
      }
      var i;
      num, i := ReadDigits(err, q, num, 1);
      if err.fatal {
        return;
      }
      if i > MAXNUM {
        err.ErrorMessage("too large");
        if err.fatal {
          return;
        }
      }
      t := Token(Num, "", num);
    }

    /** The rest of the digit run of a numeral that started at `q`, folding
        each digit into `num` and counting it in `i`. */
    method ReadDigits(err: Errors, ghost q: nat, num0: int, i0: int) returns (num: int, i: int)
      requires Valid() && err.Valid() && !err.fatal
      requires q < pos && i0 == pos - q && num0 == DecimalValue(input[q..pos])
      modifies this`pos, this`ch, err
      ensures Valid() && err.Valid() && pos >= old(pos)
      ensures err.fatal <==> RunEnd(input, old(pos), true) == |input|
      ensures err.fatal ==>
        err.log == old(err.log) + [Message(EOFMESSAGE)] && err.errorNo == old(err.errorNo) + 1
      ensures !err.fatal ==>
        && pos == RunEnd(input, old(pos), true) && i == pos - q && num == DecimalValue(input[q..pos])
        && err.log == old(err.log) && err.errorNo == old(err.errorNo)
    {
      ghost var s := input;
      num, i := num0, i0;
      var more := ContinuesNumeral(ch);
      while more
        invariant Valid() && err.Valid() && !err.fatal
        invariant more <==> IsDigitChar(ch)
        invariant old(pos) <= pos && i == pos - q
        invariant RunEnd(s, pos, true) == RunEnd(s, old(pos), true)
        invariant num == DecimalValue(s[q..pos])
        invariant err.log == old(err.log) && err.errorNo == old(err.errorNo)
        decreases |input| - pos
      {
        assert s[q..pos + 1][..pos - q] == s[q..pos];
        num := 10 * num + DigitValue(ch);
        i := i + 1;
        NextChar(err);
        if err.fatal {
          return;
        }
        more := ContinuesNumeral(ch);
      }
    }

    /** Read the second character of `:=`, `<=`, `<>` or `>=`. */
    method ReadPair(err: Errors, k: KeyId) returns (t: Token)
      requires Valid() && err.Valid() && !err.fatal && 1 <= pos
      modifies this`pos, this`ch, err
      ensures Valid() && err.Valid() && pos >= old(pos)
      ensures Yields(Pair(input, old(pos) - 1, k), old(err.log), old(err.errorNo), t, err)
    {
      t := KeyToken(k);
      NextChar(err);
    }

    method ReadSymbol(err: Errors, cc: KeyId) returns (t: Token)
      requires Valid() && err.Valid() && !err.fatal && cc == CharClass(ch)
      modifies this`pos, this`ch, err
      ensures Valid() && err.Valid() && pos >= old(pos)
      ensures Yields(ScanSymbol(input, old(pos), cc), old(err.log), old(err.errorNo), t, err)
    {
      ghost var q := pos;
      t := KeyToken(cc);
      NextChar(err);
      if err.fatal {
        assert ScanSymbol(input, q, cc) == EndOfInput;
        return;
      }
      if cc == Colon || cc == Lss || cc == Gtr {
        t := SecondChar(err, cc);
      } else {
        assert ScanSymbol(input, q, cc) == Scanned(KeyToken(cc), q + 1, []);
      }
    }

    /** The character after `:`, `<` or `>`: it completes a two-character
        operator, or it is left for the next token. */
    method SecondChar(err: Errors, cc: KeyId) returns (t: Token)
      requires Valid() && err.Valid() && !err.fatal && 1 <= pos
      requires cc == Colon || cc == Lss || cc == Gtr
      modifies this`pos, this`ch, err
      ensures Valid() && err.Valid() && pos >= old(pos)
      ensures Yields(ScanSymbol(input, old(pos) - 1, cc), old(err.log), old(err.errorNo), t, err)
    {
      t := KeyToken(cc);
      if cc == Colon {
        if ch == '=' {
          t := ReadPair(err, Assign);
        } else {
          t := KeyToken(Nul);
        }
      } else if cc == Lss {
        if ch == '=' {
          t := ReadPair(err, LssEq);
        } else if ch == '>' {
          t := ReadPair(err, NotEq);
        }
      } else if ch == '=' {
        t := ReadPair(err, GtrEq);
      }
    }

    /** Scan one token starting at `ch`. */
    method NextToken(err: Errors) returns (t: Token)
      requires Valid() && err.Valid() && !err.fatal
      modifies this`pos, this`ch, this`cToken, err
      ensures Valid() && err.Valid()
      ensures TokenRead(old(pos), old(err.log), old(err.errorNo), t, err)
      ensures pos >= old(pos) && err.errorNo >= old(err.errorNo)
      ensures !err.fatal ==> pos > old(pos)
    {
      t := cToken;
      SkipSpace(err);
      if err.fatal {
        return;
      }
      t := ReadToken(err);
      if !err.fatal {
        cToken := t;
      }
    }

    /** The token that starts at `ch`, read by the class of `ch`. */
    method ReadToken(err: Errors) returns (t: Token)
      requires Valid() && err.Valid() && !err.fatal
      modifies this`pos, this`ch, err
      ensures Valid() && err.Valid() && pos >= old(pos)
      ensures Yields(ScanAt(input, old(pos)), old(err.log), old(err.errorNo), t, err)
    {
      var cc := ClassOf(ch);
      if cc == Letter {
        t := ReadWord(err);
      } else if cc == Digit {
        t := ReadNumeral(err);
      } else {
        t := ReadSymbol(err, cc);
      }
    }

  }

  /** Every token the scanner yields, from position `p` to the end of the
      input or the first point where it stops. */
  function ScanAll(s: seq<char>, p: nat): seq<Token>
    requires p < |s|
    decreases |s| - p
  {
    match Scan(s, p)
    case EndOfInput => []
    case Scanned(t, n, _) => [t] + ScanAll(s, n)
  }

  /** The diagnostics the scanner records while reading each of those
      tokens, in the same order. */
  function ScanDiags(s: seq<char>, p: nat): seq<seq<Diag>>
    requires p < |s|
    decreases |s| - p
  {
    match Scan(s, p)
    case EndOfInput => []
    case Scanned(_, n, ds) => [ds] + ScanDiags(s, n)
  }

  /** What reading one token may record: nothing, or one counted message. */
  predicate LexDiags(ds: seq<Diag>) {
    |ds| <= 1 && forall d | d in ds :: Counted(d)
  }

  /** One list of diagnostics per token, each of the shape one scan records. */
  lemma {:induction false} ScanDiagsShape(s: seq<char>, p: nat)
    requires p < |s|
    ensures |ScanDiags(s, p)| == |ScanAll(s, p)|
    ensures forall j | 0 <= j < |ScanDiags(s, p)| :: LexDiags(ScanDiags(s, p)[j])
    decreases |s| - p
  {
    match Scan(s, p)
    case EndOfInput =>
    case Scanned(t, n, ds) =>
      ScanDiagsShape(s, n);
  }

  /** The scanner as written never produces `for`, `call`, `[` or `]`, the
      kinds the parser still dispatches on. */
  lemma {:induction false} ScanAllNeverBracket(s: seq<char>, p: nat)
    requires p < |s|
    ensures forall j | 0 <= j < |ScanAll(s, p)| :: !Unscanned(ScanAll(s, p)[j].kind)
    decreases |s| - p
  {
    ScanNeverBracket(s, p);
    match Scan(s, p)
    case EndOfInput =>
    case Scanned(t, n, _) =>
      ScanAllNeverBracket(s, n);
  }

  /** Both kinds are reserved words, or both are operators/delimiters. */
  predicate SameClass(a: KeyId, b: KeyId) {
    (IsKeyWd(a) && IsKeyWd(b)) || (IsKeySym(a) && IsKeySym(b))
  }

  /** The tokens the parser reads, in the order the scanner delivers them,
      with the diagnostics the scanner records while reading each one, and
      the last token read. */
  class TokenStream {
    const tokens: seq<Token>
    const diags: seq<seq<Diag>>
    var next: nat
    var cToken: Token

    ghost predicate Valid()
      reads this
    {
      && next <= |tokens| && |diags| == |tokens|
      && forall j | 0 <= j < |diags| :: LexDiags(diags[j])
    }

    /** Tokens still to be read. */
    function Remaining(): nat
      reads this
      requires Valid()
    {
      |tokens| - next
    }

    /** Nothing read yet; the last token is all zero (kind Begin). The
        scanner's output for a text is `ScanAll` with `ScanDiags`. */
    constructor (ts: seq<Token>, ds: seq<seq<Diag>>)
      requires |ds| == |ts| && forall j | 0 <= j < |ds| :: LexDiags(ds[j])
      ensures Valid() && tokens == ts && diags == ds && next == 0 && cToken == KeyToken(Begin)
    {
      tokens, diags := ts, ds;
      next := 0;
      cToken := KeyToken(Begin);
    }

    /** The diagnostics the scanner records while reading the token at `p`. */
    ghost function LexedAt(p: nat): seq<Diag>
      reads this
    {
      if p < |diags| then diags[p] else []
    }

    /** The state one read from position `p0` leaves behind, where `log0`
        and `n0` were the diagnostic log and count before it: the scanner's
        diagnostics for the token at `p0` are recorded and, unless they
        aborted, that token becomes the last token read; or the end of the
        input is fatal. */
    ghost predicate ReadFrom(p0: nat, log0: seq<Diag>, n0: int, r: Token, err: Errors)
      reads this, err
      requires |diags| == |tokens|
    {
      if p0 < |tokens| then
        && err.log == log0 + diags[p0] && err.errorNo == n0 + |diags[p0]|
        && (err.fatal <==> diags[p0] != [] && n0 > MAXERROR)
        && (!err.fatal ==> r == tokens[p0] && next == p0 + 1 && cToken == r)
      else
        err.fatal && err.log == log0 + [Message(EOFMESSAGE)] && err.errorNo == n0 + 1
    }

    method NextToken(err: Errors) returns (t: Token)
      requires Valid() && err.Valid() && !err.fatal
      modifies this, err
      ensures Valid() && err.Valid()
      ensures ReadFrom(old(next), old(err.log), old(err.errorNo), t, err)
      ensures next >= old(next) && err.errorNo >= old(err.errorNo)
    {
      t := cToken;
      if next == |tokens| {
        err.ErrorF(EOFMESSAGE);
        return;
      }
      var ds := diags[next];
      if ds != [] {
        assert ds == [ds[0]] && Counted(ds[0]);
        err.Record(ds[0]);
        if err.fatal {
          return;
        }
      }
      t := tokens[next];
      next := next + 1;
      cToken := t;
    }

    /** Expect a token of kind `k` where `t` (the token just read) stands.
        A match is consumed; a mismatch within one class is a substitution
        (delete the last token, insert `k`, read on); any other mismatch
        inserts `k` and leaves `t` in place. */
    method CheckGet(t: Token, k: KeyId, err: Errors) returns (r: Token)
      requires Valid() && err.Valid() && !err.fatal
      modifies this, err
      ensures Valid() && err.Valid()
      ensures next >= old(next) && err.errorNo >= old(err.errorNo)
      ensures !err.fatal ==> next > old(next) || err.errorNo > old(err.errorNo)
      ensures t.kind == k ==> ReadFrom(old(next), old(err.log), old(err.errorNo), r, err)
      ensures t.kind != k && SameClass(k, t.kind) ==>
        if old(err.errorNo) > MAXERROR then
          err.fatal && err.log == old(err.log) + [Delete(old(cToken)), Insert(k)]
        else
          ReadFrom(old(next), old(err.log) + [Delete(old(cToken)), Insert(k)], old(err.errorNo) + 1, r, err)
      ensures t.kind != k && !SameClass(k, t.kind) ==>
        && r == t && next == old(next) && cToken == old(cToken)
        && err.log == old(err.log) + [Insert(k)] && err.errorNo == old(err.errorNo) + 1
        && err.fatal == (old(err.errorNo) > MAXERROR)
    {
      if t.kind == k {
        r := NextToken(err);
        return;
      }
      if SameClass(k, t.kind) {
        r := Replace(t, k, err);
        return;
      }
      err.ErrorInsert(k);
      r := t;
    }

    /** The substitution of `checkGet`: delete the last token, insert `k`,
        and read on. */
    method Replace(t: Token, k: KeyId, err: Errors) returns (r: Token)
      requires Valid() && err.Valid() && !err.fatal
      modifies this, err
      ensures Valid() && err.Valid()
      ensures next >= old(next) && err.errorNo > old(err.errorNo)
      ensures if old(err.errorNo) > MAXERROR then
          err.fatal && err.log == old(err.log) + [Delete(old(cToken)), Insert(k)]
        else
          ReadFrom(old(next), old(err.log) + [Delete(old(cToken)), Insert(k)], old(err.errorNo) + 1, r, err)
    {
      err.ErrorDelete(cToken);
      err.ErrorInsert(k);
      if err.fatal {
        r := t;
        return;
      }
      r := NextToken(err);
    }

    /** The program must end with a period; otherwise one is inserted. */
    method FinalSource(err: Errors)
      requires Valid() && err.Valid() && !err.fatal
      modifies err
      ensures err.Valid()
      ensures cToken.kind == Period ==> err.log == old(err.log) && err.errorNo == old(err.errorNo) && !err.fatal
      ensures cToken.kind != Period ==> err.Recorded(Insert(Period))
    {
      if cToken.kind != Period {
        err.ErrorInsert(Period);
      }
    }
  }
}
