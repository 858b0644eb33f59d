/** An optional value. */
module Wrappers {
  datatype Option<T> = None | Some(value: T)
}

/** Token kinds, tokens and the two fixed tables the scanner uses: the table of
    reserved words and the character-class table. */
module Tokens {
  import opened Wrappers

  /** Longest identifier spelling plus its terminator. */
  const MAXNAME: int := 31
  /** Longest numeral without a "too large" diagnostic. */
  const MAXNUM: int := 14

  /** Every key of the scanner, in enumeration order: reserved words, then
      operators and delimiters, then identifier/number/null, then the pure
      character classes that only the class table uses. */
  datatype KeyId =
    | Begin | End | If | Then | Else | Unless | While | Do | Repeat | Until
    | Ret | Func | Var | Const | Odd | Proc | Write | WriteLn | For | Call
    | EndOfKeyWd
    | Plus | Minus | Mult | Div | Lparen | Rparen | Equal | Lss | Gtr
    | NotEq | LssEq | GtrEq | Comma | Period | Semicolon | Assign
    | Lbracket | Rbracket
    | EndOfKeySym
    | Id | Num | Nul | EndOfToken
    | Letter | Digit | Colon | Others

  /** Position of a key in the enumeration. */
  function Ord(k: KeyId): nat {
    match k
    case Begin => 0 case End => 1 case If => 2 case Then => 3 case Else => 4
    case Unless => 5 case While => 6 case Do => 7 case Repeat => 8 case Until => 9
    case Ret => 10 case Func => 11 case Var => 12 case Const => 13 case Odd => 14
    case Proc => 15 case Write => 16 case WriteLn => 17 case For => 18 case Call => 19
    case EndOfKeyWd => 20
    case Plus => 21 case Minus => 22 case Mult => 23 case Div => 24 case Lparen => 25
    case Rparen => 26 case Equal => 27 case Lss => 28 case Gtr => 29 case NotEq => 30
    case LssEq => 31 case GtrEq => 32 case Comma => 33 case Period => 34
    case Semicolon => 35 case Assign => 36 case Lbracket => 37 case Rbracket => 38
    case EndOfKeySym => 39
    case Id => 40 case Num => 41 case Nul => 42 case EndOfToken => 43
    case Letter => 44 case Digit => 45 case Colon => 46 case Others => 47
  }

  /** The key is a reserved word. */
  predicate IsKeyWd(k: KeyId) {
    Ord(k) < Ord(EndOfKeyWd)
  }

  /** The key is an operator or delimiter. */
  predicate IsKeySym(k: KeyId) {
    if Ord(k) < Ord(EndOfKeyWd) then false else Ord(k) < Ord(EndOfKeySym)
  }

  /** The reserved words, listed independently of the enumeration order. */
  predicate ReservedWord(k: KeyId) {
    match k
    case Begin | End | If | Then | Else | Unless | While | Do | Repeat | Until
       | Ret | Func | Var | Const | Odd | Proc | Write | WriteLn | For | Call => true
    case _ => false
  }

  /** The operators and delimiters, listed independently of the enumeration order. */
  predicate Symbol(k: KeyId) {
    match k
    case Plus | Minus | Mult | Div | Lparen | Rparen | Equal | Lss | Gtr | NotEq
       | LssEq | GtrEq | Comma | Period | Semicolon | Assign | Lbracket | Rbracket => true
    case _ => false
  }

  /** The kinds the parser knows but no table of the scanner lists. */
  predicate Unscanned(k: KeyId) {
    k == For || k == Call || k == Lbracket || k == Rbracket
  }

  /** The reserved-word range test agrees with the list of reserved words. */
  lemma KeyWdClass(k: KeyId)
    ensures IsKeyWd(k) <==> ReservedWord(k)
  {
    match k
    case Begin => {}
    case End => {}
    case If => {}
    case Then => {}
    case Else => {}
    case Unless => {}
    case While => {}
    case Do => {}
    case Repeat => {}
    case Until => {}
    case Ret => {}
    case Func => {}
    case Var => {}
    case Const => {}
    case Odd => {}
    case Proc => {}
    case Write => {}
    case WriteLn => {}
    case For => {}
    case Call => {}
    case EndOfKeyWd => {}
    case Plus => {}
    case Minus => {}
    case Mult => {}
    case Div => {}
    case Lparen => {}
    case Rparen => {}
    case Equal => {}
    case Lss => {}
    case Gtr => {}
    case NotEq => {}
    case LssEq => {}
    case GtrEq => {}
    case Comma => {}
    case Period => {}
    case Semicolon => {}
    case Assign => {}
    case Lbracket => {}
    case Rbracket => {}
    case EndOfKeySym => {}
    case Id => {}
    case Num => {}
    case Nul => {}
    case EndOfToken => {}
    case Letter => {}
    case Digit => {}
    case Colon => {}
    case Others => {}
  }

  /** No key is in both classes, and together they are the keys before the
      end-of-symbols marker. */
  lemma KeyClassesSplit(k: KeyId)
    ensures !(IsKeyWd(k) && IsKeySym(k))
    ensures IsKeyWd(k) || IsKeySym(k) <==> Ord(k) < Ord(EndOfKeySym)
  {
  }

  /** The symbol range test agrees with the list of operators and delimiters
      (the end-of-reserved-words marker itself passes it). */
  lemma KeySymClass(k: KeyId)
    ensures IsKeySym(k) <==> Symbol(k) || k == EndOfKeyWd
  {
    match k
    case Begin => {}
    case End => {}
    case If => {}
    case Then => {}
    case Else => {}
    case Unless => {}
    case While => {}
    case Do => {}
    case Repeat => {}
    case Until => {}
    case Ret => {}
    case Func => {}
    case Var => {}
    case Const => {}
    case Odd => {}
    case Proc => {}
    case Write => {}
    case WriteLn => {}
    case For => {}
    case Call => {}
    case EndOfKeyWd => {}
    case Plus => {}
    case Minus => {}
    case Mult => {}
    case Div => {}
    case Lparen => {}
    case Rparen => {}
    case Equal => {}
    case Lss => {}
    case Gtr => {}
    case NotEq => {}
    case LssEq => {}
    case GtrEq => {}
    case Comma => {}
    case Period => {}
    case Semicolon => {}
    case Assign => {}
    case Lbracket => {}
    case Rbracket => {}
    case EndOfKeySym => {}
    case Id => {}
    case Num => {}
    case Nul => {}
    case EndOfToken => {}
    case Letter => {}
    case Digit => {}
    case Colon => {}
    case Others => {}
  }

  /** A token: its kind and, for identifiers and numerals, its payload. Tokens
      of other kinds carry the empty spelling and value 0. */
  datatype Token = Token(kind: KeyId, id: string, value: int)

  function KeyToken(k: KeyId): Token {
    Token(k, "", 0)
  }

  /** The reserved-word part of the keyword table, in table order. */
  const KeyWdT: seq<(string, KeyId)> := [
    ("begin", Begin), ("end", End), ("if", If), ("then", Then), ("else", Else),
    ("unless", Unless), ("while", While), ("do", Do), ("repeat", Repeat),
    ("until", Until), ("return", Ret), ("function", Func), ("var", Var),
    ("const", Const), ("odd", Odd), ("procedure", Proc), ("write", Write),
    ("writeln", WriteLn)
  ]

  /** The reserved word spelled exactly `w`, searched from the start of the table. */
  function KeywordFrom(w: string, i: nat): (r: Option<KeyId>)
    requires i <= |KeyWdT|
    ensures r.Some? ==> exists j :: i <= j < |KeyWdT| && KeyWdT[j] == (w, r.value)
    ensures r.None? ==> forall j :: i <= j < |KeyWdT| ==> KeyWdT[j].0 != w
    decreases |KeyWdT| - i
  {
    if i == |KeyWdT| then None
    else if KeyWdT[i].0 == w then Some(KeyWdT[i].1)
    else KeywordFrom(w, i + 1)
  }

  function Keyword(w: string): Option<KeyId> {
    KeywordFrom(w, 0)
  }

  /** A spelling the scanner turns into a reserved word always yields a
      reserved word spelled that way, and never `for` or `call`: those two
      are not in the table. */
  lemma KeywordIsReserved(w: string)
    ensures Keyword(w).Some? ==> IsKeyWd(Keyword(w).value) && w == KeyWord(Keyword(w).value)
    ensures Keyword(w).Some? ==> Keyword(w).value != For && Keyword(w).value != Call
  {
    TableKinds();
    TableSpellings();
  }

  lemma TableKinds()
    ensures forall j | 0 <= j < |KeyWdT| :: IsKeyWd(KeyWdT[j].1) && KeyWdT[j].1 != For && KeyWdT[j].1 != Call
  {
    forall j | 0 <= j < |KeyWdT|
      ensures IsKeyWd(KeyWdT[j].1) && KeyWdT[j].1 != For && KeyWdT[j].1 != Call
    {
    }
  }

  /** No spelling turns into one of the keys the scanner never produces. */
  lemma KeywordNeverUnscanned(w: string)
    ensures Keyword(w).Some? ==> !Unscanned(Keyword(w).value)
  {
    TableScanned();
  }

  lemma TableScanned()
    ensures forall j | 0 <= j < |KeyWdT| :: !Unscanned(KeyWdT[j].1)
  {
    forall j | 0 <= j < |KeyWdT|
      ensures !Unscanned(KeyWdT[j].1)
    {
    }
  }

  lemma TableSpellings()
    ensures forall j | 0 <= j < |KeyWdT| :: KeyWdT[j].0 == KeyWord(KeyWdT[j].1)
  {
    forall j | 0 <= j < |KeyWdT|
      ensures KeyWdT[j].0 == KeyWord(KeyWdT[j].1)
    {
    }
  }

  /** The spelling of each reserved word in the table. */
  function KeyWord(k: KeyId): string {
    match k
    case Begin => "begin" case End => "end" case If => "if" case Then => "then"
    case Else => "else" case Unless => "unless" case While => "while" case Do => "do"
    case Repeat => "repeat" case Until => "until" case Ret => "return"
    case Func => "function" case Var => "var" case Const => "const" case Odd => "odd"
    case Proc => "procedure" case Write => "write" case WriteLn => "writeln"
    case _ => ""
  }

  /** The character-class table, stated per character code: digits,
      letters, then the single-character symbols. */
  function CodeClass(n: int): KeyId {
    if '0' as int <= n <= '9' as int then Digit
    else if 'A' as int <= n <= 'Z' as int || 'a' as int <= n <= 'z' as int then Letter
    else SymbolClass(n)
  }

  /** The class table before the symbols are entered: letters, digits, `others`. */
  function AlnumCode(n: int): KeyId {
    if '0' as int <= n <= '9' as int then Digit
    else if 'A' as int <= n <= 'Z' as int || 'a' as int <= n <= 'z' as int then Letter
    else Others
  }

  /** The twelve single-character symbols, the colon, and everything else. */
  function SymbolClass(n: int): (k: KeyId)
    ensures k != Letter && k != Digit
  {
    if n == '+' as int then Plus
    else if n == '-' as int then Minus
    else if n == '*' as int then Mult
    else if n == '/' as int then Div
    else if n == '(' as int then Lparen
    else if n == ')' as int then Rparen
    else if n == '=' as int then Equal
    else if n == '<' as int then Lss
    else if n == '>' as int then Gtr
    else if n == ',' as int then Comma
    else if n == '.' as int then Period
    else if n == ';' as int then Semicolon
    else if n == ':' as int then Colon
    else Others
  }

  /** Where a code stands among the table's thirteen single-character
      entries, in the order they are set; 13 for every other code. */
  function SymbolRank(n: int): nat {
    if n == '+' as int then 0
    else if n == '-' as int then 1
    else if n == '*' as int then 2
    else if n == '/' as int then 3
    else if n == '(' as int then 4
    else if n == ')' as int then 5
    else if n == '=' as int then 6
    else if n == '<' as int then 7
    else if n == '>' as int then 8
    else if n == ',' as int then 9
    else if n == '.' as int then 10
    else if n == ';' as int then 11
    else if n == ':' as int then 12
    else 13
  }

  /** The single-character entries of the class table, in the order they
      are set. */
  const SymbolEntries: seq<(char, KeyId)> := [
    ('+', Plus), ('-', Minus), ('*', Mult), ('/', Div), ('(', Lparen), (')', Rparen),
    ('=', Equal), ('<', Lss), ('>', Gtr), (',', Comma), ('.', Period), (';', Semicolon),
    (':', Colon)
  ]

  /** The `m`-th entry lists a character of rank `m` and its class. */
  lemma SymbolEntry(m: nat)
    requires m < |SymbolEntries|
    ensures (SymbolEntries[m].0 as int) < 256
    ensures SymbolRank(SymbolEntries[m].0 as int) == m
    ensures SymbolClass(SymbolEntries[m].0 as int) == SymbolEntries[m].1
  {
  }

  /** Distinct codes have distinct ranks, unless neither is a symbol. */
  lemma RankInjective(a: int, b: int)
    requires a != b
    ensures SymbolRank(a) == SymbolRank(b) ==> SymbolRank(a) == 13
  {
  }

  /** The class table once the first `m` symbol entries are set. */
  function PartialClass(n: int, m: nat): KeyId {
    if SymbolRank(n) < m then SymbolClass(n) else AlnumCode(n)
  }

  /** Before any symbol entry the table is the letter/digit table, and after
      all thirteen it is the full class table. */
  lemma SymbolOrder(n: int)
    ensures PartialClass(n, 0) == AlnumCode(n)
    ensures PartialClass(n, 13) == CodeClass(n)
  {
  }

  function CharClass(c: char): KeyId {
    CodeClass(c as int)
  }

  /** No character class is `for`, `call`, `[` or `]`: the scanner never
      produces those kinds. */
  lemma ClassNeverBracket(c: char)
    ensures !Unscanned(CharClass(c)) && CharClass(c) != Id && CharClass(c) != Num && CharClass(c) != Nul
  {
  }

  predicate IsAlnum(c: char) {
    '0' <= c <= '9' || 'A' <= c <= 'Z' || 'a' <= c <= 'z'
  }

  predicate IsDigitChar(c: char) {
    '0' <= c <= '9'
  }

  /** Letters and digits are exactly the characters of those two classes. */
  lemma AlnumClass(c: char)
    ensures IsAlnum(c) <==> CharClass(c) == Letter || CharClass(c) == Digit
    ensures IsDigitChar(c) <==> CharClass(c) == Digit
  {
  }
}
