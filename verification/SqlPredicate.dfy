/** The SQL side: the predicate grammar as concrete syntax, and its three-valued meaning.

    The truth tables are those of section 8.12 of ISO/IEC 9075:1992; comparison, BETWEEN, IN and
    NULL predicates are its sections 8.2, 8.3, 8.4 and 8.6. */
module SqlPredicate {
  import opened Text
  import ClassAd

  // ---------------------------------------------------------------------------------------
  // Tokens (ansi/lex.go). The end of the input is the end of the token sequence.

  datatype Token =
    | Ident(text: string)
    | Number(text: string)
    | Str(text: string)
    | Op(text: string)
    | LParen | RParen | Comma | Param
    | Bad(text: string)

  /** kw is spelled in lower case; a token matches it in any case. */
  predicate IsKeyword(t: Token, kw: string) {
    t.Ident? && Fold(t.text) == kw
  }

  predicate AtKeyword(ts: seq<Token>, kw: string) {
    ts != [] && IsKeyword(ts[0], kw)
  }

  predicate IsCompareOp(op: string) {
    op in ["=", "<>", "!=", "<", "<=", ">", ">="]
  }

  // ---------------------------------------------------------------------------------------
  // Concrete syntax. Keywords keep the spelling they were written with.

  /** The right-hand side of a comparison: a literal token, an open placeholder, or the NULL a
      placeholder was bound to. */
  datatype Operand = Literal(t: Token) | Hole | Null

  datatype Pred =
    | Or(l: Pred, kw: string, r: Pred)
    | And(l: Pred, kw: string, r: Pred)
    | Not(kw: string, p: Pred)
    | Paren(p: Pred)
    | Cmp(col: string, op: string, x: Operand)
    | In(col: string, kw: string, items: seq<Operand>)
    | Between(col: string, kw: string, lo: Operand, andKw: string, hi: Operand)
    | IsNull(col: string, isKw: string, notKw: Option<string>, nullKw: string)

  /** The tokens an operand stands for. A bound NULL has none: SQL text cannot spell it here. */
  function OperandTokens(x: Operand): seq<Token> {
    match x
    case Literal(t) => [t]
    case Hole => [Param]
    case Null => []
  }

  function ItemTokens(items: seq<Operand>): seq<Token> {
    if items == [] then []
    else if |items| == 1 then OperandTokens(items[0])
    else OperandTokens(items[0]) + [Comma] + ItemTokens(items[1..])
  }

  /** The token sequence of a predicate. */
  function Tokens(p: Pred): seq<Token> {
    match p
    case Or(l, kw, r) => Tokens(l) + [Ident(kw)] + Tokens(r)
    case And(l, kw, r) => Tokens(l) + [Ident(kw)] + Tokens(r)
    case Not(kw, q) => [Ident(kw)] + Tokens(q)
    case Paren(q) => [LParen] + Tokens(q) + [RParen]
    case Cmp(col, op, x) => [Ident(col), Op(op)] + OperandTokens(x)
    case In(col, kw, items) => [Ident(col), Ident(kw), LParen] + ItemTokens(items) + [RParen]
    case Between(col, kw, lo, andKw, hi) =>
      [Ident(col), Ident(kw)] + OperandTokens(lo) + [Ident(andKw)] + OperandTokens(hi)
    case IsNull(col, isKw, notKw, nullKw) =>
      [Ident(col), Ident(isKw)] + (if notKw.Some? then [Ident(notKw.value)] else []) + [Ident(nullKw)]
  }

  /** The columns a predicate names. */
  function Columns(p: Pred): set<string> {
    match p
    case Or(l, _, r) => Columns(l) + Columns(r)
    case And(l, _, r) => Columns(l) + Columns(r)
    case Not(_, q) => Columns(q)
    case Paren(q) => Columns(q)
    case Cmp(col, _, _) => {col}
    case In(col, _, _) => {col}
    case Between(col, _, _, _, _) => {col}
    case IsNull(col, _, _, _) => {col}
  }

  // ---------------------------------------------------------------------------------------
  // Meaning.

  datatype Truth = True | False | Unknown

  function And3(x: Truth, y: Truth): Truth {
    if x == False || y == False then False else if x == True && y == True then True else Unknown
  }

  function Or3(x: Truth, y: Truth): Truth {
    if x == True || y == True then True else if x == False && y == False then False else Unknown
  }

  function Not3(x: Truth): Truth {
    match x case True => False case False => True case Unknown => Unknown
  }

  datatype SqlValue = VNull | VNum(r: real) | VStr(s: string) | VBool(b: bool)

  function Bool3(b: bool): Truth { if b then True else False }

  function CompareReal(op: string, x: real, y: real): Truth {
    if op == "=" then Bool3(x == y)
    else if op == "<>" || op == "!=" then Bool3(x != y)
    else if op == "<" then Bool3(x < y)
    else if op == "<=" then Bool3(x <= y)
    else if op == ">" then Bool3(x > y)
    else if op == ">=" then Bool3(x >= y)
    else Unknown
  }

  /** SQL comparison: NULL against anything is unknown, strings compare exactly, FALSE is below
      TRUE. */
  function Compare(op: string, x: SqlValue, y: SqlValue): Truth {
    if x.VNum? && y.VNum? then CompareReal(op, x.r, y.r)
    else if x.VBool? && y.VBool? then CompareReal(op, ClassAd.AsNum(x.b), ClassAd.AsNum(y.b))
    else if x.VStr? && y.VStr? && op == "=" then Bool3(x.s == y.s)
    else if x.VStr? && y.VStr? && (op == "<>" || op == "!=") then Bool3(x.s != y.s)
    else Unknown
  }

  /** What a literal token denotes; `num` reads a numeral. */
  function TokenValue(t: Token, num: string -> Option<real>): SqlValue {
    match t
    case Str(s) => VStr(s)
    case Number(w) => (match num(w) case Some(x) => VNum(x) case None => VNull)
    case Ident(w) => if Fold(w) == "true" then VBool(true) else if Fold(w) == "false" then VBool(false) else VNull
    case _ => VNull
  }

  function OperandValue(x: Operand, num: string -> Option<real>): SqlValue {
    match x
    case Literal(t) => TokenValue(t, num)
    case Hole => VNull
    case Null => VNull
  }

  /** A row is an ad: an undefined attribute is the column's NULL. */
  function ColumnValue(v: ClassAd.Value): SqlValue {
    match v
    case Num(r) => VNum(r)
    case Str(s) => VStr(s)
    case Bool(b) => VBool(b)
    case _ => VNull
  }

  function MeaningIn(v: SqlValue, items: seq<Operand>, num: string -> Option<real>): Truth {
    if items == [] then False
    else Or3(Compare("=", v, OperandValue(items[0], num)), MeaningIn(v, items[1..], num))
  }

  function Meaning(p: Pred, ad: string -> ClassAd.Value, num: string -> Option<real>): Truth {
    match p
    case Or(l, _, r) => Or3(Meaning(l, ad, num), Meaning(r, ad, num))
    case And(l, _, r) => And3(Meaning(l, ad, num), Meaning(r, ad, num))
    case Not(_, q) => Not3(Meaning(q, ad, num))
    case Paren(q) => Meaning(q, ad, num)
    case Cmp(col, op, x) => Compare(op, ColumnValue(ad(col)), OperandValue(x, num))
    case In(col, _, items) => MeaningIn(ColumnValue(ad(col)), items, num)
    case Between(col, _, lo, _, hi) =>
      And3(Compare(">=", ColumnValue(ad(col)), OperandValue(lo, num)),
           Compare("<=", ColumnValue(ad(col)), OperandValue(hi, num)))
    case IsNull(col, _, notKw, _) =>
      if notKw.Some? then Bool3(ColumnValue(ad(col)) != VNull) else Bool3(ColumnValue(ad(col)) == VNull)
  }

  // ---------------------------------------------------------------------------------------
  // Placeholders.

  function OperandHoles(x: Operand): nat { if x.Hole? then 1 else 0 }

  function ItemHoles(items: seq<Operand>): nat {
    if items == [] then 0 else OperandHoles(items[0]) + ItemHoles(items[1..])
  }

  /** Placeholders in source order. */
  function Holes(p: Pred): nat {
    match p
    case Or(l, _, r) => Holes(l) + Holes(r)
    case And(l, _, r) => Holes(l) + Holes(r)
    case Not(_, q) => Holes(q)
    case Paren(q) => Holes(q)
    case Cmp(_, _, x) => OperandHoles(x)
    case In(_, _, items) => ItemHoles(items)
    case Between(_, _, lo, _, hi) => OperandHoles(lo) + OperandHoles(hi)
    case IsNull(_, _, _, _) => 0
  }

  /** The operand a placeholder becomes under a binding: xs supplies one operand per hole. */
  function FillOperand(x: Operand, xs: seq<Operand>): Operand
    requires |xs| == OperandHoles(x)
  {
    if x.Hole? then xs[0] else x
  }

  function FillItems(items: seq<Operand>, xs: seq<Operand>): (r: seq<Operand>)
    requires |xs| == ItemHoles(items)
    ensures |r| == |items|
  {
    if items == [] then []
    else
      var h := OperandHoles(items[0]);
      [FillOperand(items[0], xs[..h])] + FillItems(items[1..], xs[h..])
  }

  /** The predicate with its placeholders replaced, in source order. */
  function Fill(p: Pred, xs: seq<Operand>): Pred
    requires |xs| == Holes(p)
  {
    match p
    case Or(l, kw, r) => Or(Fill(l, xs[..Holes(l)]), kw, Fill(r, xs[Holes(l)..]))
    case And(l, kw, r) => And(Fill(l, xs[..Holes(l)]), kw, Fill(r, xs[Holes(l)..]))
    case Not(kw, q) => Not(kw, Fill(q, xs))
    case Paren(q) => Paren(Fill(q, xs))
    case Cmp(col, op, x) => Cmp(col, op, FillOperand(x, xs))
    case In(col, kw, items) => In(col, kw, FillItems(items, xs))
    case Between(col, kw, lo, andKw, hi) =>
      Between(col, kw, FillOperand(lo, xs[..OperandHoles(lo)]), andKw, FillOperand(hi, xs[OperandHoles(lo)..]))
    case IsNull(_, _, _, _) => p
  }
}
