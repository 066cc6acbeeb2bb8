/** The ClassAd expression language as far as the lowering emits it: values, evaluation, and a
    reader from text to expressions with the language's own precedence (|| below && below the
    comparisons below !). */
module ClassAd {
  import opened Text

  datatype Value =
    | Undefined
    | Error
    | Bool(b: bool)
    | Num(r: real)
    | Str(s: string)

  datatype BinOp = Eq | Ne | Lt | Le | Gt | Ge | Identical | Is | Isnt

  datatype Expr =
    | Attr(name: string)
    | Lit(v: Value)
    | Cmp(op: BinOp, l: Expr, r: Expr)
    | And(l: Expr, r: Expr)
    | Or(l: Expr, r: Expr)
    | Not(e: Expr)

  // ---------------------------------------------------------------------------------------
  // Evaluation.

  function AsNum(b: bool): real { if b then 1.0 else 0.0 }

  function CompareNum(op: BinOp, x: real, y: real): Value {
    match op
    case Eq => Bool(x == y)
    case Ne => Bool(x != y)
    case Lt => Bool(x < y)
    case Le => Bool(x <= y)
    case Gt => Bool(x > y)
    case Ge => Bool(x >= y)
    case _ => Error
  }

  /** `==` and `!=` on strings fold case, which is the divergence from SQL. */
  function CompareStr(op: BinOp, x: string, y: string): Value {
    match op
    case Eq => Bool(EqualFold(x, y))
    case Ne => Bool(!EqualFold(x, y))
    case _ => Error
  }

  /** Identity: never undefined, case-sensitive on strings. */
  predicate Same(x: Value, y: Value) { x == y }

  function Compare(op: BinOp, x: Value, y: Value): Value {
    match op
    case Identical => Bool(Same(x, y))
    case Is => Bool(Same(x, y))
    case Isnt => Bool(!Same(x, y))
    case _ =>
      if x == Error || y == Error then Error
      else if x == Undefined || y == Undefined then Undefined
      else if x.Num? && y.Num? then CompareNum(op, x.r, y.r)
      else if x.Bool? && y.Bool? then CompareNum(op, AsNum(x.b), AsNum(y.b))
      else if x.Str? && y.Str? then CompareStr(op, x.s, y.s)
      else Error
  }

  function AndValue(x: Value, y: Value): Value {
    if x == Bool(false) then Bool(false)
    else if x == Bool(true) then (if y.Bool? || y == Undefined then y else Error)
    else if x == Undefined then
      (if y == Bool(false) then Bool(false) else if y.Bool? || y == Undefined then Undefined else Error)
    else Error
  }

  function OrValue(x: Value, y: Value): Value {
    if x == Bool(true) then Bool(true)
    else if x == Bool(false) then (if y.Bool? || y == Undefined then y else Error)
    else if x == Undefined then
      (if y == Bool(true) then Bool(true) else if y.Bool? || y == Undefined then Undefined else Error)
    else Error
  }

  function NotValue(x: Value): Value {
    if x.Bool? then Bool(!x.b) else if x == Undefined then Undefined else Error
  }

  function Eval(e: Expr, ad: string -> Value): Value {
    match e
    case Attr(n) => ad(n)
    case Lit(v) => v
    case Cmp(op, l, r) => Compare(op, Eval(l, ad), Eval(r, ad))
    case And(l, r) => AndValue(Eval(l, ad), Eval(r, ad))
    case Or(l, r) => OrValue(Eval(l, ad), Eval(r, ad))
    case Not(x) => NotValue(Eval(x, ad))
  }

  // ---------------------------------------------------------------------------------------
  // Lexemes of the text.

  datatype Tok =
    | TWord(text: string)
    | TNum(text: string)
    | TStr(text: string)
    | TCmp(op: BinOp)
    | TAnd | TOr | TNot | TOpen | TClose

  predicate IsWordStart(c: char) { c == '_' || 'a' <= c <= 'z' || 'A' <= c <= 'Z' }
  predicate IsWordChar(c: char) { IsWordStart(c) || IsDigit(c) }
  predicate IsNumChar(c: char) { IsDigit(c) || c == '.' || c == 'e' || c == 'E' || c == '+' || c == '-' }

  /** A name: what a bare attribute reference may be. */
  predicate IsWord(s: string) {
    s != "" && IsWordStart(s[0]) && forall i :: 0 <= i < |s| ==> IsWordChar(s[i])
  }

  predicate IsNumeral(s: string) {
    && s != ""
    && (IsDigit(s[0]) || (s[0] == '-' && |s| > 1 && IsDigit(s[1])))
    && forall i :: 0 <= i < |s| ==> IsNumChar(s[i])
  }

  function WordLen(s: string): (n: nat)
    ensures n <= |s|
  {
    if s == "" || !IsWordChar(s[0]) then 0 else 1 + WordLen(s[1..])
  }

  function NumLen(s: string): (n: nat)
    ensures n <= |s|
  {
    if s == "" || !IsNumChar(s[0]) then 0 else 1 + NumLen(s[1..])
  }

  /** The value of a string literal after its opening quote, and the characters read. */
  function Unescape(s: string): (r: Option<(string, nat)>)
    ensures r.Some? ==> 0 < r.value.1 <= |s|
  {
    if s == "" then None
    else if s[0] == '"' then Some(("", 1))
    else if s[0] == '\\' then
      if |s| == 1 then None
      else
        var c := if s[1] == 'n' then '\n' else if s[1] == 't' then '\t' else if s[1] == 'r' then '\r' else s[1];
        match Unescape(s[2..])
        case None => None
        case Some((v, n)) => Some(([c] + v, n + 2))
    else
      match Unescape(s[1..])
      case None => None
      case Some((v, n)) => Some(([s[0]] + v, n + 1))
  }

  /** An operator lexeme at the front of s: the longest match first. */
  function LexSymbol(s: string): (r: Option<(Tok, nat)>)
    requires s != ""
    ensures r.Some? ==> 0 < r.value.1 <= |s|
  {
    if s[0] == '(' then Some((TOpen, 1))
    else if s[0] == ')' then Some((TClose, 1))
    else if |s| >= 3 && s[0] == '=' && s[1] == '?' && s[2] == '=' then Some((TCmp(Identical), 3))
    else if |s| >= 2 && s[0] == '=' && s[1] == '=' then Some((TCmp(Eq), 2))
    else if |s| >= 2 && s[0] == '!' && s[1] == '=' then Some((TCmp(Ne), 2))
    else if |s| >= 2 && s[0] == '<' && s[1] == '=' then Some((TCmp(Le), 2))
    else if |s| >= 2 && s[0] == '>' && s[1] == '=' then Some((TCmp(Ge), 2))
    else if |s| >= 2 && s[0] == '&' && s[1] == '&' then Some((TAnd, 2))
    else if |s| >= 2 && s[0] == '|' && s[1] == '|' then Some((TOr, 2))
    else if s[0] == '<' then Some((TCmp(Lt), 1))
    else if s[0] == '>' then Some((TCmp(Gt), 1))
    else if s[0] == '!' then Some((TNot, 1))
    else None
  }

  /** A word is a name, unless it is one of the two operators spelled as words. */
  function WordTok(w: string): Tok {
    if Fold(w) == "is" then TCmp(Is) else if Fold(w) == "isnt" then TCmp(Isnt) else TWord(w)
  }

  /** The lexeme at the front of non-blank text. */
  function LexOne(s: string): (r: Option<(Tok, nat)>)
    requires s != ""
    ensures r.Some? ==> 0 < r.value.1 <= |s|
  {
    if IsWordStart(s[0]) then
      var n := WordLen(s);
      Some((WordTok(s[..n]), n))
    else if IsDigit(s[0]) || (s[0] == '-' && |s| > 1 && IsDigit(s[1])) then
      Some((TNum(s[..NumLen(s)]), NumLen(s)))
    else if s[0] == '"' then
      match Unescape(s[1..])
      case None => None
      case Some((v, n)) => Some((TStr(v), n + 1))
    else LexSymbol(s)
  }

  function Lex(s: string): Option<seq<Tok>>
    decreases |s|
  {
    if s == "" then Some([])
    else if s[0] == ' ' then Lex(s[1..])
    else
      match LexOne(s)
      case None => None
      case Some((t, n)) =>
        match Lex(s[n..])
        case None => None
        case Some(ts) => Some([t] + ts)
  }

  // ---------------------------------------------------------------------------------------
  // Parsing with precedence. `num` is the reading of a numeral.

  datatype Parsed = Fail | Got(e: Expr, rest: seq<Tok>)

  function ParseOr(ts: seq<Tok>, num: string -> Option<real>): (r: Parsed)
    ensures r.Got? ==> |r.rest| < |ts|
    decreases |ts|, 4
  {
    match ParseAnd(ts, num)
    case Fail => Fail
    case Got(l, rest) => OrTail(l, rest, num)
  }

  function OrTail(l: Expr, ts: seq<Tok>, num: string -> Option<real>): (r: Parsed)
    ensures r.Got? ==> |r.rest| <= |ts|
    decreases |ts|, 0
  {
    if ts == [] || ts[0] != TOr then Got(l, ts)
    else
      match ParseAnd(ts[1..], num)
      case Fail => Fail
      case Got(r, rest) => OrTail(Or(l, r), rest, num)
  }

  function ParseAnd(ts: seq<Tok>, num: string -> Option<real>): (r: Parsed)
    ensures r.Got? ==> |r.rest| < |ts|
    decreases |ts|, 3
  {
    match ParseCmp(ts, num)
    case Fail => Fail
    case Got(l, rest) => AndTail(l, rest, num)
  }

  function AndTail(l: Expr, ts: seq<Tok>, num: string -> Option<real>): (r: Parsed)
    ensures r.Got? ==> |r.rest| <= |ts|
    decreases |ts|, 0
  {
    if ts == [] || ts[0] != TAnd then Got(l, ts)
    else
      match ParseCmp(ts[1..], num)
      case Fail => Fail
      case Got(r, rest) => AndTail(And(l, r), rest, num)
  }

  function ParseCmp(ts: seq<Tok>, num: string -> Option<real>): (r: Parsed)
    ensures r.Got? ==> |r.rest| < |ts|
    decreases |ts|, 2
  {
    match ParseUnary(ts, num)
    case Fail => Fail
    case Got(l, rest) =>
      if rest == [] || !rest[0].TCmp? then Got(l, rest)
      else
        match ParseUnary(rest[1..], num)
        case Fail => Fail
        case Got(r, after) => Got(Cmp(rest[0].op, l, r), after)
  }

  function ParseUnary(ts: seq<Tok>, num: string -> Option<real>): (r: Parsed)
    ensures r.Got? ==> |r.rest| < |ts|
    decreases |ts|, 1
  {
    if ts == [] then Fail
    else
      match ts[0]
      case TNot =>
        (match ParseUnary(ts[1..], num)
         case Fail => Fail
         case Got(e, rest) => Got(Not(e), rest))
      case TOpen =>
        (match ParseOr(ts[1..], num)
         case Fail => Fail
         case Got(e, rest) => if rest != [] && rest[0] == TClose then Got(e, rest[1..]) else Fail)
      case TWord(w) => Got(Word(w), ts[1..])
      case TNum(w) =>
        (match num(w)
         case None => Fail
         case Some(x) => Got(Lit(Num(x)), ts[1..]))
      case TStr(v) => Got(Lit(Str(v)), ts[1..])
      case _ => Fail
  }

  /** A bare word: one of the literal keywords, or an attribute reference. */
  function Word(w: string): Expr {
    if Fold(w) == "true" then Lit(Bool(true))
    else if Fold(w) == "false" then Lit(Bool(false))
    else if Fold(w) == "undefined" then Lit(Undefined)
    else if Fold(w) == "error" then Lit(Error)
    else Attr(w)
  }

  /** What a constraint text means: the expression it denotes, or None when it is not one. */
  function Read(s: string, num: string -> Option<real>): Option<Expr> {
    match Lex(s)
    case None => None
    case Some(ts) =>
      match ParseOr(ts, num)
      case Fail => None
      case Got(e, rest) => if rest == [] then Some(e) else None
  }

  /** Does this constraint text admit the ad? Anything but true drops the row. */
  predicate Admits(text: string, ad: string -> Value, num: string -> Option<real>) {
    var e := Read(text, num);
    e.Some? && Eval(e.value, ad) == Bool(true)
  }
}
