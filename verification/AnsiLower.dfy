/** The one-pass parser and translator (ansi/lower.go) and its templates (ansi/param.go), as
    functions of the remaining tokens. Every refusal is Refused; the reasons are not modelled. */
module AnsiLower {
  import opened Text
  import opened SqlPredicate

  datatype Kind = KUnknown | KInt | KReal | KString | KBool | KTimestamp

  datatype Polarity = Positive | Negated

  function Flip(pol: Polarity): Polarity { if pol == Positive then Negated else Positive }

  /** What the lowering is told about its surroundings: the column kinds the schema declares, and
      the reading of a numeral (strconv.ParseFloat here, the ClassAd reader there). */
  datatype Env = Env(cols: string -> Option<Kind>, num: string -> Option<real>)

  // ---------------------------------------------------------------------------------------
  // Literals and single comparisons.

  datatype LitText = LitText(kind: Kind, text: string)

  function EscapeChar(c: char): string {
    if c == '"' then "\\\""
    else if c == '\\' then "\\\\"
    else if c == '\n' then "\\n"
    else if c == '\t' then "\\t"
    else if c == '\r' then "\\r"
    else [c]
  }

  function Escape(s: string): string {
    if s == "" then "" else EscapeChar(s[0]) + Escape(s[1..])
  }

  function ClassAdString(s: string): string { "\"" + Escape(s) + "\"" }

  predicate HasAny(s: string, cs: string) { exists i :: 0 <= i < |s| && s[i] in cs }

  /** parseLiteral on one token. */
  function LiteralOf(t: Token, env: Env): Option<LitText> {
    match t
    case Str(s) => Some(LitText(KString, ClassAdString(s)))
    case Number(w) =>
      if env.num(w).None? then None else Some(LitText(if HasAny(w, ".eE") then KReal else KInt, w))
    case Ident(w) =>
      if Fold(w) == "true" then Some(LitText(KBool, "true"))
      else if Fold(w) == "false" then Some(LitText(KBool, "false"))
      else None
    case _ => None
  }

  predicate LiteralFits(kind: Kind, lit: Kind) {
    match kind
    case KString => lit == KString
    case KInt => lit == KInt || lit == KReal
    case KReal => lit == KInt || lit == KReal
    case KTimestamp => lit == KInt || lit == KReal
    case KBool => lit == KBool
    case KUnknown => true
  }

  function CadOp(op: string): string {
    if op == "=" then "==" else if op == "<>" then "!=" else op
  }

  /** lowerCompare. A None literal asks only whether the comparison could be lowered. */
  function LowerCompare(col: string, kind: Kind, op: string, lit: Option<LitText>, pol: Polarity): Result<string> {
    if lit.Some? && !LiteralFits(kind, lit.value.kind) then Err
    else
      match kind
      case KString =>
        if op == "=" && pol == Positive then
          Ok(if lit.Some? then col + " " + "=?=" + " " + lit.value.text else "")
        else Err
      case KUnknown => Err
      case _ => Ok(if lit.Some? then col + " " + CadOp(op) + " " + lit.value.text else "")
  }

  // ---------------------------------------------------------------------------------------
  // Fragments.

  datatype ParamInfo = ParamInfo(column: string, kind: Kind)

  /** Fixed text, or a slot holding one whole comparison until a value is bound. */
  datatype Frag =
    | Fixed(text: string)
    | Slot(idx: nat, col: string, kind: Kind, op: string, pol: Polarity)

  type Frags = seq<Frag>

  /** expr.appendFixed and the splice of seq: adjacent fixed pieces merge. */
  function Push(out: Frags, f: Frag): Frags {
    if f.Fixed? && out != [] && out[|out| - 1].Fixed? then
      out[..|out| - 1] + [Fixed(out[|out| - 1].text + f.text)]
    else out + [f]
  }

  function Splice(out: Frags, e: Frags): Frags
    decreases e
  {
    if e == [] then out else Splice(Push(out, e[0]), e[1..])
  }

  function SpliceAll(out: Frags, parts: seq<Frags>): Frags
    decreases parts
  {
    if parts == [] then out else SpliceAll(Splice(out, parts[0]), parts[1..])
  }

  function Seq(parts: seq<Frags>): Frags { SpliceAll([], parts) }

  function Fix(s: string): Frags { [Fixed(s)] }

  function Bracket(open: string, e: Frags): Frags { Seq([Fix(open), e, Fix(")")]) }

  function Infix(l: Frags, op: string, r: Frags): Frags { Seq([Fix("("), l, Fix(op), r, Fix(")")]) }

  /** "(" t1 || t2 || ... ")" as the parts list parseIn builds. */
  function Disjuncts(terms: seq<Frags>): seq<Frags> {
    if terms == [] then []
    else if |terms| == 1 then [terms[0]]
    else [terms[0], Fix(" || ")] + Disjuncts(terms[1..])
  }

  function InList(terms: seq<Frags>): Frags
    requires terms != []
  {
    if |terms| == 1 then terms[0] else Seq([Fix("(")] + Disjuncts(terms) + [Fix(")")])
  }

  // ---------------------------------------------------------------------------------------
  // The parser, over what is left of the tokens and the placeholders recorded so far.

  datatype Step<+T> = Refused | Done(out: T, params: seq<ParamInfo>, rest: seq<Token>)

  function ParseOr(ts: seq<Token>, pol: Polarity, ps: seq<ParamInfo>, env: Env): (r: Step<Frags>)
    ensures r.Done? ==> |r.rest| < |ts|
    decreases |ts|, 4
  {
    match ParseAnd(ts, pol, ps, env)
    case Refused => Refused
    case Done(l, ps1, rest) => OrLoop(l, rest, pol, ps1, env)
  }

  function OrLoop(l: Frags, ts: seq<Token>, pol: Polarity, ps: seq<ParamInfo>, env: Env): (r: Step<Frags>)
    ensures r.Done? ==> |r.rest| <= |ts|
    decreases |ts|, 5
  {
    if !AtKeyword(ts, "or") then Done(l, ps, ts)
    else
      match ParseAnd(ts[1..], pol, ps, env)
      case Refused => Refused
      case Done(r, ps1, rest) => OrLoop(Infix(l, " || ", r), rest, pol, ps1, env)
  }

  function ParseAnd(ts: seq<Token>, pol: Polarity, ps: seq<ParamInfo>, env: Env): (r: Step<Frags>)
    ensures r.Done? ==> |r.rest| < |ts|
    decreases |ts|, 3
  {
    match ParseUnary(ts, pol, ps, env)
    case Refused => Refused
    case Done(l, ps1, rest) => AndLoop(l, rest, pol, ps1, env)
  }

  function AndLoop(l: Frags, ts: seq<Token>, pol: Polarity, ps: seq<ParamInfo>, env: Env): (r: Step<Frags>)
    ensures r.Done? ==> |r.rest| <= |ts|
    decreases |ts|, 5
  {
    if !AtKeyword(ts, "and") then Done(l, ps, ts)
    else
      match ParseUnary(ts[1..], pol, ps, env)
      case Refused => Refused
      case Done(r, ps1, rest) => AndLoop(Infix(l, " && ", r), rest, pol, ps1, env)
  }

  function ParseUnary(ts: seq<Token>, pol: Polarity, ps: seq<ParamInfo>, env: Env): (r: Step<Frags>)
    ensures r.Done? ==> |r.rest| < |ts|
    decreases |ts|, 2
  {
    if AtKeyword(ts, "not") then
      match ParseUnary(ts[1..], Flip(pol), ps, env)
      case Refused => Refused
      case Done(e, ps1, rest) => Done(Bracket("!(", e), ps1, rest)
    else if ts != [] && ts[0] == LParen then
      match ParseOr(ts[1..], pol, ps, env)
      case Refused => Refused
      case Done(e, ps1, rest) =>
        if rest != [] && rest[0] == RParen then Done(Bracket("(", e), ps1, rest[1..]) else Refused
    else ParsePredicate(ts, pol, ps, env)
  }

  function ParsePredicate(ts: seq<Token>, pol: Polarity, ps: seq<ParamInfo>, env: Env): (r: Step<Frags>)
    ensures r.Done? ==> |r.rest| < |ts|
  {
    if ts == [] || !ts[0].Ident? || env.cols(ts[0].text).None? then Refused
    else
      var col, kind, after := ts[0].text, env.cols(ts[0].text).value, ts[1..];
      if AtKeyword(after, "is") then ParseIsNull(col, after[1..], ps)
      else if AtKeyword(after, "in") then ParseIn(col, kind, after[1..], pol, ps, env)
      else if AtKeyword(after, "between") then ParseBetween(col, kind, after[1..], ps, env)
      else if after != [] && after[0].Op? && IsCompareOp(after[0].text) then
        ParseOperand(col, kind, after[0].text, after[1..], pol, ps, env)
      else Refused
  }

  function ParseIsNull(col: string, ts: seq<Token>, ps: seq<ParamInfo>): (r: Step<Frags>)
    ensures r.Done? ==> |r.rest| < |ts|
  {
    var notNull := AtKeyword(ts, "not");
    var after := if notNull then ts[1..] else ts;
    if !AtKeyword(after, "null") then Refused
    else Done(Fix(col + (if notNull then " isnt undefined" else " is undefined")), ps, after[1..])
  }

  function ParseOperand(col: string, kind: Kind, op: string, ts: seq<Token>, pol: Polarity,
                        ps: seq<ParamInfo>, env: Env): (r: Step<Frags>)
    ensures r.Done? ==> |r.rest| < |ts|
  {
    if ts == [] then Refused
    else if ts[0] == Param then
      if LowerCompare(col, kind, op, None, pol).Err? then Refused
      else Done([Slot(|ps|, col, kind, op, pol)], ps + [ParamInfo(col, kind)], ts[1..])
    else
      var lit := LiteralOf(ts[0], env);
      if lit.None? then Refused
      else
        match LowerCompare(col, kind, op, lit, pol)
        case Err => Refused
        case Ok(text) => Done(Fix(text), ps, ts[1..])
  }

  function ParseIn(col: string, kind: Kind, ts: seq<Token>, pol: Polarity, ps: seq<ParamInfo>,
                   env: Env): (r: Step<Frags>)
    ensures r.Done? ==> |r.rest| < |ts|
  {
    if ts == [] || ts[0] != LParen then Refused
    else
      match InLoop(col, kind, [], ts[1..], pol, ps, env)
      case Refused => Refused
      case Done(terms, ps1, rest) =>
        if rest != [] && rest[0] == RParen then Done(InList(terms), ps1, rest[1..]) else Refused
  }

  /** The operands of an IN list, after the terms already read. */
  function InLoop(col: string, kind: Kind, terms: seq<Frags>, ts: seq<Token>, pol: Polarity,
                  ps: seq<ParamInfo>, env: Env): (r: Step<seq<Frags>>)
    ensures r.Done? ==> |r.rest| < |ts| && |r.out| > |terms|
    decreases |ts|
  {
    match ParseOperand(col, kind, "=", ts, pol, ps, env)
    case Refused => Refused
    case Done(term, ps1, rest) =>
      if rest != [] && rest[0] == Comma then InLoop(col, kind, terms + [term], rest[1..], pol, ps1, env)
      else Done(terms + [term], ps1, rest)
  }

  function ParseBetween(col: string, kind: Kind, ts: seq<Token>, ps: seq<ParamInfo>, env: Env): (r: Step<Frags>)
    ensures r.Done? ==> |r.rest| < |ts|
  {
    if kind == KString then Refused
    else
      match ParseOperand(col, kind, ">=", ts, Positive, ps, env)
      case Refused => Refused
      case Done(lo, ps1, rest) =>
        if !AtKeyword(rest, "and") then Refused
        else
          match ParseOperand(col, kind, "<=", rest[1..], Positive, ps1, env)
          case Refused => Refused
          case Done(hi, ps2, after) => Done(Infix(lo, " && ", hi), ps2, after)
  }

  // ---------------------------------------------------------------------------------------
  // Templates and binding.

  datatype Template = Template(body: Frags, params: seq<ParamInfo>)

  function LowerTemplate(ts: seq<Token>, env: Env): Result<Template> {
    match ParseOr(ts, Positive, [], env)
    case Refused => Err
    case Done(e, ps, rest) => if rest == [] then Ok(Template(e, ps)) else Err
  }

  /** A float64 a client may bind; text is a finite one's shortest round-trip form. */
  datatype Float = NaN | Infinite | Finite(r: real, text: string)

  /** The dynamic types normalize distinguishes; the integer widths are their value. */
  datatype Any =
    | Nil | Signed(i: int) | Unsigned(u: nat) | FloatVal(f: Float) | StringVal(s: string) | BoolVal(b: bool) | Opaque

  const MAX_INT64: int := 0x7fff_ffff_ffff_ffff

  datatype Bound = BNull | BVal(lit: LitText)

  function FormatInt(i: int): string { if i < 0 then "-" + Itoa(-i) else Itoa(i) }

  /** normalize followed by literal: the value as a ClassAd literal, or its refusal. */
  function Normalize(v: Any): Result<Bound> {
    match v
    case Nil => Ok(BNull)
    case Signed(i) => Ok(BVal(LitText(KInt, FormatInt(i))))
    case Unsigned(u) => if u > MAX_INT64 then Err else Ok(BVal(LitText(KInt, FormatInt(u))))
    case FloatVal(f) => if f.Finite? then Ok(BVal(LitText(KReal, f.text))) else Err
    case StringVal(s) => Ok(BVal(LitText(KString, ClassAdString(s))))
    case BoolVal(b) => Ok(BVal(LitText(KBool, if b then "true" else "false")))
    case Opaque => Err
  }

  /** bound.check: duplicates checkLiteralKind on purpose. */
  predicate BoundFits(b: Bound, kind: Kind) { b.BNull? || LiteralFits(kind, b.lit.kind) }

  /** A slot's render closure. */
  function Render(f: Frag, v: Any): Result<string>
    requires f.Slot?
  {
    match Normalize(v)
    case Err => Err
    case Ok(b) =>
      if !BoundFits(b, f.kind) then Err
      else if b.BNull? then Ok("false")
      else LowerCompare(f.col, f.kind, f.op, Some(b.lit), f.pol)
  }

  function BindFrag(f: Frag, vals: seq<Any>): Result<string> {
    if f.Fixed? then Ok(f.text)
    else if f.idx < |vals| then Render(f, vals[f.idx])
    else Err
  }

  function Append(a: Result<string>, b: Result<string>): Result<string> {
    if a.Ok? && b.Ok? then Ok(a.value + b.value) else Err
  }

  function BindFrags(fs: Frags, vals: seq<Any>): Result<string> {
    if fs == [] then Ok("") else Append(BindFrags(fs[..|fs| - 1], vals), BindFrag(fs[|fs| - 1], vals))
  }

  function Bind(t: Template, vals: seq<Any>): Result<string> {
    if |vals| != |t.params| then Err else BindFrags(t.body, vals)
  }

  function Lower(ts: seq<Token>, env: Env): Result<string> {
    match LowerTemplate(ts, env)
    case Err => Err
    case Ok(t) => if |t.params| > 0 then Err else Bind(t, [])
  }
}
