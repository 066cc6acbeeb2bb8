/** Reading the emitted text back with the ClassAd grammar: the parentheses and escapes the
    lowering writes are exactly enough, whatever the nesting. */
module AnsiRead {
  import opened Text
  import C = ClassAd
  import opened SqlPredicate
  import opened AnsiLower
  import opened AnsiGrammar
  import opened AnsiText

  /** The words the ClassAd grammar reads as a constant, and those it reads as an operator. */
  predicate ConstantWord(w: string) { Fold(w) in ["true", "false", "undefined", "error"] }

  predicate OpWord(w: string) { Fold(w) in ["is", "isnt"] }

  /** The names the ClassAd grammar keeps for itself. */
  predicate Reserved(w: string) { ConstantWord(w) || OpWord(w) }

  /** The predicate names no column spelled like one of them. */
  ghost predicate Unreserved(q: Pred) { forall c :: c in Columns(q) ==> !Reserved(c) }

  /** The text compares a column spelled like an operator. A comparison with a bound NULL does not name its
      column. */
  predicate Broken(q: Pred) {
    match q
    case Or(l, _, r) => Broken(l) || Broken(r)
    case And(l, _, r) => Broken(l) || Broken(r)
    case Not(_, p) => Broken(p)
    case Paren(p) => Broken(p)
    case Cmp(col, _, x) => BrokenAtom(col, x)
    case In(col, _, items) => exists x :: x in items && BrokenAtom(col, x)
    case Between(col, _, lo, _, hi) => BrokenAtom(col, lo) || BrokenAtom(col, hi)
    case IsNull(col, _, _, _) => OpWord(col)
  }

  predicate BrokenAtom(col: string, x: Operand) { OpWord(col) && x.Literal? }

  /** The schema's columns are attribute names, and numerals are numerals. */
  ghost predicate GoodEnv(env: Env) {
    && (forall c :: env.cols(c).Some? ==> C.IsWord(c))
    && (forall w :: env.num(w).Some? ==> C.IsNumeral(w))
  }

  // ---------------------------------------------------------------------------------------
  // The filled-in predicates the reader meets.

  predicate ReadyOperand(col: string, op: string, x: Operand, env: Env) {
    match x
    case Literal(t) =>
      && LiteralToken(t) && (t.Number? ==> env.num(t.text).Some?)
      && IsCompareOp(op) && (KindOf(col, env) == KString ==> op == "=")
    case Hole => false
    case Null => true
  }

  /** Nothing left open, every literal readable, every column known. */
  predicate Ready(q: Pred, env: Env) {
    match q
    case Or(l, _, r) => Ready(l, env) && Ready(r, env)
    case And(l, _, r) => Ready(l, env) && Ready(r, env)
    case Not(_, p) => Ready(p, env)
    case Paren(p) => Ready(p, env)
    case Cmp(col, op, x) => env.cols(col).Some? && ReadyOperand(col, op, x, env)
    case In(col, _, items) => env.cols(col).Some? && items != [] && forall x :: x in items ==>
        ReadyOperand(col, "=", x, env)
    case Between(col, _, lo, _, hi) =>
      env.cols(col).Some? && ReadyOperand(col, ">=", lo, env) && ReadyOperand(col, "<=", hi, env)
    case IsNull(col, _, _, _) => env.cols(col).Some?
  }

  // ---------------------------------------------------------------------------------------
  // Lexemes and expressions of the text.

  function BinOpOf(op: string): C.BinOp {
    if op == "=?=" then C.Identical
    else if op == "==" then C.Eq
    else if op == "!=" then C.Ne
    else if op == "<" then C.Lt
    else if op == "<=" then C.Le
    else if op == ">" then C.Gt
    else C.Ge
  }

  function LiteralTok(t: Token): C.Tok {
    match t
    case Str(s) => C.TStr(s)
    case Number(w) => C.TNum(w)
    case _ => C.TWord(LiteralText(t))
  }

  function LiteralExpr(t: Token, env: Env): C.Expr {
    match t
    case Str(s) => C.Lit(C.Str(s))
    case Number(w) => C.Lit(match env.num(w) case Some(x) => C.Num(x) case None => C.Error)
    case _ => C.Lit(C.Bool(LiteralText(t) == "true"))
  }

  function AtomToks(col: string, op: string, x: Operand, env: Env): seq<C.Tok> {
    match x
    case Literal(t) => [C.WordTok(col), C.TCmp(BinOpOf(AtomOp(KindOf(col, env), op))), LiteralTok(t)]
    case _ => [C.TWord("false")]
  }

  function AtomExpr(col: string, op: string, x: Operand, env: Env): C.Expr {
    match x
    case Literal(t) => C.Cmp(BinOpOf(AtomOp(KindOf(col, env), op)), C.Word(col), LiteralExpr(t, env))
    case _ => C.Lit(C.Bool(false))
  }

  function ItemsToks(col: string, items: seq<Operand>, env: Env): seq<C.Tok>
    requires items != []
  {
    var first := AtomToks(col, "=", items[0], env);
    if |items| == 1 then first else first + [C.TOr] + ItemsToks(col, items[1..], env)
  }

  /** `l || t1 || t2 ...` nested to the left. */
  function ItemsExpr(l: C.Expr, col: string, items: seq<Operand>, env: Env): C.Expr
    decreases |items|
  {
    if items == [] then l
    else ItemsExpr(C.Or(l, AtomExpr(col, "=", items[0], env)), col, items[1..], env)
  }

  function OutToks(q: Pred, env: Env): seq<C.Tok> {
    match q
    case Or(l, _, r) => [C.TOpen] + OutToks(l, env) + [C.TOr] + OutToks(r, env) + [C.TClose]
    case And(l, _, r) => [C.TOpen] + OutToks(l, env) + [C.TAnd] + OutToks(r, env) + [C.TClose]
    case Not(_, p) => [C.TNot, C.TOpen] + OutToks(p, env) + [C.TClose]
    case Paren(p) => [C.TOpen] + OutToks(p, env) + [C.TClose]
    case Cmp(col, op, x) => AtomToks(col, op, x, env)
    case In(col, _, items) =>
      if items == [] then []
      else if |items| == 1 then AtomToks(col, "=", items[0], env)
      else [C.TOpen] + ItemsToks(col, items, env) + [C.TClose]
    case Between(col, _, lo, _, hi) =>
      [C.TOpen] + AtomToks(col, ">=", lo, env) + [C.TAnd] + AtomToks(col, "<=", hi, env) + [C.TClose]
    case IsNull(col, _, notKw, _) => [C.WordTok(col), C.TCmp(if notKw.Some? then C.Isnt else C.Is),
                                      C.TWord("undefined")]
  }

  /** The expression the text denotes. */
  function OutExpr(q: Pred, env: Env): C.Expr {
    match q
    case Or(l, _, r) => C.Or(OutExpr(l, env), OutExpr(r, env))
    case And(l, _, r) => C.And(OutExpr(l, env), OutExpr(r, env))
    case Not(_, p) => C.Not(OutExpr(p, env))
    case Paren(p) => OutExpr(p, env)
    case Cmp(col, op, x) => AtomExpr(col, op, x, env)
    case In(col, _, items) =>
      if items == [] then C.Lit(C.Error) else ItemsExpr(AtomExpr(col, "=", items[0], env), col, items[1..], env)
    case Between(col, _, lo, _, hi) => C.And(AtomExpr(col, ">=", lo, env), AtomExpr(col, "<=", hi, env))
    case IsNull(col, _, notKw, _) =>
      C.Cmp(if notKw.Some? then C.Isnt else C.Is, C.Word(col), C.Lit(C.Undefined))
  }

  // ---------------------------------------------------------------------------------------
  // Lexing.

  /** Text may follow a word or a numeral only if it cannot extend it. */
  predicate Boundary(r: string) { r == "" || r[0] == ' ' || r[0] == ')' }

  function Prepend(ts: seq<C.Tok>, o: Option<seq<C.Tok>>): Option<seq<C.Tok>> {
    match o case None => None case Some(us) => Some(ts + us)
  }

  lemma {:induction false} PrependConcat(a: seq<C.Tok>, b: seq<C.Tok>, o: Option<seq<C.Tok>>)
    ensures Prepend(a, Prepend(b, o)) == Prepend(a + b, o)
  {
    if o.Some? {
      Assoc(a, b, o.value);
    }
  }

  lemma {:induction false} WordLenIs(w: string, r: string)
    requires (forall i :: 0 <= i < |w| ==> C.IsWordChar(w[i])) && Boundary(r)
    ensures C.WordLen(w + r) == |w|
  {
    if w == "" {
      assert w + r == r;
    } else {
      assert (w + r)[1..] == w[1..] + r;
      WordLenIs(w[1..], r);
    }
  }

  lemma {:induction false} NumLenIs(w: string, r: string)
    requires (forall i :: 0 <= i < |w| ==> C.IsNumChar(w[i])) && Boundary(r)
    ensures C.NumLen(w + r) == |w|
  {
    if w == "" {
      assert w + r == r;
    } else {
      assert (w + r)[1..] == w[1..] + r;
      NumLenIs(w[1..], r);
    }
  }

  lemma {:induction false} UnescapeOne(c: char, tail: string, v: string, n: nat)
    requires C.Unescape(tail) == Some((v, n))
    ensures C.Unescape(EscapeChar(c) + tail) == Some(([c] + v, |EscapeChar(c)| + n))
  {
    var s := EscapeChar(c) + tail;
    assert s[|EscapeChar(c)|..] == tail;
  }

  /** Escaping a SQL string into a ClassAd literal loses nothing. */
  lemma {:induction false} UnescapeEscape(s: string, r: string)
    ensures C.Unescape(Escape(s) + "\"" + r) == Some((s, |Escape(s)| + 1))
  {
    hide EscapeChar;
    if s == "" {
      assert Escape(s) + "\"" + r == "\"" + r;
    } else {
      var tail := Escape(s[1..]) + "\"" + r;
      UnescapeEscape(s[1..], r);
      UnescapeOne(s[0], tail, s[1..], |Escape(s[1..])| + 1);
      assert Escape(s) + "\"" + r == EscapeChar(s[0]) + tail;
      assert s == [s[0]] + s[1..];
    }
  }

  lemma {:induction false} LexStep(s: string, t: C.Tok, n: nat)
    requires s != "" && s[0] != ' ' && C.LexOne(s) == Some((t, n))
    ensures C.Lex(s) == Prepend([t], C.Lex(s[n..]))
  {
    hide C.LexOne;
  }

  lemma {:induction false} LexBlank(r: string)
    ensures C.Lex(" " + r) == C.Lex(r)
  {
    hide C.LexOne;
    assert (" " + r)[1..] == r;
  }

  lemma {:induction false} LexWord(w: string, r: string)
    requires C.IsWord(w) && Boundary(r)
    ensures C.Lex(w + r) == Prepend([C.WordTok(w)], C.Lex(r))
  {
    hide C.LexSymbol, C.Unescape, C.WordLen, C.NumLen, Fold;
    WordLenIs(w, r);
    assert (w + r)[..|w|] == w && (w + r)[|w|..] == r;
    LexStep(w + r, C.WordTok(w), |w|);
  }

  lemma {:induction false} LexIs(w: string, op: C.BinOp, r: string)
    requires (w == "is" && op == C.Is) || (w == "isnt" && op == C.Isnt)
    requires Boundary(r)
    ensures C.Lex(w + r) == Prepend([C.TCmp(op)], C.Lex(r))
  {
    hide C.LexSymbol, C.Unescape, C.WordLen, C.NumLen, Fold;
    WordLenIs(w, r);
    assert (w + r)[..|w|] == w && (w + r)[|w|..] == r;
    FoldLiterals();
    LexStep(w + r, C.TCmp(op), |w|);
  }

  lemma {:induction false} LexNum(w: string, r: string)
    requires C.IsNumeral(w) && Boundary(r)
    ensures C.Lex(w + r) == Prepend([C.TNum(w)], C.Lex(r))
  {
    hide C.LexSymbol, C.Unescape, C.WordLen, C.NumLen, Fold;
    NumLenIs(w, r);
    var s := w + r;
    assert s[..|w|] == w && s[|w|..] == r;
    assert s[0] == w[0] && (|w| > 1 ==> s[1] == w[1]);
    LexStep(s, C.TNum(w), |w|);
  }

  lemma {:induction false} LexStr(v: string, r: string)
    ensures C.Lex(ClassAdString(v) + r) == Prepend([C.TStr(v)], C.Lex(r))
  {
    hide C.LexSymbol, C.Unescape, C.WordLen, C.NumLen, Fold, Escape;
    var s := ClassAdString(v) + r;
    UnescapeEscape(v, r);
    assert s[1..] == Escape(v) + "\"" + r;
    assert s[|Escape(v)| + 2..] == r;
    LexStep(s, C.TStr(v), |Escape(v)| + 2);
  }

  /** A symbol the lowering writes, with the lexeme it is. */
  predicate Symbol(w: string, t: C.Tok) {
    || (w == "(" && t == C.TOpen) || (w == ")" && t == C.TClose) || (w == "!" && t == C.TNot)
    || (w == "&&" && t == C.TAnd) || (w == "||" && t == C.TOr)
    || (w == "=?=" && t == C.TCmp(C.Identical)) || (w == "==" && t == C.TCmp(C.Eq)) || (w == "!=" && t == C.TCmp(C.Ne))
    || (w == "<" && t == C.TCmp(C.Lt)) || (w == "<=" && t == C.TCmp(C.Le))
    || (w == ">" && t == C.TCmp(C.Gt)) || (w == ">=" && t == C.TCmp(C.Ge))
  }

  lemma {:induction false} LexSym(w: string, t: C.Tok, r: string)
    requires Symbol(w, t) && (r != "" ==> r[0] != '=')
    ensures C.Lex(w + r) == Prepend([t], C.Lex(r))
  {
    hide C.Unescape, C.WordLen, C.NumLen, Fold;
    var s := w + r;
    assert s[0] == w[0] && (|w| > 1 ==> s[1] == w[1]) && (|w| > 2 ==> s[2] == w[2]);
    assert |w| == 1 && r != "" ==> s[1] == r[0];
    assert s[|w|..] == r;
    LexStep(s, t, |w|);
  }

  lemma {:induction false} LexBlankSym(w: string, t: C.Tok, r: string)
    requires Symbol(w, t)
    ensures C.Lex(" " + w + " " + r) == Prepend([t], C.Lex(r))
  {
    hide C.Lex, Symbol;
    assert " " + w + " " + r == " " + (w + (" " + r));
    LexBlank(w + (" " + r));
    LexSym(w, t, " " + r);
    LexBlank(r);
  }

  lemma {:induction false} LexLiteral(t: Token, r: string, env: Env)
    requires GoodEnv(env) && LiteralToken(t) && (t.Number? ==> env.num(t.text).Some?) && Boundary(r)
    ensures C.Lex(LiteralText(t) + r) == Prepend([LiteralTok(t)], C.Lex(r))
  {
    hide C.Lex, Boundary, Fold;
    match t {
      case Str(s) => LexStr(s, r);
      case Number(w) => LexNum(w, r);
      case _ =>
        FoldLiterals();
        LexWord(LiteralText(t), r);
    }
  }

  lemma {:induction false} FoldLiterals()
    ensures Fold("false") == "false" && Fold("true") == "true" && Fold("undefined") == "undefined"
    ensures Fold("is") == "is" && Fold("isnt") == "isnt"
  {
    hide Fold;
    FoldLower("false");
    FoldLower("true");
    FoldLower("undefined");
    FoldLower("is");
    FoldLower("isnt");
  }

  lemma {:induction false} AtomSymbol(op: string, kind: Kind)
    requires IsCompareOp(op) && (kind == KString ==> op == "=")
    ensures Symbol(AtomOp(kind, op), C.TCmp(BinOpOf(AtomOp(kind, op))))
  {
  }

  lemma {:induction false} LexAtom(col: string, op: string, x: Operand, r: string, env: Env)
    requires GoodEnv(env) && env.cols(col).Some? && ReadyOperand(col, op, x, env) && Boundary(r)
    ensures C.Lex(AtomText(col, op, x, env) + r) == Prepend(AtomToks(col, op, x, env), C.Lex(r))
  {
    hide C.Lex, LiteralText, LiteralTok, Symbol, AtomOp, BinOpOf, LiteralToken, IsCompareOp, Fold, Boundary;
    match x {
      case Literal(t) =>
        var cop := AtomOp(KindOf(col, env), op);
        var tail := LiteralText(t) + r;
        assert AtomText(col, op, x, env) + r == col + (" " + cop + " " + tail);
        assert Boundary(" " + cop + " " + tail) by {
          BlankBoundary(cop + " " + tail);
          assert " " + cop + " " + tail == " " + (cop + " " + tail);
        }
        AtomSymbol(op, KindOf(col, env));
        LexWord(col, " " + cop + " " + tail);
        LexBlankSym(cop, C.TCmp(BinOpOf(cop)), tail);
        LexLiteral(t, r, env);
        PrependConcat([C.TCmp(BinOpOf(cop))], [LiteralTok(t)], C.Lex(r));
        PrependConcat([C.WordTok(col)], [C.TCmp(BinOpOf(cop)), LiteralTok(t)], C.Lex(r));
        assert [C.TCmp(BinOpOf(cop))] + [LiteralTok(t)] == [C.TCmp(BinOpOf(cop)), LiteralTok(t)];
        assert [C.WordTok(col)] + [C.TCmp(BinOpOf(cop)), LiteralTok(t)] == AtomToks(col, op, x, env);
      case Null =>
        FoldLiterals();
        assert C.IsWord("false");
        LexWord("false", r);
    }
  }

  lemma {:induction false} BlankBoundary(r: string)
    ensures Boundary(" " + r) && Boundary(")" + r)
  {
  }

  lemma {:induction false} LexInfix(a: string, ta: seq<C.Tok>, w: string, t: C.Tok, b: string, tb: seq<C.Tok>,
                                    r: string)
    requires Symbol(w, t)
    requires forall x :: Boundary(x) ==> C.Lex(a + x) == Prepend(ta, C.Lex(x))
    requires C.Lex(b + r) == Prepend(tb, C.Lex(r))
    ensures C.Lex(a + " " + w + " " + b + r) == Prepend(ta + [t] + tb, C.Lex(r))
  {
    hide C.Lex, Symbol, Prepend, Boundary;
    var mid := " " + w + " " + (b + r);
    assert a + " " + w + " " + b + r == a + mid;
    assert Boundary(mid) by { BlankBoundary(w + " " + (b + r)); assert mid == " " + (w + " " + (b + r)); }
    assert C.Lex(a + mid) == Prepend(ta, C.Lex(mid));
    LexBlankSym(w, t, b + r);
    PrependConcat([t], tb, C.Lex(r));
    PrependConcat(ta, [t] + tb, C.Lex(r));
    Assoc(ta, [t], tb);
  }

  lemma {:induction false} LexWrapped(body: string, tb: seq<C.Tok>, r: string)
    requires C.Lex(body + (")" + r)) == Prepend(tb, C.Lex(")" + r)) && (r != "" ==> r[0] != '=')
    requires body != "" ==> body[0] != '='
    ensures C.Lex("(" + body + ")" + r) == Prepend([C.TOpen] + tb + [C.TClose], C.Lex(r))
    ensures C.Lex("!(" + body + ")" + r) == Prepend([C.TNot, C.TOpen] + tb + [C.TClose], C.Lex(r))
  {
    hide C.Lex, Prepend;
    var inner := body + (")" + r);
    LexSym(")", C.TClose, r);
    PrependConcat(tb, [C.TClose], C.Lex(r));
    assert "(" + body + ")" + r == "(" + inner;
    LexSym("(", C.TOpen, inner);
    PrependConcat([C.TOpen], tb + [C.TClose], C.Lex(r));
    Assoc([C.TOpen], tb, [C.TClose]);
    assert "!(" + body + ")" + r == "!" + ("(" + inner);
    LexSym("!", C.TNot, "(" + inner);
    PrependConcat([C.TNot], [C.TOpen] + tb + [C.TClose], C.Lex(r));
    assert [C.TNot] + ([C.TOpen] + tb + [C.TClose]) == [C.TNot, C.TOpen] + tb + [C.TClose];
  }

  lemma {:induction false} AtomStarts(col: string, op: string, x: Operand, env: Env)
    requires GoodEnv(env) && env.cols(col).Some? && ReadyOperand(col, op, x, env)
    ensures AtomText(col, op, x, env) != "" && AtomText(col, op, x, env)[0] != '='
  {
  }

  /** The emitted text never starts with a character that could run into what precedes it. */
  lemma {:induction false} OutStarts(q: Pred, env: Env)
    requires GoodEnv(env) && Ready(q, env)
    ensures OutText(q, env) != "" && OutText(q, env)[0] != '='
  {
    hide AtomText, Fold, ReadyOperand;
    match q {
      case Cmp(col, op, x) => AtomStarts(col, op, x, env);
      case In(col, _, items) => assert items[0] in items; AtomStarts(col, "=", items[0], env);
      case IsNull(col, _, _, _) => assert OutText(q, env)[0] == col[0];
      case _ =>
    }
  }

  lemma {:induction false} LexItems(col: string, items: seq<Operand>, r: string, env: Env)
    requires GoodEnv(env) && env.cols(col).Some? && items != [] && Boundary(r)
    requires forall x :: x in items ==> ReadyOperand(col, "=", x, env)
    ensures C.Lex(ItemsText(col, items, env) + r) == Prepend(ItemsToks(col, items, env), C.Lex(r))
    decreases |items|
  {
    hide C.Lex, AtomText, AtomToks, ReadyOperand, Boundary, Fold, Prepend;
    var x := items[0];
    assert x in items;
    var a, ta := AtomText(col, "=", x, env), AtomToks(col, "=", x, env);
    forall y | Boundary(y) ensures C.Lex(a + y) == Prepend(ta, C.Lex(y)) { LexAtom(col, "=", x, y, env); }
    if |items| > 1 {
      LexItems(col, items[1..], r, env);
      var b, tb := ItemsText(col, items[1..], env), ItemsToks(col, items[1..], env);
      LexInfix(a, ta, "||", C.TOr, b, tb, r);
      assert ItemsText(col, items, env) + r == a + " " + "||" + " " + b + r by {
        assert " || " == " " + "||" + " ";
      }
    }
  }

  lemma {:induction false} LexIsNull(col: string, neg: bool, r: string, env: Env)
    requires GoodEnv(env) && env.cols(col).Some? && Boundary(r)
    ensures C.Lex(col + (if neg then " isnt undefined" else " is undefined") + r) ==
            Prepend([C.WordTok(col), C.TCmp(if neg then C.Isnt else C.Is), C.TWord("undefined")], C.Lex(r))
  {
    hide C.Lex, Prepend, Fold;
    var w, op := if neg then "isnt" else "is", if neg then C.Isnt else C.Is;
    var tail := " " + ("undefined" + r);
    var whole := col + (if neg then " isnt undefined" else " is undefined") + r;
    assert whole == col + (" " + (w + tail));
    LexWord(col, " " + (w + tail));
    LexBlank(w + tail);
    LexIs(w, op, tail);
    LexBlank("undefined" + r);
    FoldLiterals();
    LexWord("undefined", r);
    PrependConcat([C.TCmp(op)], [C.TWord("undefined")], C.Lex(r));
    PrependConcat([C.WordTok(col)], [C.TCmp(op)] + [C.TWord("undefined")], C.Lex(r));
    assert [C.WordTok(col)] + ([C.TCmp(op)] + [C.TWord("undefined")]) ==
           [C.WordTok(col), C.TCmp(op), C.TWord("undefined")];
  }

  lemma {:induction false} Wrapped(a: string, w: string, b: string, r: string)
    ensures (a + " " + w + " " + b) + (")" + r) == a + " " + w + " " + b + (")" + r)
  {
  }

  lemma {:induction false} WrappedText(a: string, op: string, w: string, b: string, r: string)
    requires op == " " + w + " "
    ensures "(" + a + op + b + ")" + r == "(" + (a + " " + w + " " + b) + ")" + r
  {
    assert a + op + b == a + " " + w + " " + b;
  }

  lemma {:induction false} WrappedToks(ta: seq<C.Tok>, t: C.Tok, tb: seq<C.Tok>)
    ensures [C.TOpen] + ta + [t] + tb + [C.TClose] == [C.TOpen] + (ta + [t] + tb) + [C.TClose]
  {
  }

  lemma {:induction false} LexBinary(a: string, ta: seq<C.Tok>, isAnd: bool, b: string, tb: seq<C.Tok>, r: string)
    requires forall x :: Boundary(x) ==> C.Lex(a + x) == Prepend(ta, C.Lex(x))
    requires forall x :: Boundary(x) ==> C.Lex(b + x) == Prepend(tb, C.Lex(x))
    requires a != "" && a[0] != '=' && Boundary(r)
    ensures C.Lex("(" + a + (if isAnd then " && " else " || ") + b + ")" + r) ==
            Prepend([C.TOpen] + ta + [if isAnd then C.TAnd else C.TOr] + tb + [C.TClose], C.Lex(r))
  {
    hide C.Lex, Prepend;
    var w, t := if isAnd then "&&" else "||", if isAnd then C.TAnd else C.TOr;
    var op := if isAnd then " && " else " || ";
    assert op == " " + w + " ";
    assert C.Lex(b + (")" + r)) == Prepend(tb, C.Lex(")" + r));
    LexInfix(a, ta, w, t, b, tb, ")" + r);
    Wrapped(a, w, b, r);
    LexWrapped(a + " " + w + " " + b, ta + [t] + tb, r);
    WrappedText(a, op, w, b, r);
    WrappedToks(ta, t, tb);
  }

  /** The text of a filled-in predicate splits into its lexemes, whatever may follow it. */
  lemma {:induction false} LexOut(q: Pred, r: string, env: Env)
    requires GoodEnv(env) && Ready(q, env) && Boundary(r)
    ensures C.Lex(OutText(q, env) + r) == Prepend(OutToks(q, env), C.Lex(r))
    decreases q
  {
    hide C.Lex, AtomText, AtomToks, ReadyOperand, Fold, Prepend, ItemsText, ItemsToks, GoodEnv;
    BlankBoundary(r);
    match q {
      case Or(a, _, b) =>
        OutStarts(a, env);
        forall x | Boundary(x) ensures C.Lex(OutText(a, env) + x) == Prepend(OutToks(a, env), C.Lex(x)) {
          LexOut(a, x, env);
        }
        forall x | Boundary(x) ensures C.Lex(OutText(b, env) + x) == Prepend(OutToks(b, env), C.Lex(x)) {
          LexOut(b, x, env);
        }
        LexBinary(OutText(a, env), OutToks(a, env), false, OutText(b, env), OutToks(b, env), r);
      case And(a, _, b) =>
        OutStarts(a, env);
        forall x | Boundary(x) ensures C.Lex(OutText(a, env) + x) == Prepend(OutToks(a, env), C.Lex(x)) {
          LexOut(a, x, env);
        }
        forall x | Boundary(x) ensures C.Lex(OutText(b, env) + x) == Prepend(OutToks(b, env), C.Lex(x)) {
          LexOut(b, x, env);
        }
        LexBinary(OutText(a, env), OutToks(a, env), true, OutText(b, env), OutToks(b, env), r);
      case Not(_, p) =>
        OutStarts(p, env);
        LexOut(p, ")" + r, env);
        LexWrapped(OutText(p, env), OutToks(p, env), r);
      case Paren(p) =>
        OutStarts(p, env);
        LexOut(p, ")" + r, env);
        LexWrapped(OutText(p, env), OutToks(p, env), r);
      case Cmp(col, op, x) =>
        LexAtom(col, op, x, r, env);
      case In(col, _, items) =>
        LexInOut(col, items, r, env);
      case Between(col, _, lo, _, hi) =>
        AtomStarts(col, ">=", lo, env);
        var a, ta := AtomText(col, ">=", lo, env), AtomToks(col, ">=", lo, env);
        var b, tb := AtomText(col, "<=", hi, env), AtomToks(col, "<=", hi, env);
        forall x | Boundary(x) ensures C.Lex(a + x) == Prepend(ta, C.Lex(x)) { LexAtom(col, ">=", lo, x, env); }
        forall x | Boundary(x) ensures C.Lex(b + x) == Prepend(tb, C.Lex(x)) { LexAtom(col, "<=", hi, x, env); }
        LexBinary(a, ta, true, b, tb, r);
      case IsNull(col, _, notKw, _) =>
        LexIsNull(col, notKw.Some?, r, env);
    }
  }

  lemma {:induction false} LexInOut(col: string, items: seq<Operand>, r: string, env: Env)
    requires GoodEnv(env) && env.cols(col).Some? && items != [] && Boundary(r)
    requires forall x :: x in items ==> ReadyOperand(col, "=", x, env)
    ensures if |items| == 1 then C.Lex(AtomText(col, "=", items[0], env) + r) ==
            Prepend(AtomToks(col, "=", items[0], env), C.Lex(r))
            else C.Lex("(" + ItemsText(col, items, env) + ")" + r) ==
                 Prepend([C.TOpen] + ItemsToks(col, items, env) + [C.TClose], C.Lex(r))
  {
    hide C.Lex, AtomText, AtomToks, ReadyOperand, Fold, Prepend, GoodEnv;
    assert items[0] in items;
    AtomStarts(col, "=", items[0], env);
    if |items| == 1 {
      LexAtom(col, "=", items[0], r, env);
    } else {
      BlankBoundary(r);
      LexItems(col, items, ")" + r, env);
      LexWrapped(ItemsText(col, items, env), ItemsToks(col, items, env), r);
    }
  }

  // ---------------------------------------------------------------------------------------
  // Parsing.

  predicate NoCmp(rest: seq<C.Tok>) { rest == [] || !rest[0].TCmp? }
  predicate NoAnd(rest: seq<C.Tok>) { rest == [] || rest[0] != C.TAnd }

  lemma {:induction false} Climb(ts: seq<C.Tok>, e: C.Expr, rest: seq<C.Tok>, num: string -> Option<real>)
    requires C.ParseCmp(ts, num) == C.Got(e, rest) && NoAnd(rest)
    ensures C.ParseAnd(ts, num) == C.Got(e, rest)
    ensures C.ParseOr(ts, num) == C.OrTail(e, rest, num)
  {
    hide C.ParseCmp;
  }

  lemma {:induction false} Group(inner: seq<C.Tok>, e: C.Expr, rest: seq<C.Tok>, num: string -> Option<real>)
    requires C.ParseOr(inner + ([C.TClose] + rest), num) == C.Got(e, [C.TClose] + rest) && NoCmp(rest)
    ensures C.ParseUnary([C.TOpen] + inner + [C.TClose] + rest, num) == C.Got(e, rest)
    ensures C.ParseCmp([C.TOpen] + inner + [C.TClose] + rest, num) == C.Got(e, rest)
  {
    hide C.ParseOr, C.Word;
    var ts := [C.TOpen] + inner + [C.TClose] + rest;
    assert ts == [C.TOpen] + (inner + ([C.TClose] + rest));
    assert ts[1..] == inner + ([C.TClose] + rest);
    assert ([C.TClose] + rest)[1..] == rest;
  }

  lemma {:induction false} Negate(inner: seq<C.Tok>, e: C.Expr, rest: seq<C.Tok>, num: string -> Option<real>)
    requires C.ParseUnary([C.TOpen] + inner + [C.TClose] + rest, num) == C.Got(e, rest) && NoCmp(rest)
    ensures C.ParseCmp([C.TNot, C.TOpen] + inner + [C.TClose] + rest, num) == C.Got(C.Not(e), rest)
  {
    hide C.ParseOr, C.Word;
    var ts := [C.TNot, C.TOpen] + inner + [C.TClose] + rest;
    assert ts[1..] == [C.TOpen] + inner + [C.TClose] + rest;
  }

  lemma {:induction false} NameTok(col: string)
    requires !OpWord(col)
    ensures C.WordTok(col) == C.TWord(col)
  {
    hide Fold;
  }

  lemma {:induction false} ParseAtom(col: string, op: string, x: Operand, rest: seq<C.Tok>, env: Env)
    requires GoodEnv(env) && env.cols(col).Some? && !BrokenAtom(col, x) && ReadyOperand(col, op, x, env) && NoCmp(rest)
    ensures C.ParseCmp(AtomToks(col, op, x, env) + rest, env.num) == C.Got(AtomExpr(col, op, x, env), rest)
  {
    hide C.ParseOr, C.Word, Fold, GoodEnv;
    var ts := AtomToks(col, op, x, env) + rest;
    FoldLiterals();
    assert C.Word("false") == C.Lit(C.Bool(false)) && C.Word("true") == C.Lit(C.Bool(true)) by { WordLiterals(); }
    match x {
      case Literal(t) =>
        NameTok(col);
        assert ts[1..][1..][1..] == rest;
      case Null =>
        assert ts[1..] == rest;
    }
  }

  lemma {:induction false} WordLiterals()
    ensures C.Word("false") == C.Lit(C.Bool(false)) && C.Word("true") == C.Lit(C.Bool(true))
    ensures C.Word("undefined") == C.Lit(C.Undefined)
  {
    hide Fold;
    FoldLiterals();
  }

  lemma {:induction false} ParseIsNullToks(col: string, neg: bool, rest: seq<C.Tok>, env: Env)
    requires GoodEnv(env) && env.cols(col).Some? && !OpWord(col) && NoCmp(rest)
    ensures var op := if neg then C.Isnt else C.Is;
            C.ParseCmp([C.WordTok(col), C.TCmp(op), C.TWord("undefined")] + rest, env.num) ==
            C.Got(C.Cmp(op, C.Word(col), C.Lit(C.Undefined)), rest)
  {
    hide C.ParseOr, C.Word, Fold, GoodEnv;
    var ts := [C.WordTok(col), C.TCmp(if neg then C.Isnt else C.Is), C.TWord("undefined")] + rest;
    WordLiterals();
    NameTok(col);
    assert ts[1..][1..][1..] == rest;
  }

  /** `|| t1 || t2 ... )` after a left operand. */
  lemma {:induction false} ParseItemsTail(l: C.Expr, col: string, items: seq<Operand>, rest: seq<C.Tok>, env: Env)
    requires GoodEnv(env) && env.cols(col).Some? && items != []
    requires forall x :: x in items ==> ReadyOperand(col, "=", x, env) && !BrokenAtom(col, x)
    requires rest == [] || rest[0] == C.TClose
    ensures C.OrTail(l, [C.TOr] + ItemsToks(col, items, env) + rest, env.num) ==
            C.Got(ItemsExpr(l, col, items, env), rest)
    decreases |items|
  {
    hide C.ParseOr, C.ParseCmp, AtomToks, AtomExpr, ReadyOperand, Fold, GoodEnv;
    var x, more := items[0], items[1..];
    assert x in items;
    var ts := [C.TOr] + ItemsToks(col, items, env) + rest;
    var tail := if more == [] then rest else [C.TOr] + ItemsToks(col, more, env) + rest;
    var e := AtomExpr(col, "=", x, env);
    assert ts[1..] == AtomToks(col, "=", x, env) + tail;
    ParseAtom(col, "=", x, tail, env);
    Climb(ts[1..], e, tail, env.num);
    if more != [] {
      ParseItemsTail(C.Or(l, e), col, more, rest, env);
    }
  }

  lemma {:induction false} ParseItems(col: string, items: seq<Operand>, rest: seq<C.Tok>, env: Env)
    requires GoodEnv(env) && env.cols(col).Some? && |items| > 1 && NoCmp(rest)
    requires forall x :: x in items ==> ReadyOperand(col, "=", x, env) && !BrokenAtom(col, x)
    ensures C.ParseCmp([C.TOpen] + ItemsToks(col, items, env) + [C.TClose] + rest, env.num) ==
            C.Got(ItemsExpr(AtomExpr(col, "=", items[0], env), col, items[1..], env), rest)
  {
    hide C.ParseOr, C.ParseCmp, C.OrTail, AtomToks, AtomExpr, ReadyOperand, Fold, GoodEnv;
    var x, more := items[0], items[1..];
    assert x in items;
    var close := [C.TClose] + rest;
    var tail := [C.TOr] + ItemsToks(col, more, env) + close;
    var e := AtomExpr(col, "=", x, env);
    var inner := ItemsToks(col, items, env);
    assert inner + close == AtomToks(col, "=", x, env) + tail;
    ParseAtom(col, "=", x, tail, env);
    Climb(inner + close, e, tail, env.num);
    ParseItemsTail(e, col, more, close, env);
    Group(inner, ItemsExpr(e, col, more, env), rest, env.num);
  }

  /** `( a op b )` from what each side parses to. */
  lemma {:induction false} ParseBinary(ta: seq<C.Tok>, a: C.Expr, isAnd: bool, tb: seq<C.Tok>, b: C.Expr,
                                       rest: seq<C.Tok>, num: string -> Option<real>)
    requires forall x :: NoCmp(x) ==> C.ParseCmp(ta + x, num) == C.Got(a, x)
    requires forall x :: NoCmp(x) ==> C.ParseCmp(tb + x, num) == C.Got(b, x)
    requires NoCmp(rest)
    ensures C.ParseCmp([C.TOpen] + ta + [if isAnd then C.TAnd else C.TOr] + tb + [C.TClose] + rest, num) ==
            C.Got(if isAnd then C.And(a, b) else C.Or(a, b), rest)
  {
    hide C.ParseCmp;
    var t := if isAnd then C.TAnd else C.TOr;
    var close := [C.TClose] + rest;
    var tail := [t] + (tb + close);
    var inner := ta + [t] + tb;
    assert inner + close == ta + tail;
    assert tail[1..] == tb + close;
    assert C.ParseCmp(ta + tail, num) == C.Got(a, tail);
    assert C.ParseCmp(tb + close, num) == C.Got(b, close);
    if isAnd {
      ParseAndInner(ta + tail, a, b, tail, close, num);
    } else {
      Climb(ta + tail, a, tail, num);
      Climb(tb + close, b, close, num);
    }
    Group(inner, if isAnd then C.And(a, b) else C.Or(a, b), rest, num);
    assert [C.TOpen] + ta + [t] + tb + [C.TClose] + rest == [C.TOpen] + inner + [C.TClose] + rest;
  }

  lemma {:induction false} ParseAndInner(ts: seq<C.Tok>, a: C.Expr, b: C.Expr, tail: seq<C.Tok>, close: seq<C.Tok>,
                                         num: string -> Option<real>)
    requires C.ParseCmp(ts, num) == C.Got(a, tail) && tail != [] && tail[0] == C.TAnd
    requires C.ParseCmp(tail[1..], num) == C.Got(b, close) && close != [] && close[0] == C.TClose
    ensures C.ParseOr(ts, num) == C.Got(C.And(a, b), close)
  {
    hide C.ParseCmp;
    assert C.AndTail(C.And(a, b), close, num) == C.Got(C.And(a, b), close);
    assert C.AndTail(a, tail, num) == C.Got(C.And(a, b), close);
  }

  /** The lexemes of a filled-in predicate parse to its expression. */
  lemma {:induction false} ParseOut(q: Pred, rest: seq<C.Tok>, env: Env)
    requires GoodEnv(env) && Ready(q, env) && !Broken(q) && NoCmp(rest)
    ensures C.ParseCmp(OutToks(q, env) + rest, env.num) == C.Got(OutExpr(q, env), rest)
    decreases q, 0
  {
    hide C.ParseCmp, C.ParseOr, C.ParseUnary, AtomToks, AtomExpr, ReadyOperand, Fold, GoodEnv, ItemsToks, ItemsExpr;
    var close := [C.TClose] + rest;
    match q {
      case Or(a, _, b) =>
        forall x | NoCmp(x) ensures C.ParseCmp(OutToks(a, env) + x, env.num) == C.Got(OutExpr(a, env), x) {
          ParseOut(a, x, env);
        }
        forall x | NoCmp(x) ensures C.ParseCmp(OutToks(b, env) + x, env.num) == C.Got(OutExpr(b, env), x) {
          ParseOut(b, x, env);
        }
        ParseBinary(OutToks(a, env), OutExpr(a, env), false, OutToks(b, env), OutExpr(b, env), rest, env.num);
      case And(a, _, b) =>
        forall x | NoCmp(x) ensures C.ParseCmp(OutToks(a, env) + x, env.num) == C.Got(OutExpr(a, env), x) {
          ParseOut(a, x, env);
        }
        forall x | NoCmp(x) ensures C.ParseCmp(OutToks(b, env) + x, env.num) == C.Got(OutExpr(b, env), x) {
          ParseOut(b, x, env);
        }
        ParseBinary(OutToks(a, env), OutExpr(a, env), true, OutToks(b, env), OutExpr(b, env), rest, env.num);
      case Not(_, p) =>
        ParseGroup(p, rest, env);
        Negate(OutToks(p, env), OutExpr(p, env), rest, env.num);
      case Paren(p) =>
        ParseGroup(p, rest, env);
      case Cmp(col, op, x) =>
        ParseAtom(col, op, x, rest, env);
      case In(col, _, items) =>
        assert items[0] in items;
        if |items| == 1 {
          ParseAtom(col, "=", items[0], rest, env);
          NoMoreItems(AtomExpr(col, "=", items[0], env), col, items[1..], env);
        } else {
          ParseItems(col, items, rest, env);
        }
      case Between(col, _, lo, _, hi) =>
        var ta, a := AtomToks(col, ">=", lo, env), AtomExpr(col, ">=", lo, env);
        var tb, b := AtomToks(col, "<=", hi, env), AtomExpr(col, "<=", hi, env);
        forall x | NoCmp(x) ensures C.ParseCmp(ta + x, env.num) == C.Got(a, x) { ParseAtom(col, ">=", lo, x, env); }
        forall x | NoCmp(x) ensures C.ParseCmp(tb + x, env.num) == C.Got(b, x) { ParseAtom(col, "<=", hi, x, env); }
        ParseBinary(ta, a, true, tb, b, rest, env.num);
      case IsNull(col, _, notKw, _) =>
        ParseIsNullToks(col, notKw.Some?, rest, env);
    }
  }

  lemma {:induction false} NoMoreItems(l: C.Expr, col: string, items: seq<Operand>, env: Env)
    requires items == []
    ensures ItemsExpr(l, col, items, env) == l
  {
  }

  lemma {:induction false} ParseGroup(p: Pred, rest: seq<C.Tok>, env: Env)
    requires GoodEnv(env) && Ready(p, env) && !Broken(p) && NoCmp(rest)
    ensures C.ParseUnary([C.TOpen] + OutToks(p, env) + [C.TClose] + rest, env.num) == C.Got(OutExpr(p, env), rest)
    ensures C.ParseCmp([C.TOpen] + OutToks(p, env) + [C.TClose] + rest, env.num) == C.Got(OutExpr(p, env), rest)
    decreases p, 1
  {
    hide C.ParseCmp, C.ParseUnary, OutToks, OutExpr, GoodEnv, Ready;
    var close := [C.TClose] + rest;
    ParseOut(p, close, env);
    Climb(OutToks(p, env) + close, OutExpr(p, env), close, env.num);
    Group(OutToks(p, env), OutExpr(p, env), rest, env.num);
  }

  // ---------------------------------------------------------------------------------------
  // A column spelled like an operator: the text does not parse.

  lemma {:induction false} FailClimb(ts: seq<C.Tok>, num: string -> Option<real>)
    requires C.ParseCmp(ts, num) == C.Fail
    ensures C.ParseAnd(ts, num) == C.Fail && C.ParseOr(ts, num) == C.Fail
  {
    hide C.ParseCmp;
  }

  lemma {:induction false} FailGroup(inner: seq<C.Tok>, rest: seq<C.Tok>, num: string -> Option<real>)
    requires C.ParseOr(inner + ([C.TClose] + rest), num) == C.Fail
    ensures C.ParseCmp([C.TOpen] + inner + [C.TClose] + rest, num) == C.Fail
    ensures C.ParseCmp([C.TNot, C.TOpen] + inner + [C.TClose] + rest, num) == C.Fail
  {
    hide C.ParseOr, C.Word;
    var ts, neg := [C.TOpen] + inner + [C.TClose] + rest, [C.TNot, C.TOpen] + inner + [C.TClose] + rest;
    assert ts[1..] == inner + ([C.TClose] + rest) && neg[1..] == ts;
  }

  lemma {:induction false} FailAtom(col: string, op: string, x: Operand, rest: seq<C.Tok>, env: Env)
    requires BrokenAtom(col, x)
    ensures C.ParseCmp(AtomToks(col, op, x, env) + rest, env.num) == C.Fail
  {
    hide C.ParseOr, C.Word, Fold;
  }

  lemma {:induction false} FailItemsTail(l: C.Expr, col: string, items: seq<Operand>, rest: seq<C.Tok>, env: Env)
    requires GoodEnv(env) && env.cols(col).Some? && items != []
    requires forall x :: x in items ==> ReadyOperand(col, "=", x, env)
    requires exists x :: x in items && BrokenAtom(col, x)
    requires rest == [] || rest[0] == C.TClose
    ensures C.OrTail(l, [C.TOr] + ItemsToks(col, items, env) + rest, env.num) == C.Fail
    decreases |items|
  {
    hide C.ParseOr, C.ParseCmp, AtomToks, AtomExpr, ReadyOperand, Fold, GoodEnv, BrokenAtom;
    var x, more := items[0], items[1..];
    assert x in items;
    var ts := [C.TOr] + ItemsToks(col, items, env) + rest;
    var tail := if more == [] then rest else [C.TOr] + ItemsToks(col, more, env) + rest;
    assert ts[1..] == AtomToks(col, "=", x, env) + tail;
    if BrokenAtom(col, x) {
      FailAtom(col, "=", x, tail, env);
      FailClimb(ts[1..], env.num);
    } else {
      var e := AtomExpr(col, "=", x, env);
      ParseAtom(col, "=", x, tail, env);
      Climb(ts[1..], e, tail, env.num);
      FailItemsTail(C.Or(l, e), col, more, rest, env);
    }
  }

  lemma {:induction false} FailItems(col: string, items: seq<Operand>, rest: seq<C.Tok>, env: Env)
    requires GoodEnv(env) && env.cols(col).Some? && |items| > 1 && NoCmp(rest)
    requires forall x :: x in items ==> ReadyOperand(col, "=", x, env)
    requires exists x :: x in items && BrokenAtom(col, x)
    ensures C.ParseCmp([C.TOpen] + ItemsToks(col, items, env) + [C.TClose] + rest, env.num) == C.Fail
  {
    hide C.ParseOr, C.ParseCmp, C.OrTail, AtomToks, AtomExpr, ReadyOperand, Fold, GoodEnv, BrokenAtom;
    var x, more := items[0], items[1..];
    assert x in items;
    var close := [C.TClose] + rest;
    var tail := [C.TOr] + ItemsToks(col, more, env) + close;
    var inner := ItemsToks(col, items, env);
    assert inner + close == AtomToks(col, "=", x, env) + tail;
    if BrokenAtom(col, x) {
      FailAtom(col, "=", x, tail, env);
      FailClimb(inner + close, env.num);
    } else {
      var e := AtomExpr(col, "=", x, env);
      ParseAtom(col, "=", x, tail, env);
      Climb(inner + close, e, tail, env.num);
      FailItemsTail(e, col, more, close, env);
    }
    FailGroup(inner, rest, env.num);
  }

  /** `( a op b )` when a side does not parse. */
  lemma {:induction false} FailBinary(ta: seq<C.Tok>, a: C.Expr, isAnd: bool, tb: seq<C.Tok>, rest: seq<C.Tok>,
                                      num: string -> Option<real>)
    requires || (forall x :: NoCmp(x) ==> C.ParseCmp(ta + x, num) == C.Fail)
             || ((forall x :: NoCmp(x) ==> C.ParseCmp(ta + x, num) == C.Got(a, x)) &&
                 (forall x :: NoCmp(x) ==> C.ParseCmp(tb + x, num) == C.Fail))
    ensures C.ParseCmp([C.TOpen] + ta + [if isAnd then C.TAnd else C.TOr] + tb + [C.TClose] + rest, num) == C.Fail
  {
    hide C.ParseCmp;
    var t := if isAnd then C.TAnd else C.TOr;
    var close := [C.TClose] + rest;
    var tail := [t] + (tb + close);
    var inner := ta + [t] + tb;
    assert inner + close == ta + tail && tail[1..] == tb + close && NoCmp(tail) && NoCmp(close);
    if C.ParseCmp(ta + tail, num) == C.Fail {
      FailClimb(ta + tail, num);
    } else {
      assert C.ParseCmp(ta + tail, num) == C.Got(a, tail) && C.ParseCmp(tb + close, num) == C.Fail;
      FailClimb(tb + close, num);
      FailTail(ta + tail, a, tail, num);
    }
    FailGroup(inner, rest, num);
    assert [C.TOpen] + ta + [t] + tb + [C.TClose] + rest == [C.TOpen] + inner + [C.TClose] + rest;
  }

  lemma {:induction false} FailTail(ts: seq<C.Tok>, a: C.Expr, tail: seq<C.Tok>, num: string -> Option<real>)
    requires C.ParseCmp(ts, num) == C.Got(a, tail) && tail != [] && (tail[0] == C.TAnd || tail[0] == C.TOr)
    requires C.ParseCmp(tail[1..], num) == C.Fail && C.ParseAnd(tail[1..], num) == C.Fail
    ensures C.ParseOr(ts, num) == C.Fail
  {
    hide C.ParseCmp;
    if tail[0] == C.TOr {
      Climb(ts, a, tail, num);
    } else {
      assert C.AndTail(a, tail, num) == C.Fail;
    }
  }

  /** The lexemes of a broken predicate do not parse. */
  lemma {:induction false} FailOut(q: Pred, rest: seq<C.Tok>, env: Env)
    requires GoodEnv(env) && Ready(q, env) && Broken(q) && NoCmp(rest)
    ensures C.ParseCmp(OutToks(q, env) + rest, env.num) == C.Fail
    decreases q, 0
  {
    hide C.ParseCmp, C.ParseOr, C.ParseUnary, AtomToks, AtomExpr, ReadyOperand, Fold, GoodEnv, ItemsToks, ItemsExpr,
         BrokenAtom;
    match q {
      case Or(a, _, b) =>
        FailSides(a, b, env);
        FailBinary(OutToks(a, env), OutExpr(a, env), false, OutToks(b, env), rest, env.num);
      case And(a, _, b) =>
        FailSides(a, b, env);
        FailBinary(OutToks(a, env), OutExpr(a, env), true, OutToks(b, env), rest, env.num);
      case Not(_, p) =>
        FailOut(p, [C.TClose] + rest, env);
        FailClimb(OutToks(p, env) + ([C.TClose] + rest), env.num);
        FailGroup(OutToks(p, env), rest, env.num);
      case Paren(p) =>
        FailOut(p, [C.TClose] + rest, env);
        FailClimb(OutToks(p, env) + ([C.TClose] + rest), env.num);
        FailGroup(OutToks(p, env), rest, env.num);
      case Cmp(col, op, x) =>
        FailAtom(col, op, x, rest, env);
      case In(col, _, items) =>
        if |items| == 1 { FailAtom(col, "=", items[0], rest, env); } else { FailItems(col, items, rest, env); }
      case Between(col, _, lo, _, hi) =>
        var ta, a := AtomToks(col, ">=", lo, env), AtomExpr(col, ">=", lo, env);
        var tb := AtomToks(col, "<=", hi, env);
        forall x | NoCmp(x)
          ensures C.ParseCmp(ta + x, env.num) == if BrokenAtom(col, lo) then C.Fail else C.Got(a, x)
        {
          if BrokenAtom(col, lo) { FailAtom(col, ">=", lo, x, env); } else { ParseAtom(col, ">=", lo, x, env); }
        }
        forall x | NoCmp(x) && !BrokenAtom(col, lo) ensures C.ParseCmp(tb + x, env.num) == C.Fail {
          FailAtom(col, "<=", hi, x, env);
        }
        FailBinary(ta, a, true, tb, rest, env.num);
      case IsNull(col, _, notKw, _) =>
        FailIsNull(col, if notKw.Some? then C.Isnt else C.Is, rest, env);
    }
  }

  lemma {:induction false} FailIsNull(col: string, op: C.BinOp, rest: seq<C.Tok>, env: Env)
    requires OpWord(col)
    ensures C.ParseCmp([C.WordTok(col), C.TCmp(op), C.TWord("undefined")] + rest, env.num) == C.Fail
  {
    hide C.ParseOr, C.Word, Fold;
  }

  lemma {:induction false} FailSides(a: Pred, b: Pred, env: Env)
    requires GoodEnv(env) && Ready(a, env) && Ready(b, env) && (Broken(a) || Broken(b))
    ensures || (forall x :: NoCmp(x) ==> C.ParseCmp(OutToks(a, env) + x, env.num) == C.Fail)
            || ((forall x :: NoCmp(x) ==> C.ParseCmp(OutToks(a, env) + x, env.num) == C.Got(OutExpr(a, env), x)) &&
                (forall x :: NoCmp(x) ==> C.ParseCmp(OutToks(b, env) + x, env.num) == C.Fail))
    decreases if Broken(a) then a else b, 1
  {
    hide C.ParseCmp, OutToks, OutExpr, GoodEnv, Ready, Broken;
    if Broken(a) {
      forall x | NoCmp(x) ensures C.ParseCmp(OutToks(a, env) + x, env.num) == C.Fail { FailOut(a, x, env); }
    } else {
      forall x | NoCmp(x) ensures C.ParseCmp(OutToks(a, env) + x, env.num) == C.Got(OutExpr(a, env), x) {
        ParseOut(a, x, env);
      }
      forall x | NoCmp(x) ensures C.ParseCmp(OutToks(b, env) + x, env.num) == C.Fail { FailOut(b, x, env); }
    }
  }

  /** The emitted text reads as the expression it was meant to be, a column spelled like a constant being that
      constant, if and only if it names no column spelled like an operator; then it does not parse. */
  lemma {:induction false} ReadOut(q: Pred, env: Env)
    requires GoodEnv(env) && Ready(q, env)
    ensures C.Read(OutText(q, env), env.num) == if Broken(q) then None else Some(OutExpr(q, env))
  {
    hide C.ParseCmp, OutToks, OutExpr, GoodEnv, Ready, OutText, Broken;
    LexOut(q, "", env);
    assert OutText(q, env) + "" == OutText(q, env);
    assert C.Lex("") == Some([]);
    assert OutToks(q, env) + [] == OutToks(q, env);
    if Broken(q) {
      FailOut(q, [], env);
      FailClimb(OutToks(q, env), env.num);
    } else {
      ParseOut(q, [], env);
      Climb(OutToks(q, env), OutExpr(q, env), [], env.num);
    }
  }
}
