/** The one-pass translator against the grammar: it accepts exactly the token sequences of
    well-formed predicates that the refusal rules admit, and translates each structurally. */
module AnsiGrammar {
  import opened Text
  import opened SqlPredicate
  import opened AnsiLower

  // ---------------------------------------------------------------------------------------
  // The grammar: OR binds loosest, then AND, then NOT and the atoms.

  predicate LiteralToken(t: Token) {
    t.Str? || t.Number? || IsKeyword(t, "true") || IsKeyword(t, "false")
  }

  predicate GoodOperand(x: Operand) { x.Hole? || (x.Literal? && LiteralToken(x.t)) }

  predicate GoodColumn(col: string) { Fold(col) != "not" }

  predicate WellFormed(p: Pred, level: nat) {
    match p
    case Or(l, kw, r) => level == 0 && Fold(kw) == "or" && WellFormed(l, 0) && WellFormed(r, 1)
    case And(l, kw, r) => level <= 1 && Fold(kw) == "and" && WellFormed(l, 1) && WellFormed(r, 2)
    case Not(kw, q) => Fold(kw) == "not" && WellFormed(q, 2)
    case Paren(q) => WellFormed(q, 0)
    case Cmp(col, op, x) => GoodColumn(col) && IsCompareOp(op) && GoodOperand(x)
    case In(col, kw, items) =>
      GoodColumn(col) && Fold(kw) == "in" && items != [] && forall x :: x in items ==> GoodOperand(x)
    case Between(col, kw, lo, andKw, hi) =>
      GoodColumn(col) && Fold(kw) == "between" && GoodOperand(lo) && Fold(andKw) == "and" && GoodOperand(hi)
    case IsNull(col, isKw, notKw, nullKw) =>
      && GoodColumn(col) && Fold(isKw) == "is" && Fold(nullKw) == "null"
      && (notKw.Some? ==> Fold(notKw.value) == "not")
  }

  // ---------------------------------------------------------------------------------------
  // The refusal rules and the translation, on syntax.

  predicate AcceptOperand(col: string, kind: Kind, op: string, x: Operand, pol: Polarity, env: Env) {
    match x
    case Hole => LowerCompare(col, kind, op, None, pol).Ok?
    case Literal(t) => LiteralOf(t, env).Some? && LowerCompare(col, kind, op, LiteralOf(t, env), pol).Ok?
    case Null => false
  }

  predicate Accept(p: Pred, pol: Polarity, env: Env) {
    match p
    case Or(l, _, r) => Accept(l, pol, env) && Accept(r, pol, env)
    case And(l, _, r) => Accept(l, pol, env) && Accept(r, pol, env)
    case Not(_, q) => Accept(q, Flip(pol), env)
    case Paren(q) => Accept(q, pol, env)
    case Cmp(col, op, x) => env.cols(col).Some? && AcceptOperand(col, env.cols(col).value, op, x, pol, env)
    case In(col, _, items) =>
      env.cols(col).Some? && AcceptItems(col, env.cols(col).value, items, pol, env)
    case Between(col, _, lo, _, hi) =>
      && env.cols(col).Some? && env.cols(col).value != KString
      && AcceptOperand(col, env.cols(col).value, ">=", lo, Positive, env)
      && AcceptOperand(col, env.cols(col).value, "<=", hi, Positive, env)
    case IsNull(col, _, _, _) => env.cols(col).Some?
  }

  function KindOf(col: string, env: Env): Kind {
    if env.cols(col).Some? then env.cols(col).value else KUnknown
  }

  function OperandFrags(col: string, op: string, x: Operand, pol: Polarity, n: nat, env: Env): Frags {
    match x
    case Hole => [Slot(n, col, KindOf(col, env), op, pol)]
    case Literal(t) =>
      (match LowerCompare(col, KindOf(col, env), op, LiteralOf(t, env), pol)
       case Ok(text) => Fix(text)
       case Err => [])
    case Null => []
  }

  function ItemFrags(col: string, items: seq<Operand>, pol: Polarity, n: nat, env: Env): (r: seq<Frags>)
    ensures |r| == |items|
  {
    if items == [] then []
    else [OperandFrags(col, "=", items[0], pol, n, env)]
         + ItemFrags(col, items[1..], pol, n + OperandHoles(items[0]), env)
  }

  /** The translation of an accepted predicate whose first placeholder is number n. */
  function Lowered(p: Pred, pol: Polarity, n: nat, env: Env): Frags {
    match p
    case Or(l, _, r) => Infix(Lowered(l, pol, n, env), " || ", Lowered(r, pol, n + Holes(l), env))
    case And(l, _, r) => Infix(Lowered(l, pol, n, env), " && ", Lowered(r, pol, n + Holes(l), env))
    case Not(_, q) => Bracket("!(", Lowered(q, Flip(pol), n, env))
    case Paren(q) => Bracket("(", Lowered(q, pol, n, env))
    case Cmp(col, op, x) => OperandFrags(col, op, x, pol, n, env)
    case In(col, _, items) => if items == [] then [] else InList(ItemFrags(col, items, pol, n, env))
    case Between(col, _, lo, _, hi) =>
      Infix(OperandFrags(col, ">=", lo, Positive, n, env), " && ",
            OperandFrags(col, "<=", hi, Positive, n + OperandHoles(lo), env))
    case IsNull(col, _, notKw, _) => Fix(col + (if notKw.Some? then " isnt undefined" else " is undefined"))
  }

  function OperandParams(col: string, x: Operand, env: Env): (r: seq<ParamInfo>)
    ensures |r| == OperandHoles(x)
  {
    if x.Hole? then [ParamInfo(col, KindOf(col, env))] else []
  }

  function ItemParams(col: string, items: seq<Operand>, env: Env): (r: seq<ParamInfo>)
    ensures |r| == ItemHoles(items)
  {
    if items == [] then [] else OperandParams(col, items[0], env) + ItemParams(col, items[1..], env)
  }

  /** One entry per placeholder, in source order: the column it is compared with and its kind. */
  function Params(p: Pred, env: Env): (r: seq<ParamInfo>)
    ensures |r| == Holes(p)
  {
    match p
    case Or(l, _, r) => Params(l, env) + Params(r, env)
    case And(l, _, r) => Params(l, env) + Params(r, env)
    case Not(_, q) => Params(q, env)
    case Paren(q) => Params(q, env)
    case Cmp(col, _, x) => OperandParams(col, x, env)
    case In(col, _, items) => ItemParams(col, items, env)
    case Between(col, _, lo, _, hi) => OperandParams(col, lo, env) + OperandParams(col, hi, env)
    case IsNull(_, _, _, _) => []
  }

  // ---------------------------------------------------------------------------------------
  // Completeness: on the tokens of a well-formed predicate the parser does what the rules say.

  lemma {:induction false} CompleteOperand(col: string, kind: Kind, op: string, x: Operand, rest: seq<Token>,
                                           pol: Polarity,
                        ps: seq<ParamInfo>, env: Env)
    requires GoodOperand(x) && env.cols(col) == Some(kind)
    ensures ParseOperand(col, kind, op, OperandTokens(x) + rest, pol, ps, env) ==
            if AcceptOperand(col, kind, op, x, pol, env)
            then Done(OperandFrags(col, op, x, pol, |ps|, env), ps + OperandParams(col, x, env), rest)
            else Refused
  {
    var ts := OperandTokens(x) + rest;
    assert ts[1..] == rest;
    assert ps + [] == ps;
  }

  /** Accepting a list is accepting its head and its tail. */
  predicate AcceptItems(col: string, kind: Kind, items: seq<Operand>, pol: Polarity, env: Env) {
    forall x :: x in items ==> AcceptOperand(col, kind, "=", x, pol, env)
  }

  lemma {:induction false} AcceptItemsCons(col: string, kind: Kind, items: seq<Operand>, pol: Polarity, env: Env)
    requires items != []
    ensures AcceptItems(col, kind, items, pol, env)
            <==> AcceptOperand(col, kind, "=", items[0], pol, env) && AcceptItems(col, kind, items[1..], pol, env)
  {
    hide AcceptOperand;
    assert items == [items[0]] + items[1..];
  }

  lemma {:induction false} CompleteLastItem(col: string, kind: Kind, terms: seq<Frags>, items: seq<Operand>,
                         rest: seq<Token>, pol: Polarity, ps: seq<ParamInfo>, env: Env)
    requires |items| == 1 && GoodOperand(items[0]) && env.cols(col) == Some(kind)
    requires rest == [] || rest[0] != Comma
    ensures InLoop(col, kind, terms, ItemTokens(items) + rest, pol, ps, env) ==
            if AcceptItems(col, kind, items, pol, env)
            then Done(terms + ItemFrags(col, items, pol, |ps|, env), ps + ItemParams(col, items, env), rest)
            else Refused
  {
    hide AcceptOperand, OperandFrags, ParseOperand, OperandTokens, OperandParams, Fold;
    var x := items[0];
    AcceptItemsCons(col, kind, items, pol, env);
    assert AcceptItems(col, kind, items[1..], pol, env);
    CompleteOperand(col, kind, "=", x, rest, pol, ps, env);
    assert ItemFrags(col, items, pol, |ps|, env) == [OperandFrags(col, "=", x, pol, |ps|, env)];
    assert ItemParams(col, items, env) == OperandParams(col, x, env);
  }

  lemma {:induction false} CompleteItems(col: string, kind: Kind, terms: seq<Frags>, items: seq<Operand>,
                                         rest: seq<Token>, pol: Polarity, ps: seq<ParamInfo>, env: Env)
    requires items != [] && (forall x :: x in items ==> GoodOperand(x)) && env.cols(col) == Some(kind)
    requires rest == [] || rest[0] != Comma
    ensures InLoop(col, kind, terms, ItemTokens(items) + rest, pol, ps, env) ==
            if AcceptItems(col, kind, items, pol, env)
            then Done(terms + ItemFrags(col, items, pol, |ps|, env), ps + ItemParams(col, items, env), rest)
            else Refused
    decreases |items|
  {
    hide AcceptOperand, OperandFrags, ParseOperand, OperandTokens, AcceptItems, OperandParams, Fold;
    var x, more := items[0], items[1..];
    AcceptItemsCons(col, kind, items, pol, env);
    var term := OperandFrags(col, "=", x, pol, |ps|, env);
    var ps1 := ps + OperandParams(col, x, env);
    if more == [] {
      CompleteLastItem(col, kind, terms, items, rest, pol, ps, env);
    } else {
      var tail := [Comma] + (ItemTokens(more) + rest);
      Shift(OperandTokens(x), Comma, ItemTokens(more), rest);
      CompleteOperand(col, kind, "=", x, tail, pol, ps, env);
      if AcceptOperand(col, kind, "=", x, pol, env) {
        CompleteItems(col, kind, terms + [term], more, rest, pol, ps1, env);
        Assoc(terms, [term], ItemFrags(col, more, pol, |ps1|, env));
        Assoc(ps, OperandParams(col, x, env), ItemParams(col, more, env));
      }
    }
  }

  /** What parsing p from ts must give, with rest left over. */
  function Expected(p: Pred, rest: seq<Token>, pol: Polarity, ps: seq<ParamInfo>, env: Env): Step<Frags> {
    if Accept(p, pol, env) then Done(Lowered(p, pol, |ps|, env), ps + Params(p, env), rest) else Refused
  }

  predicate Atom(p: Pred) { p.Cmp? || p.In? || p.Between? || p.IsNull? }

  lemma {:induction false} CompleteAtom(p: Pred, rest: seq<Token>, pol: Polarity, ps: seq<ParamInfo>, env: Env)
    requires Atom(p) && WellFormed(p, 2)
    ensures ParsePredicate(Tokens(p) + rest, pol, ps, env) == Expected(p, rest, pol, ps, env)
  {
    hide ParseOperand, ParseIn, ParseIsNull, ParseBetween, Fold, AcceptOperand, AcceptItems, OperandFrags;
    assert (Tokens(p) + rest)[0] == Ident(p.col);
    if env.cols(p.col).Some? {
      match p {
        case Cmp(_, _, _) => CompleteCmp(p, rest, pol, ps, env);
        case In(_, _, _) => CompleteIn(p, rest, pol, ps, env);
        case Between(_, _, _, _, _) => CompleteBetween(p, rest, pol, ps, env);
        case IsNull(_, _, _, _) => CompleteIsNull(p, rest, pol, ps, env);
      }
    }
  }

  lemma {:induction false} CompleteCmp(p: Pred, rest: seq<Token>, pol: Polarity, ps: seq<ParamInfo>, env: Env)
    requires p.Cmp? && WellFormed(p, 2) && env.cols(p.col).Some?
    ensures ParsePredicate(Tokens(p) + rest, pol, ps, env) == Expected(p, rest, pol, ps, env)
  {
    hide ParseOperand, ParseIn, ParseIsNull, ParseBetween, Fold, AcceptOperand, OperandFrags, OperandTokens;
    var x := OperandTokens(p.x);
    assert Tokens(p) + rest == [Ident(p.col), Op(p.op)] + (x + rest);
    assert (Tokens(p) + rest)[1..][1..] == x + rest;
    CompleteOperand(p.col, env.cols(p.col).value, p.op, p.x, rest, pol, ps, env);
  }

  lemma {:induction false} CompleteIn(p: Pred, rest: seq<Token>, pol: Polarity, ps: seq<ParamInfo>, env: Env)
    requires p.In? && WellFormed(p, 2) && env.cols(p.col).Some?
    ensures ParsePredicate(Tokens(p) + rest, pol, ps, env) == Expected(p, rest, pol, ps, env)
  {
    hide InLoop, ParseIsNull, ParseBetween, ParseOperand, Fold, AcceptItems, ItemFrags, ItemTokens, InList, ItemParams;
    var body := ItemTokens(p.items) + ([RParen] + rest);
    assert Tokens(p) + rest == [Ident(p.col), Ident(p.kw), LParen] + body;
    assert (Tokens(p) + rest)[1..][1..][1..] == body;
    CompleteItems(p.col, env.cols(p.col).value, [], p.items, [RParen] + rest, pol, ps, env);
    assert [] + ItemFrags(p.col, p.items, pol, |ps|, env) == ItemFrags(p.col, p.items, pol, |ps|, env);
    assert ([RParen] + rest)[1..] == rest;
  }

  lemma {:induction false} CompleteIsNull(p: Pred, rest: seq<Token>, pol: Polarity, ps: seq<ParamInfo>, env: Env)
    requires p.IsNull? && WellFormed(p, 2) && env.cols(p.col).Some?
    ensures ParsePredicate(Tokens(p) + rest, pol, ps, env) == Expected(p, rest, pol, ps, env)
  {
    hide ParseIn, ParseBetween, ParseOperand, Fold;
    var after := (Tokens(p) + rest)[1..];
    assert ps + [] == ps;
    if p.notKw.Some? {
      assert after == [Ident(p.isKw), Ident(p.notKw.value), Ident(p.nullKw)] + rest;
      assert after[1..][1..][1..] == rest;
    } else {
      assert after == [Ident(p.isKw), Ident(p.nullKw)] + rest;
      assert after[1..][1..] == rest;
    }
  }

  lemma {:induction false} CompleteBetween(p: Pred, rest: seq<Token>, pol: Polarity, ps: seq<ParamInfo>, env: Env)
    requires p.Between? && WellFormed(p, 2) && env.cols(p.col).Some?
    ensures ParsePredicate(Tokens(p) + rest, pol, ps, env) == Expected(p, rest, pol, ps, env)
  {
    hide ParseIn, ParseIsNull, ParseOperand, OperandFrags, AcceptOperand, Infix, OperandTokens, Fold;
    var kind := env.cols(p.col).value;
    var after := (Tokens(p) + rest)[1..];
    var body := OperandTokens(p.lo) + ([Ident(p.andKw)] + (OperandTokens(p.hi) + rest));
    assert after == [Ident(p.kw)] + body && after[1..] == body;
    CompleteOperand(p.col, kind, ">=", p.lo, [Ident(p.andKw)] + (OperandTokens(p.hi) + rest), Positive, ps, env);
    var ps1 := ps + OperandParams(p.col, p.lo, env);
    assert ([Ident(p.andKw)] + (OperandTokens(p.hi) + rest))[1..] == OperandTokens(p.hi) + rest;
    CompleteOperand(p.col, kind, "<=", p.hi, rest, Positive, ps1, env);
    assert ps1 + OperandParams(p.col, p.hi, env) == ps + Params(p, env);
  }

  lemma {:induction false} CompleteUnary(p: Pred, rest: seq<Token>, pol: Polarity, ps: seq<ParamInfo>, env: Env)
    requires WellFormed(p, 2)
    ensures ParseUnary(Tokens(p) + rest, pol, ps, env) == Expected(p, rest, pol, ps, env)
    decreases p, 0
  {
    hide ParsePredicate, ParseOr, Bracket, Infix, Fold;
    var ts := Tokens(p) + rest;
    match p {
      case Not(kw, q) =>
        Shift([], Ident(kw), Tokens(q), rest);
        Assoc([Ident(kw)], Tokens(q), rest);
        CompleteUnary(q, rest, Flip(pol), ps, env);
      case Paren(q) =>
        var tail := [RParen] + rest;
        assert ts == [LParen] + (Tokens(q) + tail) && ts[1..] == Tokens(q) + tail;
        CompleteOr(q, tail, pol, ps, env);
        assert tail[1..] == rest;
      case Or(_, _, _) =>
      case And(_, _, _) =>
      case _ =>
        assert ts[0] == Ident(p.col);
        CompleteAtom(p, rest, pol, ps, env);
    }
  }

  lemma {:induction false} CompleteAnd(p: Pred, rest: seq<Token>, pol: Polarity, ps: seq<ParamInfo>, env: Env)
    requires WellFormed(p, 1)
    ensures ParseAnd(Tokens(p) + rest, pol, ps, env) ==
            if Accept(p, pol, env) then AndLoop(Lowered(p, pol, |ps|, env), rest, pol, ps + Params(p, env), env)
                else Refused
    decreases p, 1
  {
    hide ParseUnary, Infix, Fold;
    if p.And? {
      var tail := [Ident(p.kw)] + (Tokens(p.r) + rest);
      Shift(Tokens(p.l), Ident(p.kw), Tokens(p.r), rest);
      CompleteAnd(p.l, tail, pol, ps, env);
      var ps1 := ps + Params(p.l, env);
      CompleteUnary(p.r, rest, pol, ps1, env);
      Assoc(ps, Params(p.l, env), Params(p.r, env));
    } else {
      CompleteUnary(p, rest, pol, ps, env);
    }
  }

  lemma {:induction false} CompleteOr(p: Pred, rest: seq<Token>, pol: Polarity, ps: seq<ParamInfo>, env: Env)
    requires WellFormed(p, 0) && !AtKeyword(rest, "and")
    ensures ParseOr(Tokens(p) + rest, pol, ps, env) ==
            if Accept(p, pol, env) then OrLoop(Lowered(p, pol, |ps|, env), rest, pol, ps + Params(p, env), env)
                else Refused
    decreases p, 2
  {
    hide ParseAnd, Infix, Fold;
    if p.Or? {
      var tail := [Ident(p.kw)] + (Tokens(p.r) + rest);
      Shift(Tokens(p.l), Ident(p.kw), Tokens(p.r), rest);
      CompleteOr(p.l, tail, pol, ps, env);
      var ps1 := ps + Params(p.l, env);
      CompleteAnd(p.r, rest, pol, ps1, env);
      Assoc(ps, Params(p.l, env), Params(p.r, env));
    } else {
      CompleteAnd(p, rest, pol, ps, env);
    }
  }

  // ---------------------------------------------------------------------------------------
  // Soundness: whatever the parser consumes is the tokens of a well-formed predicate.

  lemma {:induction false} SoundOperand(col: string, kind: Kind, op: string, ts: seq<Token>, pol: Polarity,
                                        ps: seq<ParamInfo>, env: Env)
    returns (x: Operand)
    requires ParseOperand(col, kind, op, ts, pol, ps, env).Done?
    ensures GoodOperand(x) && ts == OperandTokens(x) + ParseOperand(col, kind, op, ts, pol, ps, env).rest
  {
    x := if ts[0] == Param then Hole else Literal(ts[0]);
    assert ts == [ts[0]] + ts[1..];
  }

  lemma {:induction false} SoundItems(col: string, kind: Kind, terms: seq<Frags>, ts: seq<Token>, pol: Polarity,
                                      ps: seq<ParamInfo>, env: Env) returns (items: seq<Operand>)
    requires InLoop(col, kind, terms, ts, pol, ps, env).Done?
    ensures items != [] && forall x :: x in items ==> GoodOperand(x)
    ensures ts == ItemTokens(items) + InLoop(col, kind, terms, ts, pol, ps, env).rest
    decreases |ts|
  {
    hide ParseOperand, GoodOperand, OperandTokens;
    var x := SoundOperand(col, kind, "=", ts, pol, ps, env);
    var r := ParseOperand(col, kind, "=", ts, pol, ps, env);
    items := [x];
    if r.rest != [] && r.rest[0] == Comma {
      var more := SoundItems(col, kind, terms + [r.out], r.rest[1..], pol, r.params, env);
      items := [x] + more;
      assert items[1..] == more;
      Uncons(r.rest);
      Shift(OperandTokens(x), Comma, ItemTokens(more), InLoop(col, kind, terms, ts, pol, ps, env).rest);
    }
  }

  lemma {:induction false} SoundAtom(ts: seq<Token>, pol: Polarity, ps: seq<ParamInfo>, env: Env) returns (p: Pred)
    requires ParsePredicate(ts, pol, ps, env).Done? && !AtKeyword(ts, "not")
    ensures WellFormed(p, 2) && ts == Tokens(p) + ParsePredicate(ts, pol, ps, env).rest
  {
    hide ParseIn, ParseBetween, ParseIsNull, ParseOperand, OperandTokens, Fold;
    var col, after := ts[0].text, ts[1..];
    var kind := env.cols(col).value;
    Uncons(ts);
    if AtKeyword(after, "is") {
      p := SoundIsNull(col, after, ps);
    } else if AtKeyword(after, "in") {
      p := SoundIn(col, kind, after, pol, ps, env);
    } else if AtKeyword(after, "between") {
      p := SoundBetween(col, kind, after, ps, env);
    } else {
      var x := SoundOperand(col, kind, after[0].text, after[1..], pol, ps, env);
      p := Cmp(col, after[0].text, x);
      Uncons(after);
    }
  }

  lemma {:induction false} SoundIsNull(col: string, after: seq<Token>, ps: seq<ParamInfo>) returns (p: Pred)
    requires Fold(col) != "not" && AtKeyword(after, "is") && ParseIsNull(col, after[1..], ps).Done?
    ensures WellFormed(p, 2) && [Ident(col)] + after == Tokens(p) + ParseIsNull(col, after[1..], ps).rest
  {
    hide Fold;
    var more := after[1..];
    var notNull := AtKeyword(more, "not");
    var tail := if notNull then more[1..] else more;
    p := IsNull(col, after[0].text, if notNull then Some(more[0].text) else None, tail[0].text);
  }

  lemma {:induction false} InShape<T>(a: T, b: T, c: T, x: seq<T>, d: T, rest: seq<T>)
    ensures [a] + ([b] + ([c] + (x + ([d] + rest)))) == ([a, b, c] + x + [d]) + rest
  {
  }

  lemma {:induction false} SoundIn(col: string, kind: Kind, after: seq<Token>, pol: Polarity, ps: seq<ParamInfo>,
                                   env: Env) returns (p: Pred)
    requires Fold(col) != "not" && AtKeyword(after, "in") && ParseIn(col, kind, after[1..], pol, ps, env).Done?
    ensures WellFormed(p, 2)
    ensures [Ident(col)] + after == Tokens(p) + ParseIn(col, kind, after[1..], pol, ps, env).rest
  {
    hide Fold, InLoop, InList, GoodOperand, ItemTokens;
    var more := after[1..];
    var items := SoundItems(col, kind, [], more[1..], pol, ps, env);
    p := In(col, after[0].text, items);
    var tail := InLoop(col, kind, [], more[1..], pol, ps, env).rest;
    Uncons(tail);
    Uncons(more);
    Uncons(after);
    InShape(Ident(col), after[0], LParen, ItemTokens(items), RParen, tail[1..]);
  }

  lemma {:induction false} BetweenShape<T>(a: T, b: T, x: seq<T>, c: T, y: seq<T>, rest: seq<T>)
    ensures [a] + ([b] + (x + ([c] + (y + rest)))) == ([a, b] + x + [c] + y) + rest
  {
  }

  lemma {:induction false} SoundBetween(col: string, kind: Kind, after: seq<Token>, ps: seq<ParamInfo>,
                                        env: Env) returns (p: Pred)
    requires Fold(col) != "not" && AtKeyword(after, "between") && ParseBetween(col, kind, after[1..], ps, env).Done?
    ensures WellFormed(p, 2)
    ensures [Ident(col)] + after == Tokens(p) + ParseBetween(col, kind, after[1..], ps, env).rest
  {
    hide Fold, ParseOperand, Infix, OperandTokens, GoodOperand;
    var lo := SoundOperand(col, kind, ">=", after[1..], Positive, ps, env);
    var r := ParseOperand(col, kind, ">=", after[1..], Positive, ps, env);
    var hi := SoundOperand(col, kind, "<=", r.rest[1..], Positive, r.params, env);
    p := Between(col, after[0].text, lo, r.rest[0].text, hi);
    var rest := ParseBetween(col, kind, after[1..], ps, env).rest;
    Uncons(r.rest);
    Uncons(after);
    BetweenShape(Ident(col), after[0], OperandTokens(lo), r.rest[0], OperandTokens(hi), rest);
  }

  lemma {:induction false} NotShape(kw: string, q: Pred)
    ensures Tokens(Not(kw, q)) == [Ident(kw)] + Tokens(q)
    ensures WellFormed(Not(kw, q), 2) <==> Fold(kw) == "not" && WellFormed(q, 2)
  {
  }

  lemma {:induction false} ParenShape(q: Pred)
    ensures Tokens(Paren(q)) == [LParen] + Tokens(q) + [RParen]
    ensures WellFormed(Paren(q), 2) <==> WellFormed(q, 0)
  {
  }

  lemma {:induction false} SoundUnary(ts: seq<Token>, pol: Polarity, ps: seq<ParamInfo>, env: Env) returns (p: Pred)
    requires ParseUnary(ts, pol, ps, env).Done?
    ensures WellFormed(p, 2) && ts == Tokens(p) + ParseUnary(ts, pol, ps, env).rest
    decreases |ts|, 0
  {
    hide ParsePredicate, Bracket, Fold, ParseOr, Tokens, WellFormed;
    if AtKeyword(ts, "not") {
      var q := SoundUnary(ts[1..], Flip(pol), ps, env);
      p := Not(ts[0].text, q);
      NotShape(ts[0].text, q);
      assert ts == [ts[0]] + ts[1..];
    } else if ts != [] && ts[0] == LParen {
      var q := SoundOr(ts[1..], pol, ps, env);
      p := Paren(q);
      ParenShape(q);
      var tail := ParseOr(ts[1..], pol, ps, env).rest;
      assert tail == [RParen] + tail[1..];
      assert ts == [LParen] + ts[1..];
    } else {
      p := SoundAtom(ts, pol, ps, env);
    }
  }

  lemma {:induction false} SoundAndLoop(l: Pred, e: Frags, ts: seq<Token>, pol: Polarity, ps: seq<ParamInfo>, env: Env)
    returns (p: Pred)
    requires WellFormed(l, 1) && AndLoop(e, ts, pol, ps, env).Done?
    ensures WellFormed(p, 1)
    ensures var rest := AndLoop(e, ts, pol, ps, env).rest;
            !AtKeyword(rest, "and") && Tokens(l) + ts == Tokens(p) + rest
    decreases |ts|, 0
  {
    hide ParseUnary, Infix, Fold;
    p := l;
    if AtKeyword(ts, "and") {
      var r := SoundUnary(ts[1..], pol, ps, env);
      var s := ParseUnary(ts[1..], pol, ps, env);
      var l' := And(l, ts[0].text, r);
      p := SoundAndLoop(l', Infix(e, " && ", s.out), s.rest, pol, s.params, env);
      Uncons(ts);
      Shift(Tokens(l), ts[0], Tokens(r), s.rest);
    }
  }

  lemma {:induction false} SoundAnd(ts: seq<Token>, pol: Polarity, ps: seq<ParamInfo>, env: Env) returns (p: Pred)
    requires ParseAnd(ts, pol, ps, env).Done?
    ensures WellFormed(p, 1)
    ensures var rest := ParseAnd(ts, pol, ps, env).rest;
            !AtKeyword(rest, "and") && ts == Tokens(p) + rest
    decreases |ts|, 1
  {
    var l := SoundUnary(ts, pol, ps, env);
    var s := ParseUnary(ts, pol, ps, env);
    p := SoundAndLoop(l, s.out, s.rest, pol, s.params, env);
  }

  lemma {:induction false} SoundOrLoop(l: Pred, e: Frags, ts: seq<Token>, pol: Polarity, ps: seq<ParamInfo>, env: Env)
    returns (p: Pred)
    requires WellFormed(l, 0) && !AtKeyword(ts, "and") && OrLoop(e, ts, pol, ps, env).Done?
    ensures WellFormed(p, 0)
    ensures var rest := OrLoop(e, ts, pol, ps, env).rest;
            !AtKeyword(rest, "or") && !AtKeyword(rest, "and") && Tokens(l) + ts == Tokens(p) + rest
    decreases |ts|, 2
  {
    hide ParseAnd, Infix, Fold;
    p := l;
    if AtKeyword(ts, "or") {
      var r := SoundAnd(ts[1..], pol, ps, env);
      var s := ParseAnd(ts[1..], pol, ps, env);
      var l' := Or(l, ts[0].text, r);
      p := SoundOrLoop(l', Infix(e, " || ", s.out), s.rest, pol, s.params, env);
      Uncons(ts);
      Shift(Tokens(l), ts[0], Tokens(r), s.rest);
    }
  }

  lemma {:induction false} SoundOr(ts: seq<Token>, pol: Polarity, ps: seq<ParamInfo>, env: Env) returns (p: Pred)
    requires ParseOr(ts, pol, ps, env).Done?
    ensures WellFormed(p, 0)
    ensures var rest := ParseOr(ts, pol, ps, env).rest;
            !AtKeyword(rest, "or") && !AtKeyword(rest, "and") && ts == Tokens(p) + rest
    decreases |ts|, 3
  {
    var l := SoundAnd(ts, pol, ps, env);
    var s := ParseAnd(ts, pol, ps, env);
    p := SoundOrLoop(l, s.out, s.rest, pol, s.params, env);
  }

  // ---------------------------------------------------------------------------------------
  // The two together.

  /** The template of a well-formed predicate: accepted exactly when the rules admit it. */
  lemma {:induction false} TemplateOf(p: Pred, env: Env)
    requires WellFormed(p, 0)
    ensures LowerTemplate(Tokens(p), env) ==
            if Accept(p, Positive, env) then Ok(Template(Lowered(p, Positive, 0, env), Params(p, env))) else Err
  {
    CompleteOr(p, [], Positive, [], env);
    assert Tokens(p) + [] == Tokens(p);
    assert [] + Params(p, env) == Params(p, env);
  }

  /** Every token sequence that lowers is the spelling of a well-formed, admitted predicate. */
  lemma {:induction false} TemplateFrom(ts: seq<Token>, env: Env) returns (p: Pred)
    requires LowerTemplate(ts, env).Ok?
    ensures WellFormed(p, 0) && ts == Tokens(p) && Accept(p, Positive, env)
    ensures LowerTemplate(ts, env) == Ok(Template(Lowered(p, Positive, 0, env), Params(p, env)))
  {
    p := SoundOr(ts, Positive, [], env);
    assert Tokens(p) + [] == Tokens(p);
    TemplateOf(p, env);
  }
}
