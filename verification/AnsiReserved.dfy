/** A column whose name ClassAd keeps for itself: the lowering writes it bare, and the text reads it as a
    constant or does not parse. */
module AnsiReserved {
  import opened Text
  import C = ClassAd
  import opened SqlPredicate
  import opened AnsiLower
  import opened AnsiGrammar
  import opened AnsiText
  import opened AnsiRead
  import opened AnsiMeaning
  import opened AnsiTheorems

  /** Some value of the column's kind makes the atom true. Only NULLs, bounds the wrong way round, and
      comparisons below FALSE or above TRUE have none. */
  predicate Satisfiable(q: Pred, env: Env)
    requires Atom(q)
  {
    match q
    case Cmp(col, op, x) => SatisfiableCmp(op, x, env.num)
    case In(_, _, items) => exists x :: x in items && !x.Null?
    case Between(_, _, lo, _, hi) =>
      !lo.Null? && !hi.Null? && Compare("<=", OperandValue(lo, env.num), OperandValue(hi, env.num)) == True
    case IsNull(_, _, _, _) => true
  }

  predicate SatisfiableCmp(op: string, x: Operand, num: string -> Option<real>) {
    !x.Null? && !(op == "<" && OperandValue(x, num) == VBool(false)) &&
        !(op == ">" && OperandValue(x, num) == VBool(true))
  }

  // ---------------------------------------------------------------------------------------
  // The SQL side.

  /** A legal literal's value is of the column's kind. */
  lemma {:induction false} OperandKind(col: string, op: string, x: Operand, env: Env)
    requires LegalOperand(col, op, x, Positive, env)
    ensures var k, v := env.cols(col).value, OperandValue(x, env.num);
            if x.Null? then v == VNull
            else if k == KString then op == "=" && v.VStr?
            else if k == KBool then v.VBool?
            else v.VNum?
    ensures x.Null? || x.Literal?
  {
    hide Fold, ClassAdString, HasAny;
  }

  /** A value of the column's kind the comparison is true of. */
  function Satisfying(op: string, v: SqlValue): C.Value {
    match v
    case VNum(r) =>
      C.Num(if op == "<" then r - 1.0 else if op in [">", "<>", "!="] then r + 1.0 else r)
    case VBool(b) => C.Bool(if op in ["=", "<=", ">="] then b else !b)
    case VStr(s) => C.Str(s)
    case VNull => C.Undefined
  }

  lemma {:induction false} SatisfyingCmp(col: string, op: string, x: Operand, env: Env)
    requires LegalOperand(col, op, x, Positive, env) && SatisfiableCmp(op, x, env.num)
    ensures var v := Satisfying(op, OperandValue(x, env.num));
            HasKind(v, env.cols(col).value) && Compare(op, ColumnValue(v), OperandValue(x, env.num)) == True
  {
    hide LegalOperand, OperandValue;
    OperandKind(col, op, x, env);
    assert IsCompareOp(op) by { LegalOp(col, op, x, env); }
  }

  lemma {:induction false} LegalOp(col: string, op: string, x: Operand, env: Env)
    requires LegalOperand(col, op, x, Positive, env)
    ensures IsCompareOp(op)
  {
  }

  /** The row whose only attribute is the column. */
  function Only(col: string, v: C.Value): string -> C.Value { c => if c == col then v else C.Undefined }

  lemma {:induction false} OnlyTyped(col: string, v: C.Value, env: Env)
    requires env.cols(col).Some? ==> HasKind(v, env.cols(col).value)
    ensures TypedAd(Only(col, v), env)
  {
  }

  lemma {:induction false} NullIn(items: seq<Operand>, num: string -> Option<real>)
    ensures MeaningIn(VNull, items, num) != True
  {
    if items != [] { NullIn(items[1..], num); }
  }

  lemma {:induction false} InTrue(v: SqlValue, items: seq<Operand>, x: Operand, num: string -> Option<real>)
    requires x in items && Compare("=", v, OperandValue(x, num)) == True
    ensures MeaningIn(v, items, num) == True
  {
    if items[0] != x { InTrue(v, items[1..], x, num); }
  }

  /** A value the atom is decided differently on than on NULL. */
  lemma {:induction false} Varies(q: Pred, env: Env) returns (v: C.Value)
    requires Atom(q) && Legal(q, Positive, env) && Satisfiable(q, env)
    ensures env.cols(q.col).Some? && HasKind(v, env.cols(q.col).value)
    ensures (Meaning(q, Only(q.col, v), env.num) == True) != (Meaning(q, Only(q.col, C.Undefined), env.num) == True)
  {
    hide LegalOperand, OperandValue;
    match q {
      case Cmp(col, op, x) =>
        LegalColumn(col, op, x, Positive, env);
        SatisfyingCmp(col, op, x, env);
        v := Satisfying(op, OperandValue(x, env.num));
      case In(col, _, items) =>
        var x :| x in items && !x.Null?;
        LegalColumn(col, "=", x, Positive, env);
        SatisfyingCmp(col, "=", x, env);
        v := Satisfying("=", OperandValue(x, env.num));
        InTrue(ColumnValue(v), items, x, env.num);
        NullIn(items, env.num);
      case Between(col, _, lo, _, hi) =>
        OperandKind(col, ">=", lo, env);
        OperandKind(col, "<=", hi, env);
        v := Satisfying(">=", OperandValue(lo, env.num));
      case IsNull(col, _, _, _) =>
        var k := env.cols(col).value;
        v := if k == KString then C.Str("") else if k == KBool then C.Bool(true) else C.Num(0.0);
    }
  }

  lemma {:induction false} AllNullIn(v: SqlValue, items: seq<Operand>, num: string -> Option<real>)
    requires forall x :: x in items ==> x.Null?
    ensures MeaningIn(v, items, num) != True
  {
    if items != [] {
      assert items[0] in items;
      AllNullIn(v, items[1..], num);
    }
  }

  /** An atom no value satisfies is true of no row. */
  lemma {:induction false} NeverTrue(q: Pred, ad: string -> C.Value, env: Env)
    requires Atom(q) && Legal(q, Positive, env) && !Satisfiable(q, env) && TypedAd(ad, env)
    ensures Meaning(q, ad, env.num) != True
  {
    hide LegalOperand, OperandValue;
    match q {
      case Cmp(col, op, x) => OperandKind(col, op, x, env);
      case In(col, _, items) => AllNullIn(ColumnValue(ad(col)), items, env.num);
      case Between(col, _, lo, _, hi) =>
        OperandKind(col, ">=", lo, env);
        OperandKind(col, "<=", hi, env);
      case IsNull(_, _, _, _) =>
    }
  }

  // ---------------------------------------------------------------------------------------
  // The text side.

  /** The constant a reserved word is read as. */
  lemma {:induction false} WordConstant(col: string, ad: string -> C.Value) returns (c: C.Value)
    requires ConstantWord(col)
    ensures C.Word(col) == C.Lit(c) && !c.Num? && !c.Str? && (c.Bool? || c == C.Undefined || c == C.Error)
  {
    hide Fold;
    c := if Fold(col) == "true" then C.Bool(true)
         else if Fold(col) == "false" then C.Bool(false)
         else if Fold(col) == "undefined" then C.Undefined
         else C.Error;
  }

  /** A comparison that the reader gets, on such a column, has one value for every row. */
  lemma {:induction false} SameAtom(col: string, op: string, x: Operand, a: string -> C.Value, b: string -> C.Value,
                                    env: Env)
    requires Reserved(col) && !BrokenAtom(col, x)
    ensures C.Eval(AtomExpr(col, op, x, env), a) == C.Eval(AtomExpr(col, op, x, env), b)
  {
    hide Fold, C.Compare, C.Word;
    if ConstantWord(col) { var c := WordConstant(col, a); }
  }

  lemma {:induction false} SameItems(l: C.Expr, col: string, items: seq<Operand>, a: string -> C.Value,
                                     b: string -> C.Value, env: Env)
    requires C.Eval(l, a) == C.Eval(l, b) && Reserved(col) && forall x :: x in items ==> !BrokenAtom(col, x)
    ensures C.Eval(ItemsExpr(l, col, items, env), a) == C.Eval(ItemsExpr(l, col, items, env), b)
    decreases |items|
  {
    hide Reserved, C.Compare, BrokenAtom, AtomExpr;
    if items != [] {
      assert items[0] in items;
      SameAtom(col, "=", items[0], a, b, env);
      SameItems(C.Or(l, AtomExpr(col, "=", items[0], env)), col, items[1..], a, b, env);
    }
  }

  lemma {:induction false} SameIsNull(q: Pred, c: C.Value, a: string -> C.Value, b: string -> C.Value, env: Env)
    requires q.IsNull? && C.Word(q.col) == C.Lit(c)
    ensures C.Eval(OutExpr(q, env), a) == C.Eval(OutExpr(q, env), b)
  {
    hide C.Word;
  }

  /** The text admits every row or none. */
  lemma {:induction false} AllOrNothing(q: Pred, a: string -> C.Value, b: string -> C.Value, env: Env)
    requires Atom(q) && GoodEnv(env) && Legal(q, Positive, env) && Reserved(q.col)
    ensures C.Admits(OutText(q, env), a, env.num) == C.Admits(OutText(q, env), b, env.num)
  {
    hide C.Read, OutText, GoodEnv, Ready, C.Compare, C.Word, ReadyOperand, BrokenAtom, AtomExpr, LegalOperand,
         Fold;
    LegalReady(q, Positive, env);
    ReadOut(q, env);
    if !Broken(q) {
      match q {
        case Cmp(col, op, x) => SameAtom(col, op, x, a, b, env);
        case In(col, _, items) =>
          assert items[0] in items;
          SameAtom(col, "=", items[0], a, b, env);
          SameItems(AtomExpr(col, "=", items[0], env), col, items[1..], a, b, env);
        case Between(col, _, lo, _, hi) =>
          SameAtom(col, ">=", lo, a, b, env);
          SameAtom(col, "<=", hi, a, b, env);
        case IsNull(col, _, _, _) =>
          var c := WordConstant(col, a);
          SameIsNull(q, c, a, b, env);
      }
    }
  }

  lemma {:induction false} FalseItems(l: C.Expr, col: string, items: seq<Operand>, ad: string -> C.Value, env: Env)
    requires C.Eval(l, ad) == C.Bool(false) && forall x :: x in items ==> x.Null?
    ensures C.Eval(ItemsExpr(l, col, items, env), ad) == C.Bool(false)
    decreases |items|
  {
    if items != [] {
      assert items[0] in items;
      FalseItems(C.Or(l, AtomExpr(col, "=", items[0], env)), col, items[1..], ad, env);
    }
  }

  /** What the text makes of a bool or number compared with a constant word. */
  lemma {:induction false} ConstantAtom(col: string, op: string, x: Operand, ad: string -> C.Value, c: C.Value,
                                        env: Env)
    requires LegalOperand(col, op, x, Positive, env) && x.Literal? && env.cols(col).value != KString
    requires C.Word(col) == C.Lit(c) && !c.Num? && !c.Str?
    ensures C.Eval(AtomExpr(col, op, x, env), ad) == C.Bool(true) ==>
              c.Bool? && Compare(op, VBool(c.b), OperandValue(x, env.num)) == True
  {
    hide Fold, C.Word;
    var k := env.cols(col).value;
    var cop, lit := BinOpOf(AtomOp(k, op)), C.Eval(LiteralExpr(x.t, env), ad);
    assert C.Eval(AtomExpr(col, op, x, env), ad) == C.Compare(cop, c, lit);
    LiteralSides(x.t, k, env);
    CompareOps(op);
  }

  /** An atom no value satisfies admits no row. */
  lemma {:induction false} NeverAdmits(q: Pred, ad: string -> C.Value, env: Env)
    requires Atom(q) && GoodEnv(env) && Legal(q, Positive, env) && Reserved(q.col) && !Satisfiable(q, env)
    ensures !C.Admits(OutText(q, env), ad, env.num)
  {
    hide C.Read, OutText, GoodEnv, Ready, C.Compare, C.Word, ReadyOperand, ConstantWord, OpWord, LegalOperand,
         OperandValue;
    LegalReady(q, Positive, env);
    ReadOut(q, env);
    if !Broken(q) {
      match q {
        case Cmp(col, op, x) =>
          OperandKind(col, op, x, env);
          if x.Literal? {
            var c := WordConstant(col, ad);
            ConstantAtom(col, op, x, ad, c, env);
          }
        case In(col, _, items) =>
          assert items[0] in items;
          FalseItems(AtomExpr(col, "=", items[0], env), col, items[1..], ad, env);
        case Between(col, _, lo, _, hi) =>
          BetweenNever(q, ad, env);
      }
    }
  }

  lemma {:induction false} BetweenNever(q: Pred, ad: string -> C.Value, env: Env)
    requires q.Between? && Legal(q, Positive, env) && Reserved(q.col) && !Broken(q) && !Satisfiable(q, env)
    ensures C.Eval(OutExpr(q, env), ad) != C.Bool(true)
  {
    hide C.Compare, C.Word, LegalOperand, OperandValue, AtomExpr, ConstantWord;
    var lo, hi := C.Eval(AtomExpr(q.col, ">=", q.lo, env), ad), C.Eval(AtomExpr(q.col, "<=", q.hi, env), ad);
    OperandKind(q.col, ">=", q.lo, env);
    OperandKind(q.col, "<=", q.hi, env);
    if q.lo.Null? || q.hi.Null? {
      NullFalse(q, ad, env);
    } else {
      var c := WordConstant(q.col, ad);
      ConstantAtom(q.col, ">=", q.lo, ad, c, env);
      ConstantAtom(q.col, "<=", q.hi, ad, c, env);
    }
  }

  lemma {:induction false} NullFalse(q: Pred, ad: string -> C.Value, env: Env)
    requires q.Between? && (q.lo.Null? || q.hi.Null?)
    ensures C.Eval(OutExpr(q, env), ad) != C.Bool(true)
  {
    hide C.Compare, C.Word;
  }

  // ---------------------------------------------------------------------------------------
  // Exactly when an atom's meaning is kept.

  ghost predicate KeptOn(q: Pred, ad: string -> C.Value, env: Env) {
    C.Admits(OutText(q, env), ad, env.num) <==> Meaning(q, ad, env.num) == True
  }

  /** A comparison, IN, BETWEEN or NULL predicate means what SQL means on every typed row if and only if its
      column is not spelled like a word ClassAd keeps, or no value satisfies it. */
  lemma {:induction false} KeptIff(q: Pred, env: Env)
    requires Atom(q) && GoodEnv(env) && Legal(q, Positive, env)
    ensures (forall ad :: TypedAd(ad, env) ==> KeptOn(q, ad, env)) <==> !Reserved(q.col) || !Satisfiable(q, env)
  {
    hide GoodEnv, Legal, C.Admits, OutText, Meaning, Satisfiable, Reserved, TypedAd;
    if Reserved(q.col) && Satisfiable(q, env) {
      var v := Varies(q, env);
      var some, none := Only(q.col, v), Only(q.col, C.Undefined);
      OnlyTyped(q.col, v, env);
      OnlyTyped(q.col, C.Undefined, env);
      AllOrNothing(q, some, none, env);
      assert !(KeptOn(q, some, env) && KeptOn(q, none, env));
    } else {
      forall ad | TypedAd(ad, env) ensures KeptOn(q, ad, env) {
        if Reserved(q.col) {
          NeverTrue(q, ad, env);
          NeverAdmits(q, ad, env);
        } else {
          AtomPlain(q);
          AdmitsLegal(q, ad, env);
        }
      }
    }
  }

  lemma {:induction false} AtomPlain(q: Pred)
    requires Atom(q)
    ensures NullsPositive(q, Positive) && (!Reserved(q.col) ==> Unreserved(q))
  {
  }

  const COMPARISON := [Ident("error"), Op("="), Number("1")]

  /** A column named error: `error = 1` is accepted and lowers to `error == 1`, which admits nothing, not even
      the row whose error is 1. */
  lemma {:induction false} ErrorColumn(env: Env)
    requires GoodEnv(env) && env.cols("error") == Some(KInt) && env.num("1") == Some(1.0)
    ensures var p, ad := Cmp("error", "=", Literal(Number("1"))), Only("error", C.Num(1.0));
            && Tokens(p) == COMPARISON && Lower(COMPARISON, env) == Ok("error == 1") && TypedAd(ad, env)
            && Meaning(p, ad, env.num) == True && !C.Admits("error == 1", ad, env.num)
  {
    hide Fold, Lower, C.Read, GoodEnv, TypedAd, C.Word;
    var p, ad := Cmp("error", "=", Literal(Number("1"))), Only("error", C.Num(1.0));
    ErrorFold();
    assert WellFormed(p, 0) && Legal(p, Positive, env) && Accept(p, Positive, env);
    ErrorText(p, env);
    OnlyTyped("error", C.Num(1.0), env);
    LegalReady(p, Positive, env);
    ReadOut(p, env);
    var c := WordConstant("error", ad);
    assert C.Word("error") == C.Lit(C.Error) by { ErrorWord(); }
    assert C.Eval(OutExpr(p, env), ad) == C.Error;
  }

  lemma {:induction false} ErrorFold()
    ensures Fold("error") == "error" && ConstantWord("error")
  {
    hide Fold;
    FoldLower("error");
  }

  lemma {:induction false} ErrorWord()
    ensures C.Word("error") == C.Lit(C.Error)
  {
    hide Fold;
    ErrorFold();
  }

  lemma {:induction false} ErrorText(p: Pred, env: Env)
    requires p == Cmp("error", "=", Literal(Number("1"))) && WellFormed(p, 0) && Accept(p, Positive, env)
    requires env.cols("error") == Some(KInt)
    ensures OutText(p, env) == "error == 1" && Lower(Tokens(p), env) == Ok("error == 1")
  {
    hide Fold, BindFrags, Lowered, WellTyped;
    TemplateOf(p, env);
    BindText(p, [], env);
    NoneTyped([], Params(p, env));
    FillNone(p);
    assert OutText(p, env) == "error" + " " + "==" + " " + "1";
  }
}
