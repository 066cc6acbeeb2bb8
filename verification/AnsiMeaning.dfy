/** The lowering keeps the meaning of a WHERE clause: over any typed row the constraint text is
    true exactly where the SQL predicate is. */
module AnsiMeaning {
  import opened Text
  import C = ClassAd
  import opened SqlPredicate
  import opened AnsiLower
  import opened AnsiGrammar
  import opened AnsiText
  import opened AnsiRead

  // ---------------------------------------------------------------------------------------
  // Typed rows.

  predicate HasKind(v: C.Value, k: Kind) {
    match k
    case KString => v.Str? || v.Undefined?
    case KBool => v.Bool? || v.Undefined?
    case KUnknown => !v.Error?
    case _ => v.Num? || v.Undefined?
  }

  /** Every declared column is undefined or holds a value of its declared kind. */
  ghost predicate TypedAd(ad: string -> C.Value, env: Env) {
    forall c :: env.cols(c).Some? ==> HasKind(ad(c), env.cols(c).value)
  }

  // ---------------------------------------------------------------------------------------
  // Filled-in predicates the rules admit, and where a bound NULL sits in them.

  predicate LegalOperand(col: string, op: string, x: Operand, pol: Polarity, env: Env) {
    && env.cols(col).Some? && IsCompareOp(op)
    && (x.Null? || (x.Literal? && LiteralToken(x.t) && AcceptOperand(col, env.cols(col).value, op, x, pol, env)))
  }

  predicate LegalItems(col: string, items: seq<Operand>, pol: Polarity, env: Env) {
    items != [] && forall x :: x in items ==> LegalOperand(col, "=", x, pol, env)
  }

  predicate Legal(q: Pred, pol: Polarity, env: Env) {
    match q
    case Or(l, _, r) => Legal(l, pol, env) && Legal(r, pol, env)
    case And(l, _, r) => Legal(l, pol, env) && Legal(r, pol, env)
    case Not(_, p) => Legal(p, Flip(pol), env)
    case Paren(p) => Legal(p, pol, env)
    case Cmp(col, op, x) => LegalOperand(col, op, x, pol, env)
    case In(col, _, items) => LegalItems(col, items, pol, env)
    case Between(col, _, lo, _, hi) =>
      && env.cols(col).Some? && env.cols(col).value != KString
      && LegalOperand(col, ">=", lo, Positive, env) && LegalOperand(col, "<=", hi, Positive, env)
    case IsNull(col, _, _, _) => env.cols(col).Some?
  }

  /** No NULL is bound under an odd number of NOTs. */
  predicate NullsPositive(q: Pred, pol: Polarity) {
    match q
    case Or(l, _, r) => NullsPositive(l, pol) && NullsPositive(r, pol)
    case And(l, _, r) => NullsPositive(l, pol) && NullsPositive(r, pol)
    case Not(_, p) => NullsPositive(p, Flip(pol))
    case Paren(p) => NullsPositive(p, pol)
    case Cmp(_, _, x) => pol == Positive || !x.Null?
    case In(_, _, items) => pol == Positive || Null !in items
    case Between(_, _, lo, _, hi) => pol == Positive || (!lo.Null? && !hi.Null?)
    case IsNull(_, _, _, _) => true
  }

  lemma {:induction false} LegalOperandReady(col: string, op: string, x: Operand, pol: Polarity, env: Env)
    requires LegalOperand(col, op, x, pol, env)
    ensures ReadyOperand(col, op, x, env)
  {
  }

  lemma {:induction false} LegalReady(q: Pred, pol: Polarity, env: Env)
    requires Legal(q, pol, env)
    ensures Ready(q, env)
    decreases q
  {
    hide LegalOperand, ReadyOperand;
    match q {
      case Or(l, _, r) => LegalReady(l, pol, env); LegalReady(r, pol, env);
      case And(l, _, r) => LegalReady(l, pol, env); LegalReady(r, pol, env);
      case Not(_, p) => LegalReady(p, Flip(pol), env);
      case Paren(p) => LegalReady(p, pol, env);
      case Cmp(col, op, x) => LegalOperandReady(col, op, x, pol, env); LegalColumn(col, op, x, pol, env);
      case In(col, _, items) =>
        assert items[0] in items;
        LegalColumn(col, "=", items[0], pol, env);
        forall x | x in items ensures ReadyOperand(col, "=", x, env) { LegalOperandReady(col, "=", x, pol, env); }
      case Between(col, _, lo, _, hi) =>
        LegalOperandReady(col, ">=", lo, Positive, env);
        LegalOperandReady(col, "<=", hi, Positive, env);
      case IsNull(_, _, _, _) =>
    }
  }

  lemma {:induction false} LegalColumn(col: string, op: string, x: Operand, pol: Polarity, env: Env)
    requires LegalOperand(col, op, x, pol, env)
    ensures env.cols(col).Some?
  {
  }

  /** A name the ClassAd grammar does not keep reads as the attribute. */
  lemma {:induction false} NameReads(col: string)
    requires !Reserved(col)
    ensures C.Word(col) == C.Attr(col)
  {
    hide Fold;
  }

  lemma {:induction false} NotBroken(q: Pred)
    requires Unreserved(q)
    ensures !Broken(q)
    decreases q
  {
    hide Fold;
    match q {
      case Or(l, _, r) => NotBroken(l); NotBroken(r);
      case And(l, _, r) => NotBroken(l); NotBroken(r);
      case Not(_, p) => NotBroken(p);
      case Paren(p) => NotBroken(p);
      case _ => assert q.col in Columns(q);
    }
  }

  // ---------------------------------------------------------------------------------------
  // SQL's meaning, with a choice of what a comparison with a bound NULL is worth.

  function CompareOr(nul: Truth, op: string, v: SqlValue, x: Operand, num: string -> Option<real>): Truth {
    if x.Null? then nul else Compare(op, v, OperandValue(x, num))
  }

  function MeaningInOr(nul: Truth, v: SqlValue, items: seq<Operand>, num: string -> Option<real>): Truth {
    if items == [] then False else Or3(CompareOr(nul, "=", v, items[0], num), MeaningInOr(nul, v, items[1..], num))
  }

  function MeaningOr(nul: Truth, p: Pred, ad: string -> C.Value, num: string -> Option<real>): Truth {
    match p
    case Or(l, _, r) => Or3(MeaningOr(nul, l, ad, num), MeaningOr(nul, r, ad, num))
    case And(l, _, r) => And3(MeaningOr(nul, l, ad, num), MeaningOr(nul, r, ad, num))
    case Not(_, q) => Not3(MeaningOr(nul, q, ad, num))
    case Paren(q) => MeaningOr(nul, q, ad, num)
    case Cmp(col, op, x) => CompareOr(nul, op, ColumnValue(ad(col)), x, num)
    case In(col, _, items) => MeaningInOr(nul, ColumnValue(ad(col)), items, num)
    case Between(col, _, lo, _, hi) =>
      And3(CompareOr(nul, ">=", ColumnValue(ad(col)), lo, num), CompareOr(nul, "<=", ColumnValue(ad(col)), hi, num))
    case IsNull(_, _, _, _) => Meaning(p, ad, num)
  }

  /** SQL's own choice is unknown. */
  lemma {:induction false} MeaningUnknown(p: Pred, ad: string -> C.Value, num: string -> Option<real>)
    ensures MeaningOr(Unknown, p, ad, num) == Meaning(p, ad, num)
    decreases p
  {
    match p {
      case Or(l, _, r) => MeaningUnknown(l, ad, num); MeaningUnknown(r, ad, num);
      case And(l, _, r) => MeaningUnknown(l, ad, num); MeaningUnknown(r, ad, num);
      case Not(_, q) => MeaningUnknown(q, ad, num);
      case Paren(q) => MeaningUnknown(q, ad, num);
      case In(col, _, items) => MeaningInUnknown(ColumnValue(ad(col)), items, num);
      case _ =>
    }
  }

  lemma {:induction false} MeaningInUnknown(v: SqlValue, items: seq<Operand>, num: string -> Option<real>)
    ensures MeaningInOr(Unknown, v, items, num) == MeaningIn(v, items, num)
  {
    if items != [] { MeaningInUnknown(v, items[1..], num); }
  }

  /** Read as false, a bound NULL only takes rows away at positive polarity and adds them at negated. */
  predicate OneSided(sql: Truth, text: Truth, pol: Polarity) {
    if pol == Positive then sql == True ==> text == True else sql == False ==> text == False
  }

  lemma {:induction false} NullOneSided(p: Pred, pol: Polarity, ad: string -> C.Value, num: string -> Option<real>)
    ensures OneSided(MeaningOr(Unknown, p, ad, num), MeaningOr(False, p, ad, num), pol)
    decreases p
  {
    match p {
      case Or(l, _, r) => NullOneSided(l, pol, ad, num); NullOneSided(r, pol, ad, num);
      case And(l, _, r) => NullOneSided(l, pol, ad, num); NullOneSided(r, pol, ad, num);
      case Not(_, q) => NullOneSided(q, Flip(pol), ad, num);
      case Paren(q) => NullOneSided(q, pol, ad, num);
      case In(col, _, items) => NullOneSidedIn(ColumnValue(ad(col)), items, pol, num);
      case _ =>
    }
  }

  lemma {:induction false} NullOneSidedIn(v: SqlValue, items: seq<Operand>, pol: Polarity, num: string -> Option<real>)
    ensures OneSided(MeaningInOr(Unknown, v, items, num), MeaningInOr(False, v, items, num), pol)
  {
    if items != [] { NullOneSidedIn(v, items[1..], pol, num); }
  }

  // ---------------------------------------------------------------------------------------
  // The two-sided agreement.

  /** At positive polarity the two sides agree on true, at negated polarity on false; and the
      ClassAd side is never an error. */
  predicate Agrees(v: C.Value, t: Truth, pol: Polarity) {
    && (v.Bool? || v.Undefined?)
    && (pol == Positive ==> (v == C.Bool(true) <==> t == True))
    && (pol == Negated ==> (v == C.Bool(false) <==> t == False))
  }

  /** Agreement on all three truth values: what a numeric comparison has. */
  predicate Exact(v: C.Value, t: Truth) {
    (v == C.Bool(true) && t == True) || (v == C.Bool(false) && t == False) || (v == C.Undefined && t == Unknown)
  }

  lemma {:induction false} AgreeCombine(v: C.Value, t: Truth, w: C.Value, u: Truth, pol: Polarity)
    requires Agrees(v, t, pol) && Agrees(w, u, pol)
    ensures Agrees(C.AndValue(v, w), And3(t, u), pol)
    ensures Agrees(C.OrValue(v, w), Or3(t, u), pol)
  {
  }

  lemma {:induction false} AgreeNot(v: C.Value, t: Truth, pol: Polarity)
    requires Agrees(v, t, Flip(pol))
    ensures Agrees(C.NotValue(v), Not3(t), pol)
  {
  }

  /** One literal comparison on a column that is not a string: exact. */
  lemma {:induction false} ExactAtom(col: string, op: string, x: Operand, pol: Polarity, ad: string -> C.Value,
                                     env: Env)
    requires LegalOperand(col, op, x, pol, env) && x.Literal? && env.cols(col).value != KString && TypedAd(ad, env)
    requires !Reserved(col)
    ensures Exact(C.Eval(AtomExpr(col, op, x, env), ad), Compare(op, ColumnValue(ad(col)), OperandValue(x, env.num)))
  {
    hide Fold;
    var v, k := ad(col), env.cols(col).value;
    assert HasKind(v, k);
    WordsDiffer();
    NameReads(col);
    var lit := C.Eval(LiteralExpr(x.t, env), ad);
    var cop := BinOpOf(AtomOp(k, op));
    assert C.Eval(AtomExpr(col, op, x, env), ad) == C.Compare(cop, v, lit);
    LiteralSides(x.t, k, env);
    CompareOps(op);
  }

  lemma {:induction false} WordsDiffer()
    ensures Fold("true") == "true" && Fold("false") == "false"
  {
    FoldLiterals();
  }

  /** A literal denotes the same value on both sides, and one of the column's kind. */
  lemma {:induction false} LiteralSides(t: Token, k: Kind, env: Env)
    requires LiteralToken(t) && LiteralOf(t, env).Some? && k != KUnknown && LiteralFits(k, LiteralOf(t, env).value.kind)
    ensures exists v :: LiteralExpr(t, env) == C.Lit(v) && ColumnValue(v) == TokenValue(t, env.num) && !v.Undefined?
                        && HasKind(v, k)
  {
    hide Fold;
    WordsDiffer();
    match t {
      case Str(s) => assert LiteralExpr(t, env) == C.Lit(C.Str(s));
      case Number(w) => assert LiteralExpr(t, env) == C.Lit(C.Num(env.num(w).value));
      case Ident(w) => assert LiteralExpr(t, env) == C.Lit(C.Bool(Fold(w) == "true"));
    }
  }

  lemma {:induction false} CompareOps(op: string)
    requires IsCompareOp(op)
    ensures forall x: real, y: real :: Exact(C.CompareNum(BinOpOf(CadOp(op)), x, y), CompareReal(op, x, y))
  {
  }

  /** The operators the grammar has are those SQL's comparison of numbers knows. */
  lemma {:induction false} OperatorsIff(op: string)
    ensures IsCompareOp(op) <==> CompareReal(op, 0.0, 1.0) != Unknown
  {
  }

  /** What makes a bound NULL harmless: it is read as false, or it stands at positive polarity. */
  predicate NullAgrees(nul: Truth, isNull: bool, pol: Polarity) {
    nul == False || (nul == Unknown && (pol == Positive || !isNull))
  }

  lemma {:induction false} AgreeAtom(nul: Truth, col: string, op: string, x: Operand, pol: Polarity,
                                     ad: string -> C.Value, env: Env)
    requires LegalOperand(col, op, x, pol, env) && TypedAd(ad, env) && NullAgrees(nul, x.Null?, pol) && !Reserved(col)
    ensures Agrees(C.Eval(AtomExpr(col, op, x, env), ad), CompareOr(nul, op, ColumnValue(ad(col)), x, env.num), pol)
  {
    hide Fold;
    var v, k := ad(col), env.cols(col).value;
    assert HasKind(v, k);
    if x.Literal? {
      if k == KString {
        LiteralSides(x.t, k, env);
      } else {
        ExactAtom(col, op, x, pol, ad, env);
      }
    }
  }

  lemma {:induction false} AgreeItems(nul: Truth, l: C.Expr, t: Truth, col: string, items: seq<Operand>, pol: Polarity,
                                      ad: string -> C.Value, env: Env)
    requires (forall x :: x in items ==> LegalOperand(col, "=", x, pol, env)) && TypedAd(ad, env)
    requires NullAgrees(nul, Null in items, pol) && !Reserved(col)
    requires Agrees(C.Eval(l, ad), t, pol)
    ensures Agrees(C.Eval(ItemsExpr(l, col, items, env), ad),
                   Or3(t, MeaningInOr(nul, ColumnValue(ad(col)), items, env.num)), pol)
    decreases |items|
  {
    hide LegalOperand, AtomExpr, CompareOr, C.Compare, TypedAd, ColumnValue;
    if items != [] {
      var x := items[0];
      assert x in items;
      AgreeAtom(nul, col, "=", x, pol, ad, env);
      var u := CompareOr(nul, "=", ColumnValue(ad(col)), x, env.num);
      AgreeCombine(C.Eval(l, ad), t, C.Eval(AtomExpr(col, "=", x, env), ad), u, pol);
      AgreeItems(nul, C.Or(l, AtomExpr(col, "=", x, env)), Or3(t, u), col, items[1..], pol, ad, env);
    }
  }

  /** The joint induction, through nested NOT, AND, OR, IN and BETWEEN: bound NULLs read as unknown where they
      all stand at positive polarity, or as false wherever they stand. */
  lemma {:induction false} Agree(nul: Truth, q: Pred, pol: Polarity, ad: string -> C.Value, env: Env)
    requires Legal(q, pol, env) && TypedAd(ad, env) && Unreserved(q)
    requires nul == False || (nul == Unknown && NullsPositive(q, pol))
    ensures Agrees(C.Eval(OutExpr(q, env), ad), MeaningOr(nul, q, ad, env.num), pol)
    decreases q
  {
    hide LegalOperand, AtomExpr, CompareOr, C.Compare, MeaningInOr, ItemsExpr, Compare, MeaningIn;
    match q {
      case Or(l, _, r) =>
        Agree(nul, l, pol, ad, env);
        Agree(nul, r, pol, ad, env);
        AgreeCombine(C.Eval(OutExpr(l, env), ad), MeaningOr(nul, l, ad, env.num),
                     C.Eval(OutExpr(r, env), ad), MeaningOr(nul, r, ad, env.num), pol);
      case And(l, _, r) =>
        Agree(nul, l, pol, ad, env);
        Agree(nul, r, pol, ad, env);
        AgreeCombine(C.Eval(OutExpr(l, env), ad), MeaningOr(nul, l, ad, env.num),
                     C.Eval(OutExpr(r, env), ad), MeaningOr(nul, r, ad, env.num), pol);
      case Not(_, p) =>
        Agree(nul, p, Flip(pol), ad, env);
        AgreeNot(C.Eval(OutExpr(p, env), ad), MeaningOr(nul, p, ad, env.num), pol);
      case Paren(p) =>
        Agree(nul, p, pol, ad, env);
      case Cmp(col, op, x) =>
        AgreeAtom(nul, col, op, x, pol, ad, env);
      case In(col, _, items) =>
        AgreeIn(nul, q, pol, ad, env);
      case Between(_, _, _, _, _) =>
        AgreeBetween(nul, q, pol, ad, env);
      case IsNull(col, _, notKw, _) =>
        assert HasKind(ad(col), env.cols(col).value);
        assert col in Columns(q);
        NameReads(col);
        AgreeIsNull(ad(col), notKw.Some?, pol);
    }
  }

  lemma {:induction false} AgreeIsNull(v: C.Value, neg: bool, pol: Polarity)
    requires v != C.Error
    ensures Agrees(C.Compare(if neg then C.Isnt else C.Is, v, C.Undefined),
                   if neg then Bool3(ColumnValue(v) != VNull) else Bool3(ColumnValue(v) == VNull), pol)
  {
  }

  lemma {:induction false} AgreeIn(nul: Truth, q: Pred, pol: Polarity, ad: string -> C.Value, env: Env)
    requires q.In? && Legal(q, pol, env) && TypedAd(ad, env) && Unreserved(q)
    requires nul == False || (nul == Unknown && NullsPositive(q, pol))
    ensures Agrees(C.Eval(OutExpr(q, env), ad), MeaningOr(nul, q, ad, env.num), pol)
  {
    hide LegalOperand, AtomExpr, CompareOr, C.Compare, TypedAd, ColumnValue, ItemsExpr;
    var x, more := q.items[0], q.items[1..];
    assert x in q.items;
    AgreeAtom(nul, q.col, "=", x, pol, ad, env);
    AgreeItems(nul, AtomExpr(q.col, "=", x, env), CompareOr(nul, "=", ColumnValue(ad(q.col)), x, env.num), q.col, more,
               pol, ad, env);
  }

  /** A BETWEEN bound is lowered at positive polarity whatever its own, and agrees at both: strings are refused. */
  lemma {:induction false} AgreeBound(nul: Truth, col: string, op: string, x: Operand, pol: Polarity,
                                      ad: string -> C.Value, env: Env)
    requires LegalOperand(col, op, x, Positive, env) && env.cols(col).value != KString && TypedAd(ad, env)
    requires NullAgrees(nul, x.Null?, pol) && !Reserved(col)
    ensures Agrees(C.Eval(AtomExpr(col, op, x, env), ad), CompareOr(nul, op, ColumnValue(ad(col)), x, env.num), pol)
  {
    hide C.Compare, Fold, ColumnValue;
    if !x.Null? { ExactAtom(col, op, x, Positive, ad, env); }
  }

  lemma {:induction false} AgreeBetween(nul: Truth, q: Pred, pol: Polarity, ad: string -> C.Value, env: Env)
    requires q.Between? && Legal(q, pol, env) && TypedAd(ad, env) && Unreserved(q)
    requires nul == False || (nul == Unknown && NullsPositive(q, pol))
    ensures Agrees(C.Eval(OutExpr(q, env), ad), MeaningOr(nul, q, ad, env.num), pol)
  {
    hide LegalOperand, AtomExpr, CompareOr, C.Compare, TypedAd, ColumnValue;
    var lo, hi := C.Eval(AtomExpr(q.col, ">=", q.lo, env), ad), C.Eval(AtomExpr(q.col, "<=", q.hi, env), ad);
    var t := CompareOr(nul, ">=", ColumnValue(ad(q.col)), q.lo, env.num);
    var u := CompareOr(nul, "<=", ColumnValue(ad(q.col)), q.hi, env.num);
    AgreeBound(nul, q.col, ">=", q.lo, pol, ad, env);
    AgreeBound(nul, q.col, "<=", q.hi, pol, ad, env);
    AgreeCombine(lo, t, hi, u, pol);
  }

  /** The text of a legal filled-in predicate with its NULLs at positive polarity admits exactly the rows SQL
      admits. */
  lemma {:induction false} AdmitsLegal(q: Pred, ad: string -> C.Value, env: Env)
    requires GoodEnv(env) && TypedAd(ad, env) && Unreserved(q) && Legal(q, Positive, env) && NullsPositive(q, Positive)
    ensures C.Admits(OutText(q, env), ad, env.num) <==> Meaning(q, ad, env.num) == True
  {
    hide C.Read, C.Eval, OutText, OutExpr, Meaning, MeaningOr, GoodEnv, TypedAd, Legal, NullsPositive, Ready;
    LegalReady(q, Positive, env);
    NotBroken(q);
    ReadOut(q, env);
    Agree(Unknown, q, Positive, ad, env);
    MeaningUnknown(q, ad, env.num);
  }

  /** Wherever its NULLs stand, it admits exactly the rows where the predicate with its NULL comparisons read
      as false is true, and so every row SQL admits. */
  lemma {:induction false} AdmitsCollapsed(q: Pred, ad: string -> C.Value, env: Env)
    requires GoodEnv(env) && TypedAd(ad, env) && Unreserved(q) && Legal(q, Positive, env)
    ensures C.Admits(OutText(q, env), ad, env.num) <==> MeaningOr(False, q, ad, env.num) == True
    ensures Meaning(q, ad, env.num) == True ==> C.Admits(OutText(q, env), ad, env.num)
  {
    hide C.Read, C.Eval, OutText, OutExpr, Meaning, MeaningOr, GoodEnv, TypedAd, Legal, Ready;
    LegalReady(q, Positive, env);
    NotBroken(q);
    ReadOut(q, env);
    Agree(False, q, Positive, ad, env);
    MeaningUnknown(q, ad, env.num);
    NullOneSided(q, Positive, ad, env.num);
  }
}
