/** What the package promises its callers: a lowered predicate means what the SQL meant, a bound
    template is the inlined predicate, and a bound NULL drops the row where it may. */
module AnsiTheorems {
  import opened Text
  import X = AnsiLex
  import C = ClassAd
  import opened SqlPredicate
  import opened AnsiLower
  import opened AnsiGrammar
  import opened AnsiText
  import opened AnsiRead
  import opened AnsiMeaning
  import opened AnsiBound

  // ---------------------------------------------------------------------------------------
  // Filling placeholders keeps a predicate well-formed, accepted and legal.

  /** The numeral a bound number renders as is one the reader accepts. */
  predicate Readable(v: Any, env: Env) {
    match v
    case Signed(i) => env.num(FormatInt(i)).Some?
    case Unsigned(u) => env.num(FormatInt(u)).Some?
    case FloatVal(f) => f.Finite? ==> env.num(f.text).Some?
    case _ => true
  }

  predicate AllReadable(vals: seq<Any>, env: Env) { forall v :: v in vals ==> Readable(v, env) }

  lemma {:induction false} BoundReadable(vals: seq<Any>, env: Env)
    requires ReadsBound(vals, env.num)
    ensures AllReadable(vals, env)
  {
    hide FormatInt, ReadsDecimals;
    forall v | v in vals ensures Readable(v, env) {
      if v.Signed? { IntBack(v.i, env.num); }
      if v.Unsigned? { IntBack(v.u, env.num); }
    }
  }

  lemma {:induction false} FillOperandLegal(col: string, op: string, x: Operand, pol: Polarity, n: nat, vals: seq<Any>,
                                            env: Env)
    requires env.cols(col).Some? && GoodOperand(x) && IsCompareOp(op) && n + OperandHoles(x) <= |vals|
    requires AllReadable(vals, env) && WellTyped(vals[n..n + OperandHoles(x)], OperandParams(col, x, env))
    ensures var y := FillOperand(x, OperandsOf(vals)[n..n + OperandHoles(x)]);
            && (AcceptOperand(col, env.cols(col).value, op, x, pol, env) ==> LegalOperand(col, op, y, pol, env))
            && (!y.Null? ==> GoodOperand(y) && !y.Hole?)
            && (!y.Null? ==> (AcceptOperand(col, env.cols(col).value, op, x, pol, env)
                              <==> AcceptOperand(col, env.cols(col).value, op, y, pol, env)))
            && (y.Null? <==> x.Hole? && vals[n].Nil?)
  {
    hide Fold, ClassAdString, FormatInt, HasAny;
    if x.Hole? {
      var v := vals[n];
      assert vals[n..n + 1][0] == v && v in vals;
      assert OperandsOf(vals)[n..n + 1][0] == OperandOf(v);
      FoldTrueFalse();
      assert FitsParam(v, ParamInfo(col, KindOf(col, env)));
    }
  }

  /** What filling gives, part by part: P is a property of the node and of its filled form. */
  ghost predicate FillsWell(p: Pred, level: nat, pol: Polarity, n: nat, vals: seq<Any>, env: Env)
    requires n + Holes(p) <= |vals|
  {
    var q := Fill(p, OperandsOf(vals)[n..n + Holes(p)]);
    && (Accept(p, pol, env) ==> Legal(q, pol, env))
    && ((forall i :: n <= i < n + Holes(p) ==> !vals[i].Nil?) ==>
        && WellFormed(q, level) && Holes(q) == 0 && NullsPositive(q, pol)
        && (Accept(q, pol, env) <==> Accept(p, pol, env)))
  }

  lemma {:induction false} FillItemsLegal(col: string, items: seq<Operand>, pol: Polarity, n: nat, vals: seq<Any>,
                                          env: Env)
    requires env.cols(col).Some? && n + ItemHoles(items) <= |vals| && AllReadable(vals, env)
    requires forall x :: x in items ==> GoodOperand(x)
    requires WellTyped(vals[n..n + ItemHoles(items)], ItemParams(col, items, env))
    ensures var h := ItemHoles(items);
            var ys := FillItems(items, OperandsOf(vals)[n..n + h]);
            && (AcceptItems(col, env.cols(col).value, items, pol, env) ==> forall y :: y in ys ==>
                LegalOperand(col, "=", y, pol, env))
            && ((forall i :: n <= i < n + h ==> !vals[i].Nil?) ==>
                (forall y :: y in ys ==> GoodOperand(y) && !y.Hole? && !y.Null?) && ItemHoles(ys) == 0 &&
                (AcceptItems(col, env.cols(col).value, items, pol, env) <==>
                 AcceptItems(col, env.cols(col).value, ys, pol, env)))
    decreases |items|
  {
    hide LegalOperand, AcceptOperand, GoodOperand, Fold, WellTyped, FillOperand, AllReadable, OperandParams, FillItems,
         AcceptItems, OperandsOf;
    if items == [] {
      NoItemsFilled(OperandsOf(vals)[n..n]);
    } else {
      var x, more := items[0], items[1..];
      assert x in items;
      var a, b := OperandHoles(x), ItemHoles(more);
      var xs := OperandsOf(vals);
      SplitTyped(vals, n, a, b, OperandParams(col, x, env), ItemParams(col, more, env));
      SplitSlice(xs, n, a, b);
      FillOperandLegal(col, "=", x, pol, n, vals, env);
      FillItemsLegal(col, more, pol, n + a, vals, env);
      AcceptItemsCons(col, env.cols(col).value, items, pol, env);
      var y, rest := FillOperand(x, xs[n..n + a]), FillItems(more, xs[n + a..n + a + b]);
      var ys := FillItems(items, xs[n..n + a + b]);
      ItemsFilled(items, xs[n..n + a + b]);
      assert ys == [y] + rest && ys[1..] == rest;
      AcceptItemsCons(col, env.cols(col).value, ys, pol, env);
      if forall i :: n <= i < n + a + b ==> !vals[i].Nil? {
        assert !y.Null?;
        assert OperandHoles(y) == 0;
      }
    }
  }

  lemma {:induction false} NoItemsFilled(xs: seq<Operand>)
    requires xs == []
    ensures FillItems([], xs) == []
  {
  }

  lemma {:induction false} ItemsFilled(items: seq<Operand>, xs: seq<Operand>)
    requires items != [] && |xs| == ItemHoles(items)
    ensures var a := OperandHoles(items[0]);
            FillItems(items, xs) == [FillOperand(items[0], xs[..a])] + FillItems(items[1..], xs[a..])
  {
    hide FillOperand;
  }

  /** The node around the filled items. */
  lemma {:induction false} InFills(p: Pred, ys: seq<Operand>, level: nat, pol: Polarity, env: Env)
    requires p.In? && WellFormed(p, level) && env.cols(p.col).Some? && |ys| == |p.items|
    requires AcceptItems(p.col, env.cols(p.col).value, p.items, pol, env) ==> forall y :: y in ys ==>
             LegalOperand(p.col, "=", y, pol, env)
    ensures Accept(p, pol, env) ==> Legal(In(p.col, p.kw, ys), pol, env)
    ensures (forall y :: y in ys ==> GoodOperand(y) && !y.Hole? && !y.Null?) && ItemHoles(ys) == 0 ==>
              WellFormed(In(p.col, p.kw, ys), level) && Holes(In(p.col, p.kw, ys)) == 0 &&
                  NullsPositive(In(p.col, p.kw, ys), pol)
    ensures (AcceptItems(p.col, env.cols(p.col).value, p.items, pol, env) <==>
             AcceptItems(p.col, env.cols(p.col).value, ys, pol, env)) ==>
              (Accept(In(p.col, p.kw, ys), pol, env) <==> Accept(p, pol, env))
  {
    hide LegalOperand, GoodOperand, Fold, AcceptItems;
  }

  lemma {:induction false} FillIn(p: Pred, level: nat, pol: Polarity, n: nat, vals: seq<Any>, env: Env)
    requires p.In? && WellFormed(p, level) && n + Holes(p) <= |vals| && AllReadable(vals, env) && env.cols(p.col).Some?
    requires WellTyped(vals[n..n + Holes(p)], Params(p, env))
    ensures FillsWell(p, level, pol, n, vals, env)
  {
    hide LegalOperand, GoodOperand, Fold, WellTyped, FillItems, AllReadable, AcceptItems, OperandsOf, NullsPositive,
         Accept, Legal;
    GoodItems(p, level);
    FillItemsLegal(p.col, p.items, pol, n, vals, env);
    var xs := OperandsOf(vals)[n..n + ItemHoles(p.items)];
    FillItemsLength(p.items, xs);
    InFills(p, FillItems(p.items, xs), level, pol, env);
  }

  lemma {:induction false} GoodItems(p: Pred, level: nat)
    requires p.In? && WellFormed(p, level)
    ensures p.items != [] && forall x :: x in p.items ==> GoodOperand(x)
  {
  }

  lemma {:induction false} FillItemsLength(items: seq<Operand>, xs: seq<Operand>)
    requires |xs| == ItemHoles(items)
    ensures |FillItems(items, xs)| == |items|
    decreases |items|
  {
    hide FillOperand;
    if items != [] {
      FillItemsLength(items[1..], xs[OperandHoles(items[0])..]);
    }
  }

  /** The node around the filled bounds. */
  lemma {:induction false} BetweenFills(p: Pred, lo: Operand, hi: Operand, level: nat, pol: Polarity, env: Env)
    requires p.Between? && WellFormed(p, level) && env.cols(p.col).Some?
    requires var kind := env.cols(p.col).value;
             && (AcceptOperand(p.col, kind, ">=", p.lo, Positive, env) ==> LegalOperand(p.col, ">=", lo, Positive, env))
             && (AcceptOperand(p.col, kind, "<=", p.hi, Positive, env) ==> LegalOperand(p.col, "<=", hi, Positive, env))
    ensures var q := Between(p.col, p.kw, lo, p.andKw, hi);
            && (Accept(p, pol, env) ==> Legal(q, pol, env))
            && (GoodOperand(lo) && GoodOperand(hi) && !lo.Hole? && !hi.Hole? && !lo.Null? && !hi.Null? ==>
                WellFormed(q, level) && Holes(q) == 0 && NullsPositive(q, pol))
    ensures var kind, q := env.cols(p.col).value, Between(p.col, p.kw, lo, p.andKw, hi);
            && (AcceptOperand(p.col, kind, ">=", p.lo, Positive, env) <==>
                AcceptOperand(p.col, kind, ">=", lo, Positive, env))
            && (AcceptOperand(p.col, kind, "<=", p.hi, Positive, env) <==>
                AcceptOperand(p.col, kind, "<=", hi, Positive, env))
            ==> (Accept(q, pol, env) <==> Accept(p, pol, env))
  {
    hide LegalOperand, AcceptOperand, GoodOperand, Fold;
  }

  lemma {:induction false} FillBetween(p: Pred, level: nat, pol: Polarity, n: nat, vals: seq<Any>, env: Env)
    requires p.Between? && WellFormed(p, level) && n + Holes(p) <= |vals| && AllReadable(vals, env) &&
             env.cols(p.col).Some?
    requires WellTyped(vals[n..n + Holes(p)], Params(p, env))
    ensures FillsWell(p, level, pol, n, vals, env)
  {
    hide LegalOperand, AcceptOperand, GoodOperand, Fold, WellTyped, FillOperand, AllReadable, OperandParams, OperandsOf,
         NullsPositive, Accept, Legal, WellFormed, Fill;
    var a, b := OperandHoles(p.lo), OperandHoles(p.hi);
    var xs := OperandsOf(vals);
    GoodBounds(p, level);
    SplitTyped(vals, n, a, b, OperandParams(p.col, p.lo, env), OperandParams(p.col, p.hi, env));
    SplitSlice(xs, n, a, b);
    FillOperandLegal(p.col, ">=", p.lo, Positive, n, vals, env);
    FillOperandLegal(p.col, "<=", p.hi, Positive, n + a, vals, env);
    BetweenFilled(p, xs[n..n + a + b]);
    BetweenFills(p, FillOperand(p.lo, xs[n..n + a]), FillOperand(p.hi, xs[n + a..n + a + b]), level, pol, env);
  }

  lemma {:induction false} BetweenFilled(p: Pred, xs: seq<Operand>)
    requires p.Between? && |xs| == Holes(p)
    ensures var a := OperandHoles(p.lo);
            Fill(p, xs) == Between(p.col, p.kw, FillOperand(p.lo, xs[..a]), p.andKw, FillOperand(p.hi, xs[a..]))
  {
    hide FillOperand;
  }

  lemma {:induction false} GoodBounds(p: Pred, level: nat)
    requires p.Between? && WellFormed(p, level)
    ensures GoodOperand(p.lo) && GoodOperand(p.hi)
  {
  }

  lemma {:induction false} FillCmp(p: Pred, level: nat, pol: Polarity, n: nat, vals: seq<Any>, env: Env)
    requires p.Cmp? && WellFormed(p, level) && n + Holes(p) <= |vals| && AllReadable(vals, env) && env.cols(p.col).Some?
    requires WellTyped(vals[n..n + Holes(p)], Params(p, env))
    ensures FillsWell(p, level, pol, n, vals, env)
  {
    hide LegalOperand, AcceptOperand, GoodOperand, Fold, WellTyped, FillOperand, AllReadable, OperandParams;
    FillOperandLegal(p.col, p.op, p.x, pol, n, vals, env);
  }

  lemma {:induction false} FillBinary(p: Pred, level: nat, ll: nat, lr: nat, pol: Polarity, n: nat, vals: seq<Any>,
                                      env: Env)
    requires ((p.Or? && ll == 0 && lr == 1) || (p.And? && ll == 1 && lr == 2)) && WellFormed(p, level) &&
             n + Holes(p) <= |vals|
    requires FillsWell(p.l, ll, pol, n, vals, env) && FillsWell(p.r, lr, pol, n + Holes(p.l), vals, env)
    ensures FillsWell(p, level, pol, n, vals, env)
  {
    hide Fold, LegalOperand, AcceptOperand, OperandsOf, FillOperand, GoodOperand;
    SplitSlice(OperandsOf(vals), n, Holes(p.l), Holes(p.r));
  }

  lemma {:induction false} FillWrapped(p: Pred, level: nat, pol: Polarity, n: nat, vals: seq<Any>, env: Env)
    requires (p.Not? || p.Paren?) && WellFormed(p, level) && n + Holes(p) <= |vals|
    requires if p.Not? then FillsWell(p.p, 2, Flip(pol), n, vals, env) else FillsWell(p.p, 0, pol, n, vals, env)
    ensures FillsWell(p, level, pol, n, vals, env)
  {
    hide Fold, LegalOperand, AcceptOperand, OperandsOf, FillOperand, GoodOperand;
  }

  lemma {:induction false} FillIsNull(p: Pred, level: nat, pol: Polarity, n: nat, vals: seq<Any>, env: Env)
    requires p.IsNull? && WellFormed(p, level) && n <= |vals|
    ensures FillsWell(p, level, pol, n, vals, env)
  {
    hide Fold;
  }

  lemma {:induction false} FillGood(p: Pred, level: nat, pol: Polarity, n: nat, vals: seq<Any>, env: Env)
    requires WellFormed(p, level) && n + Holes(p) <= |vals| && AllReadable(vals, env)
    requires WellTyped(vals[n..n + Holes(p)], Params(p, env))
    ensures FillsWell(p, level, pol, n, vals, env)
    decreases p
  {
    hide LegalOperand, AcceptOperand, GoodOperand, Fold, WellTyped, AllReadable, AcceptItems, OperandsOf, FillOperand,
         LegalItems, FillItems, OperandParams, FillsWell, Fill;
    match p {
      case Or(l, _, r) =>
        SplitTyped(vals, n, Holes(l), Holes(r), Params(l, env), Params(r, env));
        FillGood(l, 0, pol, n, vals, env);
        FillGood(r, 1, pol, n + Holes(l), vals, env);
        FillBinary(p, level, 0, 1, pol, n, vals, env);
      case And(l, _, r) =>
        SplitTyped(vals, n, Holes(l), Holes(r), Params(l, env), Params(r, env));
        FillGood(l, 1, pol, n, vals, env);
        FillGood(r, 2, pol, n + Holes(l), vals, env);
        FillBinary(p, level, 1, 2, pol, n, vals, env);
      case Not(_, q) =>
        FillGood(q, 2, Flip(pol), n, vals, env);
        FillWrapped(p, level, pol, n, vals, env);
      case Paren(q) =>
        FillGood(q, 0, pol, n, vals, env);
        FillWrapped(p, level, pol, n, vals, env);
      case Cmp(col, _, _) =>
        if env.cols(col).Some? { FillCmp(p, level, pol, n, vals, env); } else {
          FillShape(p, level, pol, n, vals, env);
        }
      case In(col, _, _) =>
        if env.cols(col).Some? { FillIn(p, level, pol, n, vals, env); } else { FillShape(p, level, pol, n, vals, env); }
      case Between(col, _, _, _, _) =>
        if env.cols(col).Some? { FillBetween(p, level, pol, n, vals, env); } else {
          FillShape(p, level, pol, n, vals, env);
        }
      case IsNull(_, _, _, _) => FillIsNull(p, level, pol, n, vals, env);
    }
  }

  /** The operands non-NULL fitting values stand for. */
  ghost predicate GoodValues(xs: seq<Operand>) {
    forall i :: 0 <= i < |xs| ==> GoodOperand(xs[i]) && !xs[i].Hole? && !xs[i].Null?
  }

  lemma {:induction false} GoodFill(vals: seq<Any>, n: nat, ps: seq<ParamInfo>)
    requires n + |ps| <= |vals| && WellTyped(vals[n..n + |ps|], ps)
    requires forall i :: n <= i < n + |ps| ==> !vals[i].Nil?
    ensures GoodValues(OperandsOf(vals)[n..n + |ps|])
  {
    hide GoodOperand, OperandOf, FitsParam;
    var xs := OperandsOf(vals)[n..n + |ps|];
    forall i | 0 <= i < |ps| ensures GoodOperand(xs[i]) && !xs[i].Hole? && !xs[i].Null? {
      assert FitsParam(vals[n..n + |ps|][i], ps[i]);
      GoodBound(vals[n + i], ps[i]);
      assert xs[i] == OperandOf(vals[n + i]);
    }
  }

  lemma {:induction false} FillAtomShape(p: Pred, xs: seq<Operand>, level: nat, pol: Polarity)
    requires (p.Cmp? || p.In? || p.Between?) && WellFormed(p, level) && |xs| == Holes(p) && GoodValues(xs)
    ensures var q := Fill(p, xs); WellFormed(q, level) && Holes(q) == 0 && NullsPositive(q, pol)
  {
    hide Fold, GoodOperand;
    match p {
      case Cmp(_, _, x) => GoodKinds(x);
      case In(_, _, items) => FillItemsShape(items, xs);
      case Between(_, _, lo, _, hi) => GoodKinds(lo); GoodKinds(hi);
    }
  }

  /** An atom on an unknown column is refused filled or not; its shape still fills. */
  lemma {:induction false} FillShape(p: Pred, level: nat, pol: Polarity, n: nat, vals: seq<Any>, env: Env)
    requires (p.Cmp? || p.In? || p.Between?) && WellFormed(p, level) && n + Holes(p) <= |vals|
    requires env.cols(p.col).None? && WellTyped(vals[n..n + Holes(p)], Params(p, env))
    ensures FillsWell(p, level, pol, n, vals, env)
  {
    hide Fold, AcceptOperand, AcceptItems, WellFormed, WellTyped, NullsPositive, GoodOperand, GoodValues, OperandsOf,
         Params;
    if forall i :: n <= i < n + Holes(p) ==> !vals[i].Nil? {
      GoodFill(vals, n, Params(p, env));
      FillAtomShape(p, OperandsOf(vals)[n..n + Holes(p)], level, pol);
    }
  }

  lemma {:induction false} GoodBound(v: Any, p: ParamInfo)
    requires FitsParam(v, p) && !v.Nil?
    ensures GoodOperand(OperandOf(v)) && !OperandOf(v).Hole? && !OperandOf(v).Null?
  {
    hide Fold, FormatInt, ClassAdString;
    FoldTrueFalse();
  }

  lemma {:induction false} FillItemsShape(items: seq<Operand>, xs: seq<Operand>)
    requires |xs| == ItemHoles(items) && forall x :: x in items ==> GoodOperand(x)
    requires forall i :: 0 <= i < |xs| ==> GoodOperand(xs[i]) && !xs[i].Hole? && !xs[i].Null?
    ensures forall y :: y in FillItems(items, xs) ==> GoodOperand(y) && !y.Hole? && !y.Null?
    ensures ItemHoles(FillItems(items, xs)) == 0
    decreases |items|
  {
    hide GoodOperand;
    if items != [] {
      assert items[0] in items;
      var h := OperandHoles(items[0]);
      GoodKinds(items[0]);
      FillItemsShape(items[1..], xs[h..]);
      assert FillItems(items, xs)[1..] == FillItems(items[1..], xs[h..]);
    }
  }

  lemma {:induction false} GoodKinds(x: Operand)
    requires GoodOperand(x)
    ensures !x.Null?
  {
  }

  lemma {:induction false} FillColumns(p: Pred, xs: seq<Operand>)
    requires |xs| == Holes(p)
    ensures Columns(Fill(p, xs)) == Columns(p)
    decreases p
  {
    match p {
      case Or(l, _, r) => FillColumns(l, xs[..Holes(l)]); FillColumns(r, xs[Holes(l)..]);
      case And(l, _, r) => FillColumns(l, xs[..Holes(l)]); FillColumns(r, xs[Holes(l)..]);
      case Not(_, q) => FillColumns(q, xs);
      case Paren(q) => FillColumns(q, xs);
      case _ =>
    }
  }

  // ---------------------------------------------------------------------------------------
  // The theorems.

  /** Binding succeeds exactly when there is one fitting value per placeholder, and gives the text
      of the filled-in predicate. */
  lemma {:induction false} BindText(p: Pred, vals: seq<Any>, env: Env)
    requires WellFormed(p, 0) && Accept(p, Positive, env)
    ensures Bind(Template(Lowered(p, Positive, 0, env), Params(p, env)), vals) ==
            if WellTyped(vals, Params(p, env)) then Ok(OutText(Fill(p, OperandsOf(vals)), env)) else Err
  {
    hide BindFrags, Lowered, OutText, Fill, WellFormed, Accept, Fold;
    if |vals| == Holes(p) {
      BindLowered(p, 0, Positive, 0, vals, env);
      assert vals[0..Holes(p)] == vals;
      assert OperandsOf(vals)[0..Holes(p)] == OperandsOf(vals);
    }
  }

  /** A template accepts a binding at bind time exactly when there is one value per placeholder and each may be
      compared with its column; prepare-time acceptance already gave every other refusal. */
  lemma {:induction false} BindAccepts(ts: seq<Token>, vals: seq<Any>, env: Env)
    requires LowerTemplate(ts, env).Ok?
    ensures var ps := LowerTemplate(ts, env).value.params;
            Bind(LowerTemplate(ts, env).value, vals).Ok? <==>
            |vals| == |ps| && forall i :: 0 <= i < |vals| ==> Bindable(vals[i], ps[i].kind)
  {
    hide LowerTemplate, Bind, WellTyped, Bindable;
    var p := TemplateFrom(ts, env);
    BindText(p, vals, env);
    TypedBindable(vals, LowerTemplate(ts, env).value.params);
  }

  /** Binding non-NULL values is lowering the predicate with literals of those values written in: the same
      text, and the same acceptance. */
  lemma {:induction false} BindIsInline(p: Pred, vals: seq<Any>, env: Env)
    requires WellFormed(p, 0) && WellTyped(vals, Params(p, env)) && AllReadable(vals, env) && Nil !in vals
    ensures |vals| == Holes(p)
    ensures ReadsBound(vals, env.num) ==> StandFor(OperandsOf(vals), SqlsOf(vals), env.num)
    ensures var inline := Lower(Tokens(Fill(p, OperandsOf(vals))), env);
            && (LowerTemplate(Tokens(p), env).Ok? <==> inline.Ok?)
            && (inline.Ok? ==> Bind(LowerTemplate(Tokens(p), env).value, vals) == inline)
  {
    hide BindFrags, Lowered, OutText, WellFormed, Accept, Fold, WellTyped, AllReadable, OperandsOf, LowerTemplate,
         Legal, NullsPositive;
    if ReadsBound(vals, env.num) { WrittenIn(vals, env.num); }
    TypedLength(vals, p, env);
    var q := Fill(p, OperandsOf(vals));
    assert OperandsOf(vals)[0..Holes(p)] == OperandsOf(vals) && vals[0..Holes(p)] == vals;
    FillGood(p, 0, Positive, 0, vals, env);
    forall i | 0 <= i < Holes(p) ensures !vals[i].Nil? { assert vals[i] in vals; }
    TemplateOf(p, env);
    TemplateOf(q, env);
    if Accept(p, Positive, env) {
      BindText(p, vals, env);
      BindText(q, [], env);
      NoneTyped([], Params(q, env));
      FillNone(q);
    }
  }

  lemma {:induction false} TypedLength(vals: seq<Any>, p: Pred, env: Env)
    requires WellTyped(vals, Params(p, env))
    ensures |vals| == Holes(p)
  {
  }

  lemma {:induction false} FillNone(q: Pred)
    requires Holes(q) == 0
    ensures Fill(q, []) == q
    decreases q
  {
    match q {
      case Or(l, _, r) => FillNone(l); FillNone(r);
      case And(l, _, r) => FillNone(l); FillNone(r);
      case Not(_, p) => FillNone(p);
      case Paren(p) => FillNone(p);
      case In(_, _, items) => FillNoItems(items);
      case _ =>
    }
  }

  lemma {:induction false} FillNoItems(items: seq<Operand>)
    requires ItemHoles(items) == 0
    ensures FillItems(items, []) == items
    decreases |items|
  {
    if items != [] {
      var none: seq<Operand> := [];
      assert none[..0] == none && none[0..] == none;
      FillNoItems(items[1..]);
      assert FillItems(items, none) == [FillOperand(items[0], none)] + FillItems(items[1..], none);
      Uncons(items);
    }
  }

  /** Lower: over any typed row the constraint text is true exactly where the SQL predicate is, unless the
      predicate names a column spelled like a word ClassAd keeps. The token sequence is the spelling of the
      predicate p the grammar gives it. */
  lemma {:induction false} LowerKeepsMeaning(ts: seq<Token>, ad: string -> C.Value, env: Env) returns (p: Pred)
    requires GoodEnv(env) && TypedAd(ad, env) && Lower(ts, env).Ok?
    ensures WellFormed(p, 0) && Tokens(p) == ts && Holes(p) == 0
    ensures Unreserved(p) ==> (C.Admits(Lower(ts, env).value, ad, env.num) <==> Meaning(p, ad, env.num) == True)
  {
    p := TemplateFrom(ts, env);
    BindText(p, [], env);
    NoneTyped([], Params(p, env));
    FillNone(p);
    FillGoodNone(p, env);
    if Unreserved(p) { AdmitsLegal(p, ad, env); }
  }

  lemma {:induction false} FillGoodNone(p: Pred, env: Env)
    requires WellFormed(p, 0) && Holes(p) == 0 && Accept(p, Positive, env)
    ensures Legal(p, Positive, env) && NullsPositive(p, Positive)
  {
    hide Fold, Accept, Legal, WellFormed;
    var none: seq<Any> := [];
    NoneTyped(none[0..0], Params(p, env));
    FillGood(p, 0, Positive, 0, none, env);
    FillNone(p);
    assert OperandsOf(none)[0..0] == [];
  }

  /** Lower accepts a placeholder-free predicate exactly when the refusal rules admit it. */
  lemma {:induction false} LowerAccepts(p: Pred, env: Env)
    requires WellFormed(p, 0)
    ensures Lower(Tokens(p), env).Ok? <==> Accept(p, Positive, env) && Holes(p) == 0
  {
    TemplateOf(p, env);
    if Accept(p, Positive, env) && Holes(p) == 0 {
      BindText(p, [], env);
      NoneTyped([], Params(p, env));
    }
  }

  lemma {:induction false} WrittenNoNull(p: Pred, level: nat)
    requires WellFormed(p, level)
    ensures NoNull(p)
    decreases p
  {
    hide Fold;
    match p {
      case Or(l, _, r) => WrittenNoNull(l, 0); WrittenNoNull(r, 1);
      case And(l, _, r) => WrittenNoNull(l, 1); WrittenNoNull(r, 2);
      case Not(_, q) => WrittenNoNull(q, 2);
      case Paren(q) => WrittenNoNull(q, 0);
      case _ =>
    }
  }

  /** A bound template, NULLs included: it admits exactly the rows where the predicate over the values bound is
      true, provided no NULL was bound under an odd number of NOTs. */
  lemma {:induction false} BindKeepsMeaning(p: Pred, vals: seq<Any>, ad: string -> C.Value, env: Env)
    requires GoodEnv(env) && TypedAd(ad, env) && WellFormed(p, 0) && ReadsBound(vals, env.num) && Unreserved(p)
    requires LowerTemplate(Tokens(p), env).Ok? && Bind(LowerTemplate(Tokens(p), env).value, vals).Ok?
    requires |vals| == Holes(p) ==> NullsUp(p, Positive, SqlsOf(vals))
    ensures |vals| == Holes(p)
    ensures C.Admits(Bind(LowerTemplate(Tokens(p), env).value, vals).value, ad, env.num)
            <==> MeaningWith(Unknown, p, SqlsOf(vals), ad, env.num) == True
  {
    hide BindFrags, Lowered, OutText, WellFormed, Accept, Fold, AllReadable, OperandsOf, LowerTemplate, Legal,
         NullsPositive, GoodEnv, TypedAd, ReadsBound, StandFor, MeaningWith, MeaningOr, Meaning, NullsUp, SqlsOf;
    BoundReadable(vals, env);
    TemplateOf(p, env);
    BindText(p, vals, env);
    assert OperandsOf(vals)[0..Holes(p)] == OperandsOf(vals) && vals[0..Holes(p)] == vals;
    FillGood(p, 0, Positive, 0, vals, env);
    FillColumns(p, OperandsOf(vals));
    WrittenIn(vals, env.num);
    WrittenNoNull(p, 0);
    NullsFilled(p, Positive, OperandsOf(vals), SqlsOf(vals), env.num);
    AdmitsLegal(Fill(p, OperandsOf(vals)), ad, env);
    MeaningUnknown(Fill(p, OperandsOf(vals)), ad, env.num);
    MeaningFilled(Unknown, p, OperandsOf(vals), SqlsOf(vals), ad, env.num);
  }

  // ---------------------------------------------------------------------------------------
  // The negated NULL: where the collapse to `false` is not what SQL says, and exactly when.

  /** n NOTs around an atom. */
  function Nots(n: nat, p: Pred): Pred {
    if n == 0 then p else Not("NOT", Nots(n - 1, p))
  }

  lemma {:induction false} NotsValue(nul: Truth, n: nat, p: Pred, ad: string -> C.Value, num: string -> Option<real>)
    ensures var inner := MeaningOr(nul, p, ad, num);
            MeaningOr(nul, Nots(n, p), ad, num) == if n % 2 == 0 then inner else Not3(inner)
    decreases n
  {
    if n > 0 {
      NotsValue(nul, n - 1, p, ad, num);
    }
  }

  lemma {:induction false} NotsColumns(n: nat, p: Pred)
    ensures Columns(Nots(n, p)) == Columns(p)
    decreases n
  {
    if n > 0 { NotsColumns(n - 1, p); }
  }

  /** A bound NULL in the atom itself. */
  predicate HasNull(q: Pred) {
    (q.Cmp? && q.x.Null?) || (q.In? && Null in q.items) || (q.Between? && (q.lo.Null? || q.hi.Null?))
  }

  /** The row settles the atom without the NULL: its column is undefined or equal to a listed value, or
      outside the bound that is given. */
  ghost predicate Settled(q: Pred, ad: string -> C.Value, num: string -> Option<real>)
    requires q.Cmp? || q.In? || q.Between?
  {
    var v := ColumnValue(ad(q.col));
    match q
    case Cmp(_, _, _) => false
    case In(_, _, items) => SettledIn(v, items, num)
    case Between(_, _, lo, _, hi) =>
      CompareOr(Unknown, ">=", v, lo, num) == False || CompareOr(Unknown, "<=", v, hi, num) == False
  }

  predicate SettledIn(v: SqlValue, items: seq<Operand>, num: string -> Option<real>) {
    exists k :: 0 <= k < |items| && !items[k].Null? && Compare("=", v, OperandValue(items[k], num)) != False
  }

  lemma {:induction false} InWithNull(v: SqlValue, items: seq<Operand>, num: string -> Option<real>)
    ensures Null in items ==> MeaningInOr(Unknown, v, items, num) != False
    ensures MeaningInOr(False, v, items, num) == False <==> !SettledIn(v, items, num)
    ensures MeaningInOr(False, v, items, num) == True <==> MeaningInOr(Unknown, v, items, num) == True
    decreases |items|
  {
    hide Compare;
    if items != [] {
      InWithNull(v, items[1..], num);
      assert forall k :: 0 <= k < |items[1..]| ==> items[1..][k] == items[k + 1];
      if SettledIn(v, items[1..], num) {
        var k :| 0 <= k < |items[1..]| && !items[1..][k].Null? &&
            Compare("=", v, OperandValue(items[1..][k], num)) != False;
        assert items[k + 1] == items[1..][k];
      }
      if SettledIn(v, items, num) {
        var k :| 0 <= k < |items| && !items[k].Null? && Compare("=", v, OperandValue(items[k], num)) != False;
        assert k > 0 ==> items[1..][k - 1] == items[k];
      }
    }
  }

  /** A comparison, IN or BETWEEN with a bound NULL in it, under n NOTs: the text agrees with SQL on a row
      exactly when n is even or the row settles the atom without the NULL. Where it does not agree it
      admits a row SQL drops. */
  lemma {:induction false} NegatedNull(n: nat, q: Pred, ad: string -> C.Value, env: Env)
    requires GoodEnv(env) && TypedAd(ad, env) && Legal(Nots(n, q), Positive, env) && HasNull(q) && Unreserved(q)
    ensures (C.Admits(OutText(Nots(n, q), env), ad, env.num) <==> Meaning(Nots(n, q), ad, env.num) == True)
            <==> n % 2 == 0 || Settled(q, ad, env.num)
    ensures Meaning(Nots(n, q), ad, env.num) == True ==> C.Admits(OutText(Nots(n, q), env), ad, env.num)
  {
    hide Fold, OutText, C.Admits, Legal, Meaning, Compare, GoodEnv, TypedAd;
    NotsColumns(n, q);
    AdmitsCollapsed(Nots(n, q), ad, env);
    MeaningUnknown(Nots(n, q), ad, env.num);
    NotsValue(False, n, q, ad, env.num);
    NotsValue(Unknown, n, q, ad, env.num);
    if q.In? { InWithNull(ColumnValue(ad(q.col)), q.items, env.num); }
  }

  /** A bound template with NULLs anywhere: it admits every row SQL admits over the values bound, and exactly
      the rows where its NULL comparisons, read as false, make it true. */
  lemma {:induction false} BindAdmitsAll(p: Pred, vals: seq<Any>, ad: string -> C.Value, env: Env)
    requires GoodEnv(env) && TypedAd(ad, env) && WellFormed(p, 0) && ReadsBound(vals, env.num) && Unreserved(p)
    requires LowerTemplate(Tokens(p), env).Ok? && Bind(LowerTemplate(Tokens(p), env).value, vals).Ok?
    ensures |vals| == Holes(p)
    ensures var admits := C.Admits(Bind(LowerTemplate(Tokens(p), env).value, vals).value, ad, env.num);
            && (admits <==> MeaningWith(False, p, SqlsOf(vals), ad, env.num) == True)
            && (MeaningWith(Unknown, p, SqlsOf(vals), ad, env.num) == True ==> admits)
  {
    hide BindFrags, Lowered, OutText, WellFormed, Accept, Fold, AllReadable, OperandsOf, LowerTemplate, Legal,
         NullsPositive, GoodEnv, TypedAd, Meaning, MeaningOr, C.Admits, ReadsBound, StandFor, MeaningWith, SqlsOf;
    BoundReadable(vals, env);
    TemplateOf(p, env);
    BindText(p, vals, env);
    assert OperandsOf(vals)[0..Holes(p)] == OperandsOf(vals) && vals[0..Holes(p)] == vals;
    FillGood(p, 0, Positive, 0, vals, env);
    FillColumns(p, OperandsOf(vals));
    WrittenIn(vals, env.num);
    AdmitsCollapsed(Fill(p, OperandsOf(vals)), ad, env);
    MeaningUnknown(Fill(p, OperandsOf(vals)), ad, env.num);
    MeaningFilled(False, p, OperandsOf(vals), SqlsOf(vals), ad, env.num);
    MeaningFilled(Unknown, p, OperandsOf(vals), SqlsOf(vals), ad, env.num);
  }

  lemma {:induction false} NilFits(p: ParamInfo)
    ensures WellTyped([Nil], [p])
  {
  }

  lemma {:induction false} FalseText(kw: string, col: string, op: string, env: Env)
    ensures OutText(Not(kw, Cmp(col, op, Null)), env) == "!(false)"
  {
    assert OutText(Cmp(col, op, Null), env) == "false";
  }

  lemma {:induction false} FoldNot()
    ensures Fold("NOT") == "not" && Fold("Cpus") != "not"
  {
    assert Fold("NOT") == "n" + Fold("OT") && Fold("OT") == "o" + Fold("T") && Fold("T") == "t" + Fold("");
    assert Fold("Cpus")[0] == 'c';
  }

  /** The concrete case: NOT Cpus = ? bound to NULL lowers to `!(false)`. */
  lemma {:induction false} NotEqualsNull(env: Env)
    requires env.cols("Cpus") == Some(KInt)
    ensures var t := LowerTemplate([Ident("NOT"), Ident("Cpus"), Op("="), Param], env);
            t.Ok? && Bind(t.value, [Nil]) == Ok("!(false)")
  {
    hide Fold, BindFrags, LowerTemplate, OutText, Lowered, WellTyped;
    var atom := Cmp("Cpus", "=", Hole);
    var p := Not("NOT", atom);
    assert Tokens(atom) == [Ident("Cpus"), Op("="), Param];
    assert Tokens(p) == [Ident("NOT"), Ident("Cpus"), Op("="), Param];
    FoldNot();
    assert WellFormed(atom, 2) && WellFormed(p, 0) && Accept(p, Positive, env);
    TemplateOf(p, env);
    BindText(p, [Nil], env);
    assert OperandsOf([Nil]) == [Null];
    assert Params(p, env) == [ParamInfo("Cpus", KInt)];
    NilFits(ParamInfo("Cpus", KInt));
    assert Fill(p, [Null]) == Not("NOT", Cmp("Cpus", "=", Null));
    FalseText("NOT", "Cpus", "=", env);
  }

  // ---------------------------------------------------------------------------------------
  // From the text the client sent.

  /** Any predicate text that is accepted lowers to an expression true of exactly the ads the predicate it
      spells is true of. */
  lemma {:induction false} TextKeepsMeaning(src: string, ad: string -> C.Value, env: Env) returns (p: Pred)
    requires GoodEnv(env) && TypedAd(ad, env) && Lower(X.LexAll(src, 0), env).Ok?
    ensures WellFormed(p, 0) && Tokens(p) == X.LexAll(src, 0) && Holes(p) == 0
    ensures Unreserved(p) ==>
              (C.Admits(Lower(X.LexAll(src, 0), env).value, ad, env.num) <==> Meaning(p, ad, env.num) == True)
  {
    p := LowerKeepsMeaning(X.LexAll(src, 0), ad, env);
  }

  /** And every predicate whose tokens can be spelled has such a text. */
  lemma {:induction false} TextReaches(p: Pred, env: Env)
    requires WellFormed(p, 0) && forall t :: t in Tokens(p) ==> X.Spellable(t)
    ensures Lower(X.LexAll(X.SpellAll(Tokens(p)), 0), env).Ok? <==> Accept(p, Positive, env) && Holes(p) == 0
  {
    hide Accept, Lower, WellFormed, Tokens;
    X.LexRoundTrip(Tokens(p));
    LowerAccepts(p, env);
  }
}
