/** What a bound value means: the SQL value a client bound, whatever text it is rendered as. */
module AnsiBound {
  import opened Text
  import C = ClassAd
  import opened SqlPredicate
  import opened AnsiLower
  import opened AnsiText
  import opened AnsiMeaning

  /** The SQL value of a bound value; one that cannot be bound has none. */
  function SqlOf(v: Any): SqlValue {
    match v
    case Signed(i) => VNum(i as real)
    case Unsigned(u) => VNum(u as real)
    case FloatVal(Finite(r, _)) => VNum(r)
    case StringVal(s) => VStr(s)
    case BoolVal(b) => VBool(b)
    case _ => VNull
  }

  function SqlsOf(vals: seq<Any>): (xs: seq<SqlValue>)
    ensures |xs| == |vals|
  {
    seq(|vals|, i requires 0 <= i < |vals| => SqlOf(vals[i]))
  }

  /** The reader reads whole numbers in base ten, with a sign or without. */
  ghost predicate ReadsDecimals(num: string -> Option<real>) {
    forall s :: IsDecimal(s) ==> num(s) == Some(Atoi(s) as real) && num("-" + s) == Some(-(Atoi(s) as real))
  }

  /** And every bound double from its shortest form. */
  ghost predicate ReadsBound(vals: seq<Any>, num: string -> Option<real>) {
    && ReadsDecimals(num)
    && forall v :: v in vals && v.FloatVal? && v.f.Finite? ==> num(v.f.text) == Some(v.f.r)
  }

  // ---------------------------------------------------------------------------------------
  // The predicate with its placeholders standing for the bound values.

  /** One comparison; nul is what a comparison with a NULL is worth. */
  function CompareWith(nul: Truth, op: string, v: SqlValue, x: Operand, xs: seq<SqlValue>,
                       num: string -> Option<real>): Truth
    requires |xs| == OperandHoles(x)
  {
    if x.Null? || (x.Hole? && xs[0] == VNull) then nul
    else Compare(op, v, if x.Hole? then xs[0] else OperandValue(x, num))
  }

  function ItemsWith(nul: Truth, v: SqlValue, items: seq<Operand>, xs: seq<SqlValue>,
                     num: string -> Option<real>): Truth
    requires |xs| == ItemHoles(items)
  {
    if items == [] then False
    else
      var h := OperandHoles(items[0]);
      Or3(CompareWith(nul, "=", v, items[0], xs[..h], num), ItemsWith(nul, v, items[1..], xs[h..], num))
  }

  /** The predicate's value on a row, its placeholders standing for xs in source order. */
  function MeaningWith(nul: Truth, p: Pred, xs: seq<SqlValue>, ad: string -> C.Value,
                       num: string -> Option<real>): Truth
    requires |xs| == Holes(p)
  {
    match p
    case Or(l, _, r) => Or3(MeaningWith(nul, l, xs[..Holes(l)], ad, num), MeaningWith(nul, r, xs[Holes(l)..], ad, num))
    case And(l, _, r) => And3(MeaningWith(nul, l, xs[..Holes(l)], ad, num),
                              MeaningWith(nul, r, xs[Holes(l)..], ad, num))
    case Not(_, q) => Not3(MeaningWith(nul, q, xs, ad, num))
    case Paren(q) => MeaningWith(nul, q, xs, ad, num)
    case Cmp(col, op, x) => CompareWith(nul, op, ColumnValue(ad(col)), x, xs, num)
    case In(col, _, items) => ItemsWith(nul, ColumnValue(ad(col)), items, xs, num)
    case Between(col, _, lo, _, hi) =>
      var v, h := ColumnValue(ad(col)), OperandHoles(lo);
      And3(CompareWith(nul, ">=", v, lo, xs[..h], num), CompareWith(nul, "<=", v, hi, xs[h..], num))
    case IsNull(_, _, _, _) => Meaning(p, ad, num)
  }

  /** No placeholder under an odd number of NOTs stands for NULL. */
  predicate NullsUp(p: Pred, pol: Polarity, xs: seq<SqlValue>)
    requires |xs| == Holes(p)
  {
    match p
    case Or(l, _, r) => NullsUp(l, pol, xs[..Holes(l)]) && NullsUp(r, pol, xs[Holes(l)..])
    case And(l, _, r) => NullsUp(l, pol, xs[..Holes(l)]) && NullsUp(r, pol, xs[Holes(l)..])
    case Not(_, q) => NullsUp(q, Flip(pol), xs)
    case Paren(q) => NullsUp(q, pol, xs)
    case IsNull(_, _, _, _) => true
    case _ => pol == Positive || VNull !in xs
  }

  // ---------------------------------------------------------------------------------------
  // The operands a binding writes in denote the values bound.

  lemma {:induction false} IntBack(i: int, num: string -> Option<real>)
    requires ReadsDecimals(num)
    ensures num(FormatInt(i)) == Some(i as real)
  {
    hide Itoa, Atoi, IsDecimal;
    var n: nat := if i < 0 then -i else i;
    AtoiItoa(n);
    ItoaDecimal(n);
  }

  /** ys are written for xs. */
  ghost predicate StandFor(ys: seq<Operand>, xs: seq<SqlValue>, num: string -> Option<real>) {
    |ys| == |xs| && forall i :: 0 <= i < |ys| ==> StandsFor(ys[i], xs[i], num)
  }

  predicate StandsFor(y: Operand, x: SqlValue, num: string -> Option<real>) {
    !y.Hole? && (y.Null? <==> x == VNull) && OperandValue(y, num) == x
  }

  /** The literal written in for a bound value has that value, read by any reader of decimals. */
  lemma {:induction false} WrittenIn(vals: seq<Any>, num: string -> Option<real>)
    requires ReadsBound(vals, num)
    ensures StandFor(OperandsOf(vals), SqlsOf(vals), num)
  {
    hide FormatInt, Fold, ReadsDecimals;
    FoldTrueFalse();
    forall k | 0 <= k < |vals| ensures StandsFor(OperandsOf(vals)[k], SqlsOf(vals)[k], num) {
      var v := vals[k];
      assert v in vals;
      if v.Signed? { IntBack(v.i, num); }
      if v.Unsigned? { IntBack(v.u, num); }
    }
  }

  lemma {:induction false} StandSlice(ys: seq<Operand>, xs: seq<SqlValue>, num: string -> Option<real>, h: nat)
    requires StandFor(ys, xs, num) && h <= |ys|
    ensures StandFor(ys[..h], xs[..h], num) && StandFor(ys[h..], xs[h..], num)
  {
    hide StandsFor;
  }

  lemma {:induction false} CompareFilled(nul: Truth, op: string, v: SqlValue, x: Operand, ys: seq<Operand>,
                                         xs: seq<SqlValue>, num: string -> Option<real>)
    requires |ys| == OperandHoles(x) && StandFor(ys, xs, num)
    ensures CompareOr(nul, op, v, FillOperand(x, ys), num) == CompareWith(nul, op, v, x, xs, num)
  {
    hide Compare, OperandValue;
    if x.Hole? { assert StandsFor(ys[0], xs[0], num); }
  }

  lemma {:induction false} ItemsFilledWith(nul: Truth, v: SqlValue, items: seq<Operand>, ys: seq<Operand>,
                                           xs: seq<SqlValue>, num: string -> Option<real>)
    requires |ys| == ItemHoles(items) && StandFor(ys, xs, num)
    ensures MeaningInOr(nul, v, FillItems(items, ys), num) == ItemsWith(nul, v, items, xs, num)
    decreases |items|
  {
    hide StandFor, CompareOr, CompareWith, FillOperand;
    assert |ys| == |xs| by { StandSlice(ys, xs, num, 0); StandLength(ys, xs, num); }
    if items != [] {
      var h := OperandHoles(items[0]);
      StandSlice(ys, xs, num, h);
      CompareFilled(nul, "=", v, items[0], ys[..h], xs[..h], num);
      ItemsFilledWith(nul, v, items[1..], ys[h..], xs[h..], num);
      var filled := FillItems(items, ys);
      assert filled[1..] == FillItems(items[1..], ys[h..]);
    }
  }

  lemma {:induction false} StandLength(ys: seq<Operand>, xs: seq<SqlValue>, num: string -> Option<real>)
    requires StandFor(ys, xs, num)
    ensures |ys| == |xs|
  {
  }

  /** Filling the placeholders with literals that denote xs means what the predicate means over xs. */
  lemma {:induction false} MeaningFilled(nul: Truth, p: Pred, ys: seq<Operand>, xs: seq<SqlValue>,
                                         ad: string -> C.Value, num: string -> Option<real>)
    requires |ys| == Holes(p) && |xs| == Holes(p) && StandFor(ys, xs, num)
    ensures MeaningOr(nul, Fill(p, ys), ad, num) == MeaningWith(nul, p, xs, ad, num)
    decreases p
  {
    hide StandFor, CompareOr, CompareWith, FillOperand, MeaningInOr, ItemsWith, FillItems;
    match p {
      case Or(l, _, r) =>
        StandSlice(ys, xs, num, Holes(l));
        MeaningFilled(nul, l, ys[..Holes(l)], xs[..Holes(l)], ad, num);
        MeaningFilled(nul, r, ys[Holes(l)..], xs[Holes(l)..], ad, num);
      case And(l, _, r) =>
        StandSlice(ys, xs, num, Holes(l));
        MeaningFilled(nul, l, ys[..Holes(l)], xs[..Holes(l)], ad, num);
        MeaningFilled(nul, r, ys[Holes(l)..], xs[Holes(l)..], ad, num);
      case Not(_, q) => MeaningFilled(nul, q, ys, xs, ad, num);
      case Paren(q) => MeaningFilled(nul, q, ys, xs, ad, num);
      case Cmp(col, op, x) => CompareFilled(nul, op, ColumnValue(ad(col)), x, ys, xs, num);
      case In(col, _, items) => ItemsFilledWith(nul, ColumnValue(ad(col)), items, ys, xs, num);
      case Between(col, _, lo, _, hi) =>
        var h := OperandHoles(lo);
        StandSlice(ys, xs, num, h);
        CompareFilled(nul, ">=", ColumnValue(ad(col)), lo, ys[..h], xs[..h], num);
        CompareFilled(nul, "<=", ColumnValue(ad(col)), hi, ys[h..], xs[h..], num);
      case IsNull(_, _, _, _) =>
    }
  }

  lemma {:induction false} NullsSlice(ys: seq<Operand>, xs: seq<SqlValue>, num: string -> Option<real>)
    requires StandFor(ys, xs, num)
    ensures Null in ys <==> VNull in xs
  {
    if Null in ys {
      var k :| 0 <= k < |ys| && ys[k] == Null;
      assert StandsFor(ys[k], xs[k], num) && xs[k] == VNull;
    }
    if VNull in xs {
      var k :| 0 <= k < |xs| && xs[k] == VNull;
      assert StandsFor(ys[k], xs[k], num) && ys[k].Null?;
    }
  }

  lemma {:induction false} FilledNulls(items: seq<Operand>, ys: seq<Operand>)
    requires |ys| == ItemHoles(items) && Null !in items
    ensures Null in FillItems(items, ys) <==> Null in ys
    decreases |items|
  {
    if items != [] {
      var h := OperandHoles(items[0]);
      FilledNulls(items[1..], ys[h..]);
      assert ys == ys[..h] + ys[h..];
      assert FillItems(items, ys) == [FillOperand(items[0], ys[..h])] + FillItems(items[1..], ys[h..]);
      assert items[0] in items;
    }
  }

  /** The predicate as a client wrote it has no NULL of its own. */
  predicate NoNull(p: Pred) {
    match p
    case Or(l, _, r) => NoNull(l) && NoNull(r)
    case And(l, _, r) => NoNull(l) && NoNull(r)
    case Not(_, q) => NoNull(q)
    case Paren(q) => NoNull(q)
    case Cmp(_, _, x) => !x.Null?
    case In(_, _, items) => Null !in items
    case Between(_, _, lo, _, hi) => !lo.Null? && !hi.Null?
    case IsNull(_, _, _, _) => true
  }

  lemma {:induction false} NullsFilled(p: Pred, pol: Polarity, ys: seq<Operand>, xs: seq<SqlValue>,
                                       num: string -> Option<real>)
    requires |ys| == Holes(p) && |xs| == Holes(p) && StandFor(ys, xs, num) && NoNull(p)
    ensures NullsPositive(Fill(p, ys), pol) <==> NullsUp(p, pol, xs)
    decreases p
  {
    hide StandFor, FillItems;
    match p {
      case Or(l, _, r) =>
        StandSlice(ys, xs, num, Holes(l));
        NullsFilled(l, pol, ys[..Holes(l)], xs[..Holes(l)], num);
        NullsFilled(r, pol, ys[Holes(l)..], xs[Holes(l)..], num);
      case And(l, _, r) =>
        StandSlice(ys, xs, num, Holes(l));
        NullsFilled(l, pol, ys[..Holes(l)], xs[..Holes(l)], num);
        NullsFilled(r, pol, ys[Holes(l)..], xs[Holes(l)..], num);
      case Not(_, q) => NullsFilled(q, Flip(pol), ys, xs, num);
      case Paren(q) => NullsFilled(q, pol, ys, xs, num);
      case Cmp(_, _, x) => NullsSlice(ys, xs, num);
      case In(_, _, items) => NullsSlice(ys, xs, num); FilledNulls(items, ys);
      case Between(_, _, lo, _, hi) =>
        var h := OperandHoles(lo);
        NullsSlice(ys, xs, num);
        assert ys == ys[..h] + ys[h..];
      case IsNull(_, _, _, _) =>
    }
  }

  // ---------------------------------------------------------------------------------------
  // What may be bound where.

  /** A column of the kind can be compared with the value. */
  predicate OfClass(x: SqlValue, kind: Kind) {
    match kind
    case KString => x.VStr?
    case KBool => x.VBool?
    case KUnknown => x != VNull
    case _ => x.VNum?
  }

  /** NULL goes anywhere; any other value where a column of its class is compared. An integer past the signed
      64-bit range, a non-finite double and a value of no scalar type go nowhere. */
  predicate Bindable(v: Any, kind: Kind) {
    v.Nil? || (OfClass(SqlOf(v), kind) && (v.Unsigned? ==> v.u <= 0x7fff_ffff_ffff_ffff))
  }

  lemma {:induction false} FitsBindable(v: Any, p: ParamInfo)
    ensures FitsParam(v, p) <==> Bindable(v, p.kind)
  {
    hide FormatInt, ClassAdString;
  }

  lemma {:induction false} TypedBindable(vals: seq<Any>, ps: seq<ParamInfo>)
    ensures WellTyped(vals, ps) <==> |vals| == |ps| && forall i :: 0 <= i < |vals| ==> Bindable(vals[i], ps[i].kind)
  {
    hide FitsParam, Bindable;
    forall i | 0 <= i < |vals| && |vals| == |ps| ensures FitsParam(vals[i], ps[i]) <==> Bindable(vals[i], ps[i].kind) {
      FitsBindable(vals[i], ps[i]);
    }
  }
}
