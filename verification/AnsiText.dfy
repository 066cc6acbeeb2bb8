/** What the emitted text says: binding a template gives the text of the filled-in predicate, and
    the ClassAd reader gives that text back as an expression of the same shape. */
module AnsiText {
  import opened Text
  import C = ClassAd
  import opened SqlPredicate
  import opened AnsiLower
  import opened AnsiGrammar

  // ---------------------------------------------------------------------------------------
  // The text, lexemes and expression of a predicate with nothing left to bind.

  function LiteralText(t: Token): string {
    match t
    case Str(s) => ClassAdString(s)
    case Number(w) => w
    case Ident(w) => if Fold(w) == "true" then "true" else "false"
    case _ => ""
  }

  function AtomOp(kind: Kind, op: string): string { if kind == KString then "=?=" else CadOp(op) }

  function AtomText(col: string, op: string, x: Operand, env: Env): string {
    match x
    case Literal(t) => if LiteralToken(t) then col + " " + AtomOp(KindOf(col, env), op) + " " + LiteralText(t) else ""
    case _ => "false"
  }

  function ItemsText(col: string, items: seq<Operand>, env: Env): string
    requires items != []
  {
    var first := AtomText(col, "=", items[0], env);
    if |items| == 1 then first else first + " || " + ItemsText(col, items[1..], env)
  }

  /** The constraint text a filled-in predicate lowers to. */
  function OutText(q: Pred, env: Env): string {
    match q
    case Or(l, _, r) => "(" + OutText(l, env) + " || " + OutText(r, env) + ")"
    case And(l, _, r) => "(" + OutText(l, env) + " && " + OutText(r, env) + ")"
    case Not(_, p) => "!(" + OutText(p, env) + ")"
    case Paren(p) => "(" + OutText(p, env) + ")"
    case Cmp(col, op, x) => AtomText(col, op, x, env)
    case In(col, _, items) =>
      if items == [] then ""
      else if |items| == 1 then AtomText(col, "=", items[0], env)
      else "(" + ItemsText(col, items, env) + ")"
    case Between(col, _, lo, _, hi) =>
      "(" + AtomText(col, ">=", lo, env) + " && " + AtomText(col, "<=", hi, env) + ")"
    case IsNull(col, _, notKw, _) => col + (if notKw.Some? then " isnt undefined" else " is undefined")
  }

  // ---------------------------------------------------------------------------------------
  // Binding concatenates.

  lemma {:induction false} AppendAssoc(a: Result<string>, b: Result<string>, c: Result<string>)
    ensures Append(Append(a, b), c) == Append(a, Append(b, c))
  {
    if a.Ok? && b.Ok? && c.Ok? {
      Assoc(a.value, b.value, c.value);
    }
  }

  lemma {:induction false} AppendUnit(a: Result<string>)
    ensures Append(Ok(""), a) == a && Append(a, Ok("")) == a
  {
    if a.Ok? {
      assert "" + a.value == a.value && a.value + "" == a.value;
    }
  }

  lemma {:induction false} BindSnoc(fs: Frags, f: Frag, vals: seq<Any>)
    ensures BindFrags(fs + [f], vals) == Append(BindFrags(fs, vals), BindFrag(f, vals))
  {
    assert (fs + [f])[..|fs|] == fs;
  }

  lemma {:induction false} BindPush(out: Frags, f: Frag, vals: seq<Any>)
    ensures BindFrags(Push(out, f), vals) == Append(BindFrags(out, vals), BindFrag(f, vals))
  {
    hide BindFrags;
    if f.Fixed? && out != [] && out[|out| - 1].Fixed? {
      var init, last := out[..|out| - 1], out[|out| - 1];
      assert out == init + [last];
      BindSnoc(init, last, vals);
      BindSnoc(init, Fixed(last.text + f.text), vals);
      AppendAssoc(BindFrags(init, vals), Ok(last.text), Ok(f.text));
    } else {
      BindSnoc(out, f, vals);
    }
  }

  lemma {:induction false} BindCons(f: Frag, fs: Frags, vals: seq<Any>)
    ensures BindFrags([f] + fs, vals) == Append(BindFrag(f, vals), BindFrags(fs, vals))
  {
    hide BindFrag;
    if fs == [] {
      BindSnoc([], f, vals);
      assert [f] + fs == [] + [f];
      AppendUnit(BindFrag(f, vals));
    } else {
      var init, last := fs[..|fs| - 1], fs[|fs| - 1];
      assert fs == init + [last];
      assert [f] + fs == ([f] + init) + [last];
      BindSnoc([f] + init, last, vals);
      BindSnoc(init, last, vals);
      BindCons(f, init, vals);
      AppendAssoc(BindFrag(f, vals), BindFrags(init, vals), BindFrag(last, vals));
    }
  }

  lemma {:induction false} BindSplice(out: Frags, e: Frags, vals: seq<Any>)
    ensures BindFrags(Splice(out, e), vals) == Append(BindFrags(out, vals), BindFrags(e, vals))
    decreases e
  {
    hide BindFrag, Push;
    if e == [] {
      AppendUnit(BindFrags(out, vals));
    } else {
      BindPush(out, e[0], vals);
      BindSplice(Push(out, e[0]), e[1..], vals);
      assert e == [e[0]] + e[1..];
      BindCons(e[0], e[1..], vals);
      AppendAssoc(BindFrags(out, vals), BindFrag(e[0], vals), BindFrags(e[1..], vals));
    }
  }

  /** The concatenation of what each part binds to. */
  function BindParts(parts: seq<Frags>, vals: seq<Any>): Result<string> {
    if parts == [] then Ok("") else Append(BindFrags(parts[0], vals), BindParts(parts[1..], vals))
  }

  lemma {:induction false} BindSpliceAll(out: Frags, parts: seq<Frags>, vals: seq<Any>)
    ensures BindFrags(SpliceAll(out, parts), vals) == Append(BindFrags(out, vals), BindParts(parts, vals))
    decreases parts
  {
    hide BindFrags, Splice;
    if parts == [] {
      AppendUnit(BindFrags(out, vals));
    } else {
      BindSplice(out, parts[0], vals);
      BindSpliceAll(Splice(out, parts[0]), parts[1..], vals);
      AppendAssoc(BindFrags(out, vals), BindFrags(parts[0], vals), BindParts(parts[1..], vals));
    }
  }

  lemma {:induction false} BindSeq(parts: seq<Frags>, vals: seq<Any>)
    ensures BindFrags(Seq(parts), vals) == BindParts(parts, vals)
  {
    BindSpliceAll([], parts, vals);
    AppendUnit(BindParts(parts, vals));
  }

  lemma {:induction false} BindPartsConcat(a: seq<Frags>, b: seq<Frags>, vals: seq<Any>)
    ensures BindParts(a + b, vals) == Append(BindParts(a, vals), BindParts(b, vals))
  {
    hide BindFrags;
    if a == [] {
      assert a + b == b;
      AppendUnit(BindParts(b, vals));
    } else {
      assert (a + b)[1..] == a[1..] + b;
      BindPartsConcat(a[1..], b, vals);
      AppendAssoc(BindFrags(a[0], vals), BindParts(a[1..], vals), BindParts(b, vals));
    }
  }

  lemma {:induction false} BindOne(e: Frags, vals: seq<Any>)
    ensures BindParts([e], vals) == BindFrags(e, vals)
  {
    hide BindFrags;
    assert [e][1..] == [];
    AppendUnit(BindFrags(e, vals));
  }

  lemma {:induction false} BindFix(s: string, vals: seq<Any>)
    ensures BindFrags(Fix(s), vals) == Ok(s)
  {
    assert Fix(s) == [] + [Fixed(s)];
    BindSnoc([], Fixed(s), vals);
    AppendUnit(Ok(s));
  }

  lemma {:induction false} BindBracket(open: string, e: Frags, vals: seq<Any>)
    ensures BindFrags(Bracket(open, e), vals) == Append(Append(Ok(open), BindFrags(e, vals)), Ok(")"))
  {
    hide BindFrags;
    var parts := [Fix(open), e, Fix(")")];
    BindSeq(parts, vals);
    assert parts == [Fix(open)] + ([e] + [Fix(")")]);
    BindPartsConcat([Fix(open)], [e] + [Fix(")")], vals);
    BindPartsConcat([e], [Fix(")")], vals);
    BindOne(Fix(open), vals);
    BindOne(e, vals);
    BindOne(Fix(")"), vals);
    BindFix(open, vals);
    BindFix(")", vals);
    AppendAssoc(Ok(open), BindFrags(e, vals), Ok(")"));
  }

  lemma {:induction false} BindInfix(l: Frags, op: string, r: Frags, vals: seq<Any>)
    ensures BindFrags(Infix(l, op, r), vals) ==
            Append(Append(Append(Append(Ok("("), BindFrags(l, vals)), Ok(op)), BindFrags(r, vals)), Ok(")"))
  {
    hide BindFrags, BindParts, Append;
    var parts := [Fix("("), l, Fix(op), r, Fix(")")];
    var a, b, c, d, e := [Fix("(")], [l], [Fix(op)], [r], [Fix(")")];
    BindSeq(parts, vals);
    assert parts == a + b + c + d + e;
    BindPartsConcat(a + b + c + d, e, vals);
    BindPartsConcat(a + b + c, d, vals);
    BindPartsConcat(a + b, c, vals);
    BindPartsConcat(a, b, vals);
    BindOne(Fix("("), vals);
    BindOne(l, vals);
    BindOne(Fix(op), vals);
    BindOne(r, vals);
    BindOne(Fix(")"), vals);
    BindFix("(", vals);
    BindFix(op, vals);
    BindFix(")", vals);
  }

  // ---------------------------------------------------------------------------------------
  // Bound values as operands.

  /** The literal a client would have written for a bound value; NULL has none. */
  function OperandOf(v: Any): Operand {
    match v
    case Signed(i) => Literal(Number(FormatInt(i)))
    case Unsigned(u) => Literal(Number(FormatInt(u)))
    case FloatVal(f) => if f.Finite? then Literal(Number(f.text)) else Null
    case StringVal(s) => Literal(Str(s))
    case BoolVal(b) => Literal(Ident(if b then "TRUE" else "FALSE"))
    case _ => Null
  }

  function OperandsOf(vals: seq<Any>): (r: seq<Operand>)
    ensures |r| == |vals|
  {
    seq(|vals|, i requires 0 <= i < |vals| => OperandOf(vals[i]))
  }

  /** The bound value normalises and its kind is one the column can hold. */
  predicate FitsParam(v: Any, p: ParamInfo) {
    Normalize(v).Ok? && BoundFits(Normalize(v).value, p.kind)
  }

  predicate WellTyped(vals: seq<Any>, ps: seq<ParamInfo>) {
    |vals| == |ps| && forall i :: 0 <= i < |vals| ==> FitsParam(vals[i], ps[i])
  }

  lemma {:induction false} FoldTrueFalse()
    ensures Fold("TRUE") == "true" && Fold("FALSE") == "false"
  {
    assert Fold("TRUE") == "t" + Fold("RUE");
    assert Fold("RUE") == "r" + Fold("UE");
    assert Fold("UE") == "u" + Fold("E");
    assert Fold("E") == "e" + Fold("");
    assert Fold("FALSE") == "f" + Fold("ALSE");
    assert Fold("ALSE") == "a" + Fold("LSE");
    assert Fold("LSE") == "l" + Fold("SE");
    assert Fold("SE") == "s" + Fold("E");
  }

  /** One slot: it renders the whole comparison with the literal of its value, or `false` for NULL,
      exactly when the value fits the column. */
  lemma {:induction false} RenderSlot(col: string, op: string, v: Any, pol: Polarity, env: Env, n: nat)
    requires LowerCompare(col, KindOf(col, env), op, None, pol).Ok?
    ensures Render(Slot(n, col, KindOf(col, env), op, pol), v) ==
            if FitsParam(v, ParamInfo(col, KindOf(col, env))) then Ok(AtomText(col, op, OperandOf(v), env)) else Err
  {
    FoldTrueFalse();
  }

  lemma {:induction false} OperandText(col: string, op: string, x: Operand, pol: Polarity, n: nat, vals: seq<Any>,
                                       env: Env)
    requires env.cols(col).Some? && AcceptOperand(col, env.cols(col).value, op, x, pol, env) && GoodOperand(x)
    requires n + OperandHoles(x) <= |vals|
    ensures var h := OperandHoles(x);
            BindFrags(OperandFrags(col, op, x, pol, n, env), vals) ==
            if WellTyped(vals[n..n + h], OperandParams(col, x, env))
            then Ok(AtomText(col, op, FillOperand(x, OperandsOf(vals)[n..n + h]), env)) else Err
  {
    hide Fold;
    if x.Hole? {
      var f := Slot(n, col, KindOf(col, env), op, pol);
      assert OperandFrags(col, op, x, pol, n, env) == [] + [f];
      BindSnoc([], f, vals);
      AppendUnit(BindFrag(f, vals));
      RenderSlot(col, op, vals[n], pol, env, n);
      assert vals[n..n + 1] == [vals[n]];
      assert OperandsOf(vals)[n..n + 1][0] == OperandOf(vals[n]);
    } else {
      BindFix(AtomText(col, op, x, env), vals);
    }
  }

  // ---------------------------------------------------------------------------------------
  // A whole predicate.

  lemma {:induction false} SplitTyped(vals: seq<Any>, n: nat, a: nat, b: nat, pa: seq<ParamInfo>, pb: seq<ParamInfo>)
    requires n + a + b <= |vals| && |pa| == a && |pb| == b
    ensures WellTyped(vals[n..n + a + b], pa + pb)
            <==> WellTyped(vals[n..n + a], pa) && WellTyped(vals[n + a..n + a + b], pb)
  {
    hide FitsParam;
    var v, p := vals[n..n + a + b], pa + pb;
    if WellTyped(v, p) {
      forall i | 0 <= i < a ensures FitsParam(vals[n..n + a][i], pa[i]) { assert FitsParam(v[i], p[i]); }
      forall i | 0 <= i < b ensures FitsParam(vals[n + a..n + a + b][i], pb[i]) {
        assert FitsParam(v[a + i], p[a + i]);
      }
    }
    if WellTyped(vals[n..n + a], pa) && WellTyped(vals[n + a..n + a + b], pb) {
      forall i | 0 <= i < a + b ensures FitsParam(v[i], p[i]) {
        if i < a { assert FitsParam(vals[n..n + a][i], pa[i]); }
        else { assert FitsParam(vals[n + a..n + a + b][i - a], pb[i - a]); }
      }
    }
  }

  lemma {:induction false} SplitSlice<T>(s: seq<T>, n: nat, a: nat, b: nat)
    requires n + a + b <= |s|
    ensures s[n..n + a + b][..a] == s[n..n + a]
    ensures s[n..n + a + b][a..] == s[n + a..n + a + b]
  {
  }

  lemma {:induction false} BindItems(col: string, items: seq<Operand>, pol: Polarity, n: nat, vals: seq<Any>, env: Env)
    requires items != [] && env.cols(col).Some? && AcceptItems(col, env.cols(col).value, items, pol, env)
    requires forall x :: x in items ==> GoodOperand(x)
    requires n + ItemHoles(items) <= |vals|
    ensures var h := ItemHoles(items);
            BindParts(Disjuncts(ItemFrags(col, items, pol, n, env)), vals) ==
            if WellTyped(vals[n..n + h], ItemParams(col, items, env))
            then Ok(ItemsText(col, FillItems(items, OperandsOf(vals)[n..n + h]), env)) else Err
    decreases |items|
  {
    hide BindFrags, WellTyped, OperandFrags, AtomText, AcceptOperand, AcceptItems, GoodOperand, Fold, FillOperand,
         OperandsOf, Fix, OperandParams;
    var x, more := items[0], items[1..];
    var a, b := OperandHoles(x), ItemHoles(more);
    var xs := OperandsOf(vals);
    AcceptItemsCons(col, env.cols(col).value, items, pol, env);
    OperandText(col, "=", x, pol, n, vals, env);
    SplitTyped(vals, n, a, b, OperandParams(col, x, env), ItemParams(col, more, env));
    SplitSlice(xs, n, a, b);
    var term := OperandFrags(col, "=", x, pol, n, env);
    var filled := FillItems(items, xs[n..n + a + b]);
    assert filled == [FillOperand(x, xs[n..n + a])] + FillItems(more, xs[n + a..n + a + b]);
    if more == [] {
      assert ItemFrags(col, items, pol, n, env) == [term];
      BindOne(term, vals);
      NoneTyped(vals[n + a..n + a + b], ItemParams(col, more, env));
    } else {
      var rest := ItemFrags(col, more, pol, n + a, env);
      assert ItemFrags(col, items, pol, n, env)[1..] == rest;
      BindItems(col, more, pol, n + a, vals, env);
      assert [term, Fix(" || ")] == [term] + [Fix(" || ")];
      BindPartsConcat([term, Fix(" || ")], Disjuncts(rest), vals);
      BindPartsConcat([term], [Fix(" || ")], vals);
      BindOne(term, vals);
      BindOne(Fix(" || "), vals);
      BindFix(" || ", vals);
      assert filled[1..] == FillItems(more, xs[n + a..n + a + b]);
    }
  }

  lemma {:induction false} NoneTyped(vals: seq<Any>, ps: seq<ParamInfo>)
    requires vals == [] && ps == []
    ensures WellTyped(vals, ps)
  {
  }

  /** Binding p's translation succeeds exactly when every value fits its placeholder, and then
      gives the text of p with the values filled in. */
  ghost predicate Binds(p: Pred, pol: Polarity, n: nat, vals: seq<Any>, env: Env)
    requires n + Holes(p) <= |vals|
  {
    var h := Holes(p);
    BindFrags(Lowered(p, pol, n, env), vals) ==
    if WellTyped(vals[n..n + h], Params(p, env))
    then Ok(OutText(Fill(p, OperandsOf(vals)[n..n + h]), env)) else Err
  }

  /** The value slices of a two-part node: typing and text both split at the left part's holes. */
  lemma {:induction false} BindJoin(l: Pred, r: Pred, op: string, pol: Polarity, n: nat, vals: seq<Any>, env: Env)
    requires n + Holes(l) + Holes(r) <= |vals|
    requires Binds(l, pol, n, vals, env) && Binds(r, pol, n + Holes(l), vals, env)
    ensures var a, b := Holes(l), Holes(r);
            var xs := OperandsOf(vals)[n..n + a + b];
            BindFrags(Infix(Lowered(l, pol, n, env), op, Lowered(r, pol, n + a, env)), vals) ==
            if WellTyped(vals[n..n + a + b], Params(l, env) + Params(r, env))
            then Ok("(" + OutText(Fill(l, xs[..a]), env) + op + OutText(Fill(r, xs[a..]), env) + ")") else Err
  {
    hide BindFrags, WellTyped, Infix, Lowered, Fill, OutText, Fold, Params;
    var a, b := Holes(l), Holes(r);
    BindInfix(Lowered(l, pol, n, env), op, Lowered(r, pol, n + a, env), vals);
    SplitTyped(vals, n, a, b, Params(l, env), Params(r, env));
    SplitSlice(OperandsOf(vals), n, a, b);
  }

  lemma {:induction false} OrParts(l: Pred, kw: string, r: Pred, pol: Polarity, n: nat, xs: seq<Operand>, env: Env)
    requires |xs| == Holes(l) + Holes(r)
    ensures OutText(Fill(Or(l, kw, r), xs), env) ==
            "(" + OutText(Fill(l, xs[..Holes(l)]), env) + " || " + OutText(Fill(r, xs[Holes(l)..]), env) + ")"
    ensures Lowered(Or(l, kw, r), pol, n, env) ==
            Infix(Lowered(l, pol, n, env), " || ", Lowered(r, pol, n + Holes(l), env))
  {
    hide Infix, Fold, AtomText, OperandFrags;
  }

  lemma {:induction false} BindOr(l: Pred, kw: string, r: Pred, pol: Polarity, n: nat, vals: seq<Any>, env: Env)
    requires n + Holes(l) + Holes(r) <= |vals|
    requires Binds(l, pol, n, vals, env) && Binds(r, pol, n + Holes(l), vals, env)
    ensures Binds(Or(l, kw, r), pol, n, vals, env)
  {
    hide BindFrags, WellTyped, Infix, Fold, OutText, Fill, Lowered, OperandsOf;
    BindJoin(l, r, " || ", pol, n, vals, env);
    OrParts(l, kw, r, pol, n, OperandsOf(vals)[n..n + Holes(l) + Holes(r)], env);
    assert OperandsOf(vals)[n..n + (Holes(l) + Holes(r))] == OperandsOf(vals)[n..n + Holes(l) + Holes(r)];
    assert vals[n..n + (Holes(l) + Holes(r))] == vals[n..n + Holes(l) + Holes(r)];
  }

  lemma {:induction false} AndParts(l: Pred, kw: string, r: Pred, pol: Polarity, n: nat, xs: seq<Operand>, env: Env)
    requires |xs| == Holes(l) + Holes(r)
    ensures OutText(Fill(And(l, kw, r), xs), env) ==
            "(" + OutText(Fill(l, xs[..Holes(l)]), env) + " && " + OutText(Fill(r, xs[Holes(l)..]), env) + ")"
    ensures Lowered(And(l, kw, r), pol, n, env) ==
            Infix(Lowered(l, pol, n, env), " && ", Lowered(r, pol, n + Holes(l), env))
  {
    hide Infix, Fold, AtomText, OperandFrags;
  }

  lemma {:induction false} BindAnd(l: Pred, kw: string, r: Pred, pol: Polarity, n: nat, vals: seq<Any>, env: Env)
    requires n + Holes(l) + Holes(r) <= |vals|
    requires Binds(l, pol, n, vals, env) && Binds(r, pol, n + Holes(l), vals, env)
    ensures Binds(And(l, kw, r), pol, n, vals, env)
  {
    hide BindFrags, WellTyped, Infix, Fold, OutText, Fill, Lowered, OperandsOf;
    BindJoin(l, r, " && ", pol, n, vals, env);
    AndParts(l, kw, r, pol, n, OperandsOf(vals)[n..n + Holes(l) + Holes(r)], env);
    assert OperandsOf(vals)[n..n + (Holes(l) + Holes(r))] == OperandsOf(vals)[n..n + Holes(l) + Holes(r)];
    assert vals[n..n + (Holes(l) + Holes(r))] == vals[n..n + Holes(l) + Holes(r)];
  }

  lemma {:induction false} BindBetween(p: Pred, pol: Polarity, n: nat, vals: seq<Any>, env: Env)
    requires p.Between? && WellFormed(p, 2) && Accept(p, pol, env) && n + Holes(p) <= |vals|
    ensures Binds(p, pol, n, vals, env)
  {
    hide BindFrags, WellTyped, OperandFrags, AtomText, AcceptOperand, GoodOperand, Fold, FillOperand, Infix,
         OperandParams;
    var a, b := OperandHoles(p.lo), OperandHoles(p.hi);
    OperandText(p.col, ">=", p.lo, Positive, n, vals, env);
    OperandText(p.col, "<=", p.hi, Positive, n + a, vals, env);
    BindInfix(OperandFrags(p.col, ">=", p.lo, Positive, n, env), " && ",
              OperandFrags(p.col, "<=", p.hi, Positive, n + a, env), vals);
    SplitTyped(vals, n, a, b, OperandParams(p.col, p.lo, env), OperandParams(p.col, p.hi, env));
    SplitSlice(OperandsOf(vals), n, a, b);
  }

  lemma {:induction false} BindWrapped(q: Pred, kw: string, pol: Polarity, n: nat, vals: seq<Any>, env: Env)
    requires n + Holes(q) <= |vals|
    ensures Binds(q, Flip(pol), n, vals, env) ==> Binds(Not(kw, q), pol, n, vals, env)
    ensures Binds(q, pol, n, vals, env) ==> Binds(Paren(q), pol, n, vals, env)
  {
    hide BindFrags, WellTyped, Infix, Fold, AtomText, OperandFrags, InList, Bracket, OperandsOf;
    BindBracket("!(", Lowered(q, Flip(pol), n, env), vals);
    BindBracket("(", Lowered(q, pol, n, env), vals);
  }

  lemma {:induction false} BindLowered(p: Pred, level: nat, pol: Polarity, n: nat, vals: seq<Any>, env: Env)
    requires WellFormed(p, level) && Accept(p, pol, env) && n + Holes(p) <= |vals|
    ensures Binds(p, pol, n, vals, env)
    decreases p
  {
    hide BindFrags, WellTyped, OperandFrags, AtomText, AcceptOperand, GoodOperand, Fold, FillOperand, Bracket, Infix,
         InList, ItemsText, AcceptItems, OperandParams;
    match p {
      case Or(l, kw, r) =>
        BindLowered(l, 0, pol, n, vals, env);
        BindLowered(r, 1, pol, n + Holes(l), vals, env);
        BindOr(l, kw, r, pol, n, vals, env);
      case And(l, kw, r) =>
        BindLowered(l, 1, pol, n, vals, env);
        BindLowered(r, 2, pol, n + Holes(l), vals, env);
        BindAnd(l, kw, r, pol, n, vals, env);
      case Not(kw, q) =>
        BindLowered(q, 2, Flip(pol), n, vals, env);
        BindWrapped(q, kw, pol, n, vals, env);
      case Paren(q) =>
        BindLowered(q, 0, pol, n, vals, env);
        BindWrapped(q, "", pol, n, vals, env);
      case Cmp(col, op, x) =>
        OperandText(col, op, x, pol, n, vals, env);
      case In(col, _, items) =>
        BindInList(col, items, pol, n, vals, env);
      case Between(_, _, _, _, _) =>
        BindBetween(p, pol, n, vals, env);
      case IsNull(_, _, _, _) =>
        BindFix(OutText(p, env), vals);
        NoneTyped(vals[n..n], Params(p, env));
    }
  }

  lemma {:induction false} BindInList(col: string, items: seq<Operand>, pol: Polarity, n: nat, vals: seq<Any>, env: Env)
    requires items != [] && env.cols(col).Some? && AcceptItems(col, env.cols(col).value, items, pol, env)
    requires forall x :: x in items ==> GoodOperand(x)
    requires n + ItemHoles(items) <= |vals|
    ensures var h := ItemHoles(items);
            var filled := FillItems(items, OperandsOf(vals)[n..n + h]);
            BindFrags(InList(ItemFrags(col, items, pol, n, env)), vals) ==
            if WellTyped(vals[n..n + h], ItemParams(col, items, env))
            then Ok(if |items| == 1 then AtomText(col, "=", filled[0], env)
                    else "(" + ItemsText(col, filled, env) + ")")
            else Err
  {
    hide BindFrags, WellTyped, AtomText, AcceptItems, GoodOperand, Fold, OperandFrags;
    BindItems(col, items, pol, n, vals, env);
    var terms := ItemFrags(col, items, pol, n, env);
    if |items| == 1 {
      BindOne(terms[0], vals);
    } else {
      var d := Disjuncts(terms);
      BindSeq([Fix("(")] + d + [Fix(")")], vals);
      BindPartsConcat([Fix("(")] + d, [Fix(")")], vals);
      BindPartsConcat([Fix("(")], d, vals);
      BindOne(Fix("("), vals);
      BindOne(Fix(")"), vals);
      BindFix("(", vals);
      BindFix(")", vals);
    }
  }
}
