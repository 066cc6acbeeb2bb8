/** The predicate subset the package documents, stated by the classes of the values compared, and that it is
    exactly what the lowering takes. */
module AnsiSupported {
  import opened Text
  import C = ClassAd
  import opened SqlPredicate
  import opened AnsiLower
  import opened AnsiGrammar
  import opened AnsiText
  import opened AnsiMeaning
  import opened AnsiBound
  import opened AnsiTheorems

  /** A declared, typed column, compared with a value of its class or a placeholder; a string column only for
      equality, and only where no row may be added by reading unknown as false. */
  predicate SupportedCmp(col: string, op: string, x: Operand, pol: Polarity, env: Env) {
    match env.cols(col)
    case None => false
    case Some(k) =>
      && k != KUnknown && !x.Null?
      && (k == KString ==> op == "=" && pol == Positive)
      && (x.Literal? ==> OfClass(TokenValue(x.t, env.num), k))
  }

  predicate Supported(p: Pred, pol: Polarity, env: Env) {
    match p
    case Or(l, _, r) => Supported(l, pol, env) && Supported(r, pol, env)
    case And(l, _, r) => Supported(l, pol, env) && Supported(r, pol, env)
    case Not(_, q) => Supported(q, Flip(pol), env)
    case Paren(q) => Supported(q, pol, env)
    case Cmp(col, op, x) => SupportedCmp(col, op, x, pol, env)
    case In(col, _, items) => forall x :: x in items ==> SupportedCmp(col, "=", x, pol, env)
    case Between(col, _, lo, _, hi) =>
      && env.cols(col) != Some(KString)
      && SupportedCmp(col, ">=", lo, pol, env) && SupportedCmp(col, "<=", hi, pol, env)
    case IsNull(col, _, _, _) => env.cols(col).Some?
  }

  lemma {:induction false} OperandSupported(col: string, op: string, x: Operand, pol: Polarity, env: Env)
    requires GoodOperand(x) && env.cols(col).Some?
    ensures AcceptOperand(col, env.cols(col).value, op, x, pol, env) <==> SupportedCmp(col, op, x, pol, env)
  {
    hide Fold, ClassAdString, HasAny;
    FoldTrueFalse();
  }

  lemma {:induction false} ItemsSupported(col: string, items: seq<Operand>, pol: Polarity, env: Env)
    requires env.cols(col).Some? && forall x :: x in items ==> GoodOperand(x)
    ensures AcceptItems(col, env.cols(col).value, items, pol, env) <==>
            forall x :: x in items ==> SupportedCmp(col, "=", x, pol, env)
  {
    hide AcceptOperand, SupportedCmp, GoodOperand;
    forall x | x in items
      ensures AcceptOperand(col, env.cols(col).value, "=", x, pol, env) <==> SupportedCmp(col, "=", x, pol, env)
    {
      OperandSupported(col, "=", x, pol, env);
    }
  }

  /** What the refusal rules admit is exactly the supported subset. */
  lemma {:induction false} AcceptIff(p: Pred, level: nat, pol: Polarity, env: Env)
    requires WellFormed(p, level)
    ensures Accept(p, pol, env) <==> Supported(p, pol, env)
    decreases p
  {
    hide AcceptOperand, SupportedCmp, GoodOperand, Fold, AcceptItems;
    match p {
      case Or(l, _, r) => AcceptIff(l, 0, pol, env); AcceptIff(r, 1, pol, env);
      case And(l, _, r) => AcceptIff(l, 1, pol, env); AcceptIff(r, 2, pol, env);
      case Not(_, q) => AcceptIff(q, 2, Flip(pol), env);
      case Paren(q) => AcceptIff(q, 0, pol, env);
      case Cmp(col, op, x) =>
        if env.cols(col).Some? { OperandSupported(col, op, x, pol, env); } else { Undeclared(col, op, x, pol, env); }
      case In(col, _, items) =>
        if env.cols(col).Some? { ItemsSupported(col, items, pol, env); } else {
          assert items[0] in items;
          Undeclared(col, "=", items[0], pol, env);
        }
      case Between(col, _, lo, _, hi) =>
        if env.cols(col).Some? {
          OperandSupported(col, ">=", lo, Positive, env);
          OperandSupported(col, "<=", hi, Positive, env);
          if env.cols(col) != Some(KString) {
            NotString(col, ">=", lo, pol, env);
            NotString(col, "<=", hi, pol, env);
          }
        } else {
          Undeclared(col, ">=", lo, pol, env);
        }
      case IsNull(_, _, _, _) =>
    }
  }

  lemma {:induction false} Undeclared(col: string, op: string, x: Operand, pol: Polarity, env: Env)
    requires env.cols(col).None?
    ensures !SupportedCmp(col, op, x, pol, env)
  {
  }

  /** Polarity matters to strings only. */
  lemma {:induction false} NotString(col: string, op: string, x: Operand, pol: Polarity, env: Env)
    requires env.cols(col) != Some(KString)
    ensures SupportedCmp(col, op, x, pol, env) <==> SupportedCmp(col, op, x, Positive, env)
  {
  }

  /** The direct path takes exactly the supported predicates that have no placeholder. */
  lemma {:induction false} LowerSupports(p: Pred, env: Env)
    requires WellFormed(p, 0)
    ensures Lower(Tokens(p), env).Ok? <==> Supported(p, Positive, env) && Holes(p) == 0
  {
    LowerAccepts(p, env);
    AcceptIff(p, 0, Positive, env);
  }

  /** The prepared path takes exactly the supported predicates. */
  lemma {:induction false} PrepareSupports(p: Pred, env: Env)
    requires WellFormed(p, 0)
    ensures LowerTemplate(Tokens(p), env).Ok? <==> Supported(p, Positive, env)
  {
    hide LowerTemplate;
    TemplateOf(p, env);
    AcceptIff(p, 0, Positive, env);
  }
}
