/** Delimited identifiers: the tokeniser drops their quotes, so one spelled like a keyword or a truth value is
    read as that word, which SQL never does (section 5.2 of ISO/IEC 9075:1992). */
module AnsiQuoted {
  import opened Text
  import X = AnsiLex
  import opened SqlPredicate
  import opened AnsiLower
  import opened AnsiGrammar
  import opened AnsiRead
  import T = AnsiTheorems

  /** The words the grammar reads: its keywords and the two truth values. */
  predicate GrammarWord(w: string) {
    Fold(w) in ["or", "and", "not", "in", "between", "is", "null", "true", "false"]
  }

  /** Which tokens of the text from pos on were written with quotes around them. */
  function Delimited(src: string, pos: nat): (ds: seq<bool>)
    requires pos <= |src|
    ensures |ds| == |X.LexAll(src, pos)|
    decreases |src| - pos
  {
    var (t, e) := X.LexNext(src, pos);
    if t.None? then [] else [src[X.Skip(X.IsSpace, src, pos)] == '"'] + Delimited(src, e)
  }

  // ---------------------------------------------------------------------------------------
  // Where a predicate's columns stand among its tokens.

  function Others(n: nat): (ms: seq<bool>)
    ensures |ms| == n
  {
    seq(n, i => false)
  }

  function ColumnAt(p: Pred): (ms: seq<bool>)
    ensures |ms| == |Tokens(p)|
  {
    match p
    case Or(l, _, r) => ColumnAt(l) + [false] + ColumnAt(r)
    case And(l, _, r) => ColumnAt(l) + [false] + ColumnAt(r)
    case Not(_, q) => [false] + ColumnAt(q)
    case Paren(q) => [false] + ColumnAt(q) + [false]
    case _ => [true] + Others(|Tokens(p)| - 1)
  }

  /** SQL's reading of a text as p: a delimited identifier is a column and nothing else. */
  predicate SqlReads(src: string, p: Pred) {
    X.LexAll(src, 0) == Tokens(p) && forall i :: 0 <= i < |Tokens(p)| && Delimited(src, 0)[i] ==> ColumnAt(p)[i]
  }

  /** Every word that is not one of the grammar's stands as a column, and every token is a legal one. */
  predicate Named(ts: seq<Token>, ms: seq<bool>) {
    && |ts| == |ms|
    && forall i :: 0 <= i < |ts| ==> !ts[i].Bad? && (ts[i].Ident? && !GrammarWord(ts[i].text) ==> ms[i])
  }

  lemma {:induction false} NamedConcat(a: seq<Token>, ma: seq<bool>, b: seq<Token>, mb: seq<bool>)
    requires Named(a, ma) && Named(b, mb)
    ensures Named(a + b, ma + mb)
  {
    hide GrammarWord;
  }

  lemma {:induction false} OperandNamed(x: Operand)
    requires GoodOperand(x)
    ensures Named(OperandTokens(x), Others(|OperandTokens(x)|))
  {
    hide Fold;
  }

  lemma {:induction false} ItemsNamed(items: seq<Operand>)
    requires forall x :: x in items ==> GoodOperand(x)
    ensures Named(ItemTokens(items), Others(|ItemTokens(items)|))
    decreases |items|
  {
    hide GrammarWord, OperandTokens, GoodOperand;
    if items != [] {
      assert items[0] in items;
      OperandNamed(items[0]);
      ItemsNamed(items[1..]);
    }
  }

  lemma {:induction false} WordsNamed(p: Pred, level: nat)
    requires WellFormed(p, level)
    ensures Named(Tokens(p), ColumnAt(p))
    decreases p
  {
    hide Fold, GoodOperand, OperandTokens, ItemTokens;
    match p {
      case Or(l, kw, r) =>
        WordsNamed(l, 0);
        WordsNamed(r, 1);
        NamedConcat(Tokens(l), ColumnAt(l), [Ident(kw)], [false]);
        NamedConcat(Tokens(l) + [Ident(kw)], ColumnAt(l) + [false], Tokens(r), ColumnAt(r));
      case And(l, kw, r) =>
        WordsNamed(l, 1);
        WordsNamed(r, 2);
        NamedConcat(Tokens(l), ColumnAt(l), [Ident(kw)], [false]);
        NamedConcat(Tokens(l) + [Ident(kw)], ColumnAt(l) + [false], Tokens(r), ColumnAt(r));
      case Not(kw, q) =>
        WordsNamed(q, 2);
        NamedConcat([Ident(kw)], [false], Tokens(q), ColumnAt(q));
      case Paren(q) =>
        WordsNamed(q, 0);
        NamedConcat([LParen], [false], Tokens(q), ColumnAt(q));
        NamedConcat([LParen] + Tokens(q), [false] + ColumnAt(q), [RParen], [false]);
      case Cmp(_, _, x) => OperandNamed(x);
      case In(_, _, items) => ItemsNamed(items);
      case Between(_, _, lo, _, hi) => OperandNamed(lo); OperandNamed(hi);
      case IsNull(_, _, _, _) =>
    }
  }

  // ---------------------------------------------------------------------------------------
  // Exactly when the reading is SQL's.

  lemma {:induction false} DelimitedWord(src: string, pos: nat, i: nat)
    requires pos <= |src| && i < |Delimited(src, pos)| && Delimited(src, pos)[i]
    ensures X.LexAll(src, pos)[i].Ident? || X.LexAll(src, pos)[i].Bad?
    decreases |src| - pos
  {
    hide X.StringToken, X.OpToken, X.NumberEnd;
    var (t, e) := X.LexNext(src, pos);
    if i > 0 { DelimitedWord(src, e, i - 1); }
  }

  /** A delimited word of the grammar that does not stand as a column. */
  predicate Misread(src: string, p: Pred, i: nat)
    requires X.LexAll(src, 0) == Tokens(p) && i < |Tokens(p)|
  {
    Delimited(src, 0)[i] && Tokens(p)[i].Ident? && GrammarWord(Tokens(p)[i].text) && !ColumnAt(p)[i]
  }

  /** An accepted text is read as SQL reads it if and only if no delimited identifier spelled like one of the
      grammar's nine words stands elsewhere than as a column. */
  lemma {:induction false} QuotedIff(src: string, p: Pred)
    requires WellFormed(p, 0) && X.LexAll(src, 0) == Tokens(p)
    ensures SqlReads(src, p) <==> forall i :: 0 <= i < |Tokens(p)| ==> !Misread(src, p, i)
  {
    hide GrammarWord, WellFormed, Delimited;
    WordsNamed(p, 0);
    forall i | 0 <= i < |Tokens(p)| && Delimited(src, 0)[i]
      ensures Tokens(p)[i].Ident? && (!ColumnAt(p)[i] ==> Misread(src, p, i))
    {
      DelimitedWord(src, 0, i);
    }
  }

  lemma {:induction false} QuotedInside(src: string, pos: nat, w: string)
    requires X.Stands(src, pos, "\"" + w + "\"") && X.IsIdentifier(w)
    ensures X.QuotedIdent(src, pos) == (Ident(w), pos + |w| + 2)
    ensures src[pos] == '"' && src[pos + |w| + 2] == ' '
  {
    var q := "\"" + w + "\"";
    forall i | 0 <= i < |q| ensures src[pos + i] == q[i] { X.CharAt(src, pos, q, i); }
    assert q[1..1 + |w|] == w && src[pos + 1..pos + 1 + |w|] == src[pos..pos + |q|][1..1 + |w|];
    forall i | pos + 1 <= i < pos + 1 + |w| ensures X.NotQuote(src[i]) {
      assert src[pos + (i - pos)] == q[i - pos] && q[i - pos] == w[i - pos - 1];
    }
    assert src[pos + (|w| + 1)] == q[|w| + 1] == '"';
    assert src[pos + 0] == q[0];
    X.SkipIs(X.NotQuote, src, pos + 1, pos + 1 + |w|);
  }

  /** A delimited identifier is the same token as the bare word. */
  lemma {:induction false} DelimitedIsBare(src: string, pos: nat, w: string)
    requires X.Stands(src, pos, "\"" + w + "\"") && X.IsIdentifier(w)
    ensures X.LexNext(src, pos) == (Some(Ident(w)), pos + |w| + 2) && src[pos] == '"' && src[pos + |w| + 2] == ' '
  {
    hide X.QuotedIdent, X.StringToken, X.OpToken, X.NumberEnd, X.IsIdentifier;
    QuotedInside(src, pos, w);
    X.SkipIs(X.IsSpace, src, pos, pos);
  }

  /** One token and the blank after it. */
  lemma {:induction false} TokenThenBlank(src: string, pos: nat, t: Token, e: nat)
    requires pos < e < |src| && X.LexNext(src, pos) == (Some(t), e) && src[e] == ' ' && !X.IsSpace(src[pos])
    ensures X.LexAll(src, pos) == [t] + X.LexAll(src, e + 1)
    ensures Delimited(src, pos) == [src[pos] == '"'] + Delimited(src, e + 1)
  {
    hide X.LexToken;
    X.SkipIs(X.IsSpace, src, pos, pos);
    X.BlankSkipped(src, e);
    assert X.Skip(X.IsSpace, src, e) == X.Skip(X.IsSpace, src, e + 1);
    assert Delimited(src, e) == Delimited(src, e + 1);
  }

  const FLAG := "Flag = \"true\" "

  lemma {:induction false} FlagName()
    ensures X.LexAll(FLAG, 0) == [Ident("Flag")] + X.LexAll(FLAG, 5)
    ensures Delimited(FLAG, 0) == [false] + Delimited(FLAG, 5)
  {
    hide X.LexNext, X.LexAll, Delimited;
    assert FLAG[0..4] == "Flag";
    X.NextInside(FLAG, 0, Ident("Flag"));
    TokenThenBlank(FLAG, 0, Ident("Flag"), 4);
  }

  lemma {:induction false} FlagOp()
    ensures X.LexAll(FLAG, 5) == [Op("=")] + X.LexAll(FLAG, 7)
    ensures Delimited(FLAG, 5) == [false] + Delimited(FLAG, 7)
  {
    hide X.LexNext, X.LexAll, Delimited;
    assert FLAG[5..6] == "=";
    X.NextInside(FLAG, 5, Op("="));
    TokenThenBlank(FLAG, 5, Op("="), 6);
  }

  lemma {:induction false} FlagQuoted()
    ensures X.LexAll(FLAG, 7) == [Ident("true")] && Delimited(FLAG, 7) == [true] + Delimited(FLAG, 14)
  {
    hide X.LexNext, X.LexAll, Delimited;
    assert FLAG[7..13] == "\"" + "true" + "\"";
    DelimitedIsBare(FLAG, 7, "true");
    TokenThenBlank(FLAG, 7, Ident("true"), 13);
    Ended(FLAG);
  }

  lemma {:induction false} FlagTokens()
    ensures X.LexAll(FLAG, 0) == [Ident("Flag"), Op("="), Ident("true")] && Delimited(FLAG, 0)[2]
  {
    hide X.LexAll, Delimited;
    FlagName();
    FlagOp();
    FlagQuoted();
  }

  lemma {:induction false} Ended(src: string)
    ensures X.LexAll(src, |src|) == []
  {
    X.NothingLeft(src);
  }

  /** Flag = "true" lowers to a comparison with the truth value, though the identifier is delimited. */
  lemma {:induction false} QuotedTrue(env: Env)
    requires env.cols("Flag") == Some(KBool)
    ensures var p := Cmp("Flag", "=", Literal(Ident("true")));
            && X.LexAll(FLAG, 0) == Tokens(p) && WellFormed(p, 0) && Lower(X.LexAll(FLAG, 0), env).Ok?
            && !SqlReads(FLAG, p)
  {
    hide Fold, X.LexAll, Delimited, Lower;
    var p := Cmp("Flag", "=", Literal(Ident("true")));
    FlagTokens();
    assert !ColumnAt(p)[2];
    FoldLiterals();
    assert Fold("Flag")[0] == 'f' && "not"[0] == 'n' by { FoldFirst(); }
    T.LowerAccepts(p, env);
  }

  lemma {:induction false} FoldFirst()
    ensures Fold("Flag") != "" && Fold("Flag")[0] == 'f'
  {
  }
}
