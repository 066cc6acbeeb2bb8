/** The parser and the binder as the code runs them: a parser object that advances through its
    tokens and collects placeholders, and loops that build fragment lists and text. Each method is
    tied to the function of the same name, about which the theorems speak. */
module AnsiParser {
  import opened Text
  import opened SqlPredicate
  import opened AnsiLower
  import L = AnsiLower

  // ---------------------------------------------------------------------------------------
  // Text and fragments.

  lemma {:induction false} EscapeSnoc(s: string, c: char)
    ensures Escape(s + [c]) == Escape(s) + EscapeChar(c)
  {
    if s == "" {
      assert s + [c] == [c];
      assert Escape([c]) == EscapeChar(c) + Escape("");
    } else {
      EscapeSnoc(s[1..], c);
      assert (s + [c])[1..] == s[1..] + [c];
    }
  }

  method RenderString(s: string) returns (b: string)
    ensures b == ClassAdString(s)
  {
    b := "\"";
    for i := 0 to |s|
      invariant b == "\"" + Escape(s[..i])
    {
      EscapeSnoc(s[..i], s[i]);
      assert s[..i] + [s[i]] == s[..i + 1];
      b := b + EscapeChar(s[i]);
    }
    assert s[..|s|] == s;
    b := b + "\"";
  }

  lemma {:induction false} SpliceSnoc(out: Frags, e: Frags, f: Frag)
    ensures Splice(out, e + [f]) == Push(Splice(out, e), f)
    decreases e
  {
    if e == [] {
      assert e + [f] == [f];
      assert Splice(out, [f]) == Splice(Push(out, f), []);
    } else {
      SpliceSnoc(Push(out, e[0]), e[1..], f);
      assert (e + [f])[1..] == e[1..] + [f];
    }
  }

  lemma {:induction false} SpliceAllSnoc(out: Frags, parts: seq<Frags>, e: Frags)
    ensures SpliceAll(out, parts + [e]) == Splice(SpliceAll(out, parts), e)
    decreases parts
  {
    if parts == [] {
      assert parts + [e] == [e];
      assert SpliceAll(out, [e]) == SpliceAll(Splice(out, e), []);
    } else {
      SpliceAllSnoc(Splice(out, parts[0]), parts[1..], e);
      assert (parts + [e])[1..] == parts[1..] + [e];
    }
  }

  /** seq: concatenate, merging adjacent fixed text. */
  method JoinParts(parts: seq<Frags>) returns (out: Frags)
    ensures out == Seq(parts)
  {
    out := [];
    for i := 0 to |parts|
      invariant out == SpliceAll([], parts[..i])
    {
      ghost var before := out;
      var e := parts[i];
      for j := 0 to |e|
        invariant out == Splice(before, e[..j])
      {
        SpliceSnoc(before, e[..j], e[j]);
        assert e[..j] + [e[j]] == e[..j + 1];
        if e[j].Fixed? && |out| > 0 && out[|out| - 1].Fixed? {
          out := out[|out| - 1 := Fixed(out[|out| - 1].text + e[j].text)];
        } else {
          out := out + [e[j]];
        }
      }
      assert e[..|e|] == e;
      SpliceAllSnoc([], parts[..i], e);
      assert parts[..i] + [e] == parts[..i + 1];
    }
    assert parts[..|parts|] == parts;
  }

  /** Once a fragment fails, so does every longer prefix. */
  lemma {:induction false} BindFails(fs: Frags, k: nat, vals: seq<Any>)
    requires k <= |fs| && BindFrags(fs[..k], vals).Err?
    ensures BindFrags(fs, vals).Err?
    decreases |fs| - k
  {
    if k < |fs| {
      assert fs[..k + 1][..k] == fs[..k];
      BindFails(fs, k + 1, vals);
    } else {
      assert fs[..k] == fs;
    }
  }

  /** Template.Bind. */
  method BindTemplate(t: Template, vals: seq<Any>) returns (r: Result<string>)
    ensures r == Bind(t, vals)
  {
    if |vals| != |t.params| {
      return Err;
    }
    var b := "";
    for i := 0 to |t.body|
      invariant BindFrags(t.body[..i], vals) == Ok(b)
    {
      assert t.body[..i + 1][..i] == t.body[..i];
      var text := BindFrag(t.body[i], vals);
      if text.Err? {
        BindFails(t.body, i + 1, vals);
        return Err;
      }
      b := b + text.value;
    }
    assert t.body[..|t.body|] == t.body;
    r := Ok(b);
  }

  // ---------------------------------------------------------------------------------------
  // The parser object.

  /** The tail of parseIn: one term as it is, more as a parenthesised disjunction. */
  method JoinItems(terms: seq<Frags>) returns (e: Frags)
    requires terms != []
    ensures e == InList(terms)
  {
    hide Seq;
    if |terms| == 1 {
      return terms[0];
    }
    var parts := [Fix("(")];
    for i := 0 to |terms|
      invariant parts == [Fix("(")] + Disjuncts(terms[..i])
    {
      assert terms[..i + 1] == terms[..i] + [terms[i]];
      if i > 0 {
        DisjunctsSnoc(terms[..i], terms[i]);
        parts := parts + [Fix(" || ")];
      }
      parts := parts + [terms[i]];
    }
    assert terms[..|terms|] == terms;
    e := JoinParts(parts + [Fix(")")]);
  }

  class Parser {
    const env: Env
    const toks: seq<Token>
    var pos: nat
    var params: seq<ParamInfo>

    ghost predicate Valid()
      reads this
    {
      pos <= |toks|
    }

    ghost function Rest(): seq<Token>
      requires Valid()
      reads this
    {
      toks[pos..]
    }

    /** The new state is what the step function says, and r is its result. */
    ghost predicate Follows(start: nat, r: Result<Frags>, s: Step<Frags>)
      reads this
    {
      && Valid() && pos >= start
      && (s.Refused? ==> r.Err?)
      && (s.Done? ==> r == Ok(s.out) && Rest() == s.rest && params == s.params)
    }

    constructor (ts: seq<Token>, e: Env)
      ensures Valid() && Rest() == ts && params == [] && env == e
    {
      env := e;
      toks := ts;
      pos := 0;
      params := [];
      new;
      assert toks[0..] == ts;
    }

    predicate At(kw: string)
      requires Valid()
      reads this
      ensures At(kw) <==> AtKeyword(Rest(), kw)
    {
      pos < |toks| && IsKeyword(toks[pos], kw)
    }

    predicate Sees(t: Token)
      requires Valid()
      reads this
      ensures Sees(t) <==> Rest() != [] && Rest()[0] == t
    {
      pos < |toks| && toks[pos] == t
    }

    method Next()
      requires Valid() && pos < |toks|
      modifies this
      ensures Valid() && pos == old(pos) + 1 && params == old(params)
      ensures Rest() == old(Rest())[1..]
    {
      pos := pos + 1;
    }

    method ParseOr(pol: Polarity) returns (r: Result<Frags>)
      requires Valid()
      modifies this
      ensures Follows(old(pos), r, L.ParseOr(old(Rest()), pol, old(params), env))
      ensures r.Ok? ==> pos > old(pos)
      decreases |toks| - pos, 3
    {
      hide L.ParseAnd, Infix, IsKeyword;
      var left := ParseAnd(pol);
      if left.Err? {
        return Err;
      }
      ghost var goal := L.ParseOr(old(Rest()), pol, old(params), env);
      while At("or")
        invariant Valid() && pos > old(pos) && left.Ok?
        invariant goal == OrLoop(left.value, Rest(), pol, params, env)
        decreases |toks| - pos
      {
        Next();
        var right := ParseAnd(pol);
        if right.Err? {
          return Err;
        }
        var joined := JoinParts([Fix("("), left.value, Fix(" || "), right.value, Fix(")")]);
        assert joined == Infix(left.value, " || ", right.value) by { InfixIs(left.value, " || ", right.value); }
        left := Ok(joined);
      }
      return left;
    }

    method ParseAnd(pol: Polarity) returns (r: Result<Frags>)
      requires Valid()
      modifies this
      ensures Follows(old(pos), r, L.ParseAnd(old(Rest()), pol, old(params), env))
      ensures r.Ok? ==> pos > old(pos)
      decreases |toks| - pos, 2
    {
      hide L.ParseUnary, Infix, IsKeyword;
      var left := ParseUnary(pol);
      if left.Err? {
        return Err;
      }
      ghost var goal := L.ParseAnd(old(Rest()), pol, old(params), env);
      while At("and")
        invariant Valid() && pos > old(pos) && left.Ok?
        invariant goal == AndLoop(left.value, Rest(), pol, params, env)
        decreases |toks| - pos
      {
        Next();
        var right := ParseUnary(pol);
        if right.Err? {
          return Err;
        }
        var joined := JoinParts([Fix("("), left.value, Fix(" && "), right.value, Fix(")")]);
        assert joined == Infix(left.value, " && ", right.value) by { InfixIs(left.value, " && ", right.value); }
        left := Ok(joined);
      }
      return left;
    }

    method ParseUnary(pol: Polarity) returns (r: Result<Frags>)
      requires Valid()
      modifies this
      ensures Follows(old(pos), r, L.ParseUnary(old(Rest()), pol, old(params), env))
      ensures r.Ok? ==> pos > old(pos)
      decreases |toks| - pos, 1
    {
      hide L.ParsePredicate, L.ParseOr, IsKeyword;
      if At("not") {
        Next();
        var inner := ParseUnary(Flip(pol));
        if inner.Err? {
          return Err;
        }
        var e := JoinParts([Fix("!("), inner.value, Fix(")")]);
        return Ok(e);
      }
      if Sees(LParen) {
        Next();
        var inner := ParseOr(pol);
        if inner.Err? || !Sees(RParen) {
          return Err;
        }
        Next();
        var e := JoinParts([Fix("("), inner.value, Fix(")")]);
        return Ok(e);
      }
      r := ParsePredicate(pol);
    }

    method ParsePredicate(pol: Polarity) returns (r: Result<Frags>)
      requires Valid()
      modifies this
      ensures Follows(old(pos), r, L.ParsePredicate(old(Rest()), pol, old(params), env))
      ensures r.Ok? ==> pos > old(pos)
    {
      hide L.ParseIn, L.ParseBetween, L.ParseOperand, L.ParseIsNull, IsKeyword;
      if pos >= |toks| || !toks[pos].Ident? || env.cols(toks[pos].text).None? {
        return Err;
      }
      var col, kind := toks[pos].text, env.cols(toks[pos].text).value;
      Next();
      if At("is") {
        Next();
        r := ParseIsNull(col);
      } else if At("in") {
        Next();
        r := ParseIn(col, kind, pol);
      } else if At("between") {
        Next();
        r := ParseBetween(col, kind);
      } else if pos < |toks| && toks[pos].Op? && IsCompareOp(toks[pos].text) {
        var op := toks[pos].text;
        Next();
        r := ParseOperand(col, kind, op, pol);
      } else {
        r := Err;
      }
    }

    method ParseIsNull(col: string) returns (r: Result<Frags>)
      requires Valid()
      modifies this
      ensures Follows(old(pos), r, L.ParseIsNull(col, old(Rest()), old(params)))
    {
      hide IsKeyword;
      var notNull := At("not");
      if notNull {
        Next();
      }
      if !At("null") {
        return Err;
      }
      Next();
      r := Ok(Fix(col + (if notNull then " isnt undefined" else " is undefined")));
    }

    method ParseOperand(col: string, kind: Kind, op: string, pol: Polarity) returns (r: Result<Frags>)
      requires Valid()
      modifies this
      ensures Follows(old(pos), r, L.ParseOperand(col, kind, op, old(Rest()), pol, old(params), env))
      ensures r.Ok? ==> pos > old(pos)
    {
      hide LowerCompare, LiteralOf;
      if pos >= |toks| {
        return Err;
      }
      if toks[pos] == Param {
        Next();
        if LowerCompare(col, kind, op, None, pol).Err? {
          return Err;
        }
        var idx := |params|;
        params := params + [ParamInfo(col, kind)];
        return Ok([Slot(idx, col, kind, op, pol)]);
      }
      var lit := LiteralOf(toks[pos], env);
      if lit.None? {
        return Err;
      }
      Next();
      var text := LowerCompare(col, kind, op, lit, pol);
      r := if text.Ok? then Ok(Fix(text.value)) else Err;
    }

    /** The operands of an IN list up to the token after the last one. */
    method ParseItems(col: string, kind: Kind, pol: Polarity) returns (r: Result<seq<Frags>>)
      requires Valid()
      modifies this
      ensures var s := InLoop(col, kind, [], old(Rest()), pol, old(params), env);
              && Valid() && pos >= old(pos) && (s.Refused? ==> r.Err?)
              && (s.Done? ==> r == Ok(s.out) && Rest() == s.rest && params == s.params)
    {
      hide L.ParseOperand;
      ghost var goal := InLoop(col, kind, [], Rest(), pol, params, env);
      var terms: seq<Frags> := [];
      while true
        invariant Valid() && pos >= old(pos)
        invariant goal == InLoop(col, kind, terms, Rest(), pol, params, env)
        decreases |toks| - pos
      {
        var term := ParseOperand(col, kind, "=", pol);
        if term.Err? {
          return Err;
        }
        terms := terms + [term.value];
        if !Sees(Comma) {
          return Ok(terms);
        }
        Next();
      }
    }

    method ParseIn(col: string, kind: Kind, pol: Polarity) returns (r: Result<Frags>)
      requires Valid()
      modifies this
      ensures Follows(old(pos), r, L.ParseIn(col, kind, old(Rest()), pol, old(params), env))
    {
      hide InLoop, InList;
      if !Sees(LParen) {
        return Err;
      }
      Next();
      var terms := ParseItems(col, kind, pol);
      if terms.Err? || !Sees(RParen) || |terms.value| == 0 {
        return Err;
      }
      Next();
      var e := JoinItems(terms.value);
      r := Ok(e);
    }

    method ParseBetween(col: string, kind: Kind) returns (r: Result<Frags>)
      requires Valid()
      modifies this
      ensures Follows(old(pos), r, L.ParseBetween(col, kind, old(Rest()), old(params), env))
    {
      hide L.ParseOperand, IsKeyword;
      if kind == KString {
        return Err;
      }
      var lo := ParseOperand(col, kind, ">=", Positive);
      if lo.Err? || !At("and") {
        return Err;
      }
      Next();
      var hi := ParseOperand(col, kind, "<=", Positive);
      if hi.Err? {
        return Err;
      }
      var e := JoinParts([Fix("("), lo.value, Fix(" && "), hi.value, Fix(")")]);
      r := Ok(e);
    }
  }

  lemma {:induction false} InfixIs(l: Frags, op: string, r: Frags)
    ensures Infix(l, op, r) == Seq([Fix("("), l, Fix(op), r, Fix(")")])
  {
  }

  lemma {:induction false} DisjunctsSnoc(terms: seq<Frags>, t: Frags)
    requires terms != []
    ensures Disjuncts(terms + [t]) == Disjuncts(terms) + [Fix(" || "), t]
    decreases terms
  {
    if |terms| == 1 {
      assert (terms + [t])[1..] == [t];
      assert Disjuncts([t]) == [t];
    } else {
      DisjunctsSnoc(terms[1..], t);
      assert (terms + [t])[1..] == terms[1..] + [t];
    }
  }

  /** LowerTemplate: parse an OR-expression and require the end of the input. */
  method PrepareTemplate(ts: seq<Token>, env: Env) returns (r: Result<Template>)
    ensures r == LowerTemplate(ts, env)
  {
    hide L.ParseOr;
    var p := new Parser(ts, env);
    var out := p.ParseOr(Positive);
    if out.Err? || p.pos != |p.toks| {
      return Err;
    }
    r := Ok(Template(out.value, p.params));
  }

  /** Lower: a template without placeholders, bound to nothing. */
  method LowerPredicate(ts: seq<Token>, env: Env) returns (r: Result<string>)
    ensures r == Lower(ts, env)
  {
    var t := PrepareTemplate(ts, env);
    if t.Err? || |t.value.params| > 0 {
      return Err;
    }
    r := BindTemplate(t.value, []);
  }
}
