/** The predicate tokeniser (ansi/lex.go): functions of the source and a position, and the scanning object. */
module AnsiLex {
  import opened Text
  import opened SqlPredicate

  predicate IsSpace(c: char) { c == ' ' || c == '\t' || c == '\n' || c == '\r' }

  predicate IsIdentStart(c: char) { c == '_' || 'a' <= c <= 'z' || 'A' <= c <= 'Z' }

  predicate IsIdentPart(c: char) { IsIdentStart(c) || IsDigit(c) }

  predicate IsNumPart(c: char) { IsDigit(c) || c == '.' }

  predicate NotQuote(c: char) { c != '"' }

  /** The first position from pos on whose character does not satisfy p. */
  function Skip(p: char -> bool, src: string, pos: nat): (e: nat)
    requires pos <= |src|
    ensures pos <= e <= |src|
    ensures forall i :: pos <= i < e ==> p(src[i])
    ensures e < |src| ==> !p(src[e])
    decreases |src| - pos
  {
    if pos == |src| || !p(src[pos]) then pos else Skip(p, src, pos + 1)
  }

  lemma {:induction false} SkipIs(p: char -> bool, src: string, pos: nat, e: nat)
    requires pos <= e <= |src|
    requires forall i :: pos <= i < e ==> p(src[i])
    requires e < |src| ==> !p(src[e])
    ensures Skip(p, src, pos) == e
    decreases |src| - pos
  {
    if pos < e { SkipIs(p, src, pos + 1, e); }
  }

  type Literal = Option<(string, nat)>

  function Prefixed(b: string, l: Literal): Literal { if l.None? then None else Some((b + l.value.0, l.value.1)) }

  /** The rest of a single-quoted literal from inside it: its value with doubled quotes undone, and the
      position after its closing quote; None when it never closes. */
  function StringFrom(src: string, pos: nat): (r: Literal)
    ensures r.Some? ==> pos < r.value.1 <= |src|
    decreases |src| - pos
  {
    if pos >= |src| then None
    else if src[pos] != '\'' then Prefixed([src[pos]], StringFrom(src, pos + 1))
    else if pos + 1 < |src| && src[pos + 1] == '\'' then Prefixed("'", StringFrom(src, pos + 2))
    else Some(("", pos + 1))
  }

  /** Past an exponent at pos, or pos itself when what stands there is not one. */
  function ExponentEnd(src: string, pos: nat): (e: nat)
    requires pos <= |src|
    ensures pos <= e <= |src|
  {
    if pos == |src| || (src[pos] != 'e' && src[pos] != 'E') then pos
    else
      var at := if pos + 1 < |src| && (src[pos + 1] == '+' || src[pos + 1] == '-') then pos + 2 else pos + 1;
      if at < |src| && IsDigit(src[at]) then Skip(IsDigit, src, at) else pos
  }

  predicate StartsNumber(src: string, pos: nat) {
    pos < |src| && (IsDigit(src[pos]) || (src[pos] == '-' && pos + 1 < |src| && IsDigit(src[pos + 1])))
  }

  function NumberEnd(src: string, pos: nat): (e: nat)
    requires StartsNumber(src, pos)
    ensures pos < e <= |src|
  {
    ExponentEnd(src, Skip(IsNumPart, src, if src[pos] == '-' then pos + 1 else pos))
  }

  predicate IsIdentifier(s: string) { s != "" && IsIdentStart(s[0]) && forall i :: 0 <= i < |s| ==> IsIdentPart(s[i]) }

  predicate TwoCharOp(s: string) { s == "<=" || s == ">=" || s == "<>" || s == "!=" }

  predicate OneCharOp(c: char) { c == '=' || c == '<' || c == '>' }

  function QuotedIdent(src: string, pos: nat): (Token, nat)
    requires pos < |src|
  {
    var close := Skip(NotQuote, src, pos + 1);
    if close == |src| then (Bad("unterminated quoted identifier"), close)
    else (if IsIdentifier(src[pos + 1..close]) then Ident(src[pos + 1..close]) else Bad(src[pos + 1..close]), close + 1)
  }

  function OpToken(src: string, pos: nat): (Token, nat)
    requires pos < |src|
  {
    if pos + 1 < |src| && TwoCharOp(src[pos..pos + 2]) then (Op(src[pos..pos + 2]), pos + 2)
    else if OneCharOp(src[pos]) then (Op([src[pos]]), pos + 1)
    else (Bad([src[pos]]), pos + 1)
  }

  function StringToken(src: string, pos: nat): (Token, nat)
    requires pos < |src|
  {
    match StringFrom(src, pos + 1)
    case Some((v, e)) => (Str(v), e)
    case None => (Bad("unterminated string"), |src|)
  }

  /** One token at a non-blank, and the position after it. */
  function LexToken(src: string, pos: nat): (r: (Token, nat))
    requires pos < |src|
    ensures pos < r.1 <= |src|
  {
    var c := src[pos];
    if c == '(' then (LParen, pos + 1)
    else if c == ')' then (RParen, pos + 1)
    else if c == ',' then (Comma, pos + 1)
    else if c == '?' then (Param, pos + 1)
    else if c == '\'' then StringToken(src, pos)
    else if c == '"' then QuotedIdent(src, pos)
    else if StartsNumber(src, pos) then (Number(src[pos..NumberEnd(src, pos)]), NumberEnd(src, pos))
    else if IsIdentStart(c) then (Ident(src[pos..Skip(IsIdentPart, src, pos)]), Skip(IsIdentPart, src, pos))
    else OpToken(src, pos)
  }

  /** next: None is the end of the text. */
  function LexNext(src: string, pos: nat): (r: (Option<Token>, nat))
    requires pos <= |src|
    ensures pos <= r.1 <= |src| && (r.0.Some? ==> pos < r.1)
  {
    var at := Skip(IsSpace, src, pos);
    if at == |src| then (None, at)
    else
      var (t, e) := LexToken(src, at);
      (Some(t), e)
  }

  function LexAll(src: string, pos: nat): seq<Token>
    requires pos <= |src|
    decreases |src| - pos
  {
    var (t, e) := LexNext(src, pos);
    if t.None? then [] else [t.value] + LexAll(src, e)
  }

  // ---------------------------------------------------------------------------------------
  // The scanning object.

  lemma {:induction false} PrefixedTwice(a: string, b: string, l: Literal)
    ensures Prefixed(a, Prefixed(b, l)) == Prefixed(a + b, l)
  {
    if l.Some? { Assoc(a, b, l.value.0); }
  }

  lemma {:induction false} PrefixedNothing(l: Literal)
    ensures Prefixed("", l) == l
  {
    if l.Some? { assert "" + l.value.0 == l.value.0; }
  }

  class Lexer {
    const src: string
    var pos: nat

    ghost predicate Valid()
      reads this
    {
      pos <= |src|
    }

    constructor (s: string)
      ensures Valid() && src == s && pos == 0
    {
      src, pos := s, 0;
    }

    method Advance(p: char -> bool)
      requires Valid()
      modifies this
      ensures Valid() && pos == Skip(p, src, old(pos))
    {
      while pos < |src| && p(src[pos])
        invariant old(pos) <= pos <= |src|
        invariant forall i :: old(pos) <= i < pos ==> p(src[i])
      {
        pos := pos + 1;
      }
      SkipIs(p, src, old(pos), pos);
    }

    /** lexString. */
    method ScanString() returns (t: Token)
      requires pos < |src|
      modifies this
      ensures Valid() && (t, pos) == StringToken(src, old(pos))
    {
      pos := pos + 1;
      var b := "";
      ghost var start := pos;
      PrefixedNothing(StringFrom(src, pos));
      while pos < |src|
        invariant start <= pos <= |src|
        invariant StringFrom(src, start) == Prefixed(b, StringFrom(src, pos))
      {
        var c := src[pos];
        if c == '\'' {
          if pos + 1 < |src| && src[pos + 1] == '\'' {
            PrefixedTwice(b, "'", StringFrom(src, pos + 2));
            b, pos := b + ['\''], pos + 2;
          } else {
            pos := pos + 1;
            assert b + "" == b;
            return Str(b);
          }
        } else {
          PrefixedTwice(b, [c], StringFrom(src, pos + 1));
          b, pos := b + [c], pos + 1;
        }
      }
      t := Bad("unterminated string");
    }

    /** lexQuotedIdent. */
    method ScanQuotedIdent() returns (t: Token)
      requires pos < |src|
      modifies this
      ensures Valid() && (t, pos) == QuotedIdent(src, old(pos))
    {
      pos := pos + 1;
      var start := pos;
      Advance(NotQuote);
      if pos >= |src| {
        return Bad("unterminated quoted identifier");
      }
      var text := src[start..pos];
      pos := pos + 1;
      if text == "" || !IsIdentStart(text[0]) {
        return Bad(text);
      }
      for i := 0 to |text|
        invariant forall j :: 0 <= j < i ==> IsIdentPart(text[j])
      {
        if !IsIdentPart(text[i]) {
          return Bad(text);
        }
      }
      t := Ident(text);
    }

    /** lexNumber. */
    method ScanNumber() returns (t: Token)
      requires StartsNumber(src, pos)
      modifies this
      ensures Valid() && pos == NumberEnd(src, old(pos)) && t == Number(src[old(pos)..pos])
    {
      var start := pos;
      if src[pos] == '-' {
        pos := pos + 1;
      }
      Advance(IsNumPart);
      ScanExponent();
      t := Number(src[start..pos]);
    }

    method ScanExponent()
      requires Valid()
      modifies this
      ensures Valid() && pos == ExponentEnd(src, old(pos))
    {
      if pos < |src| && (src[pos] == 'e' || src[pos] == 'E') {
        var save := pos;
        pos := pos + 1;
        if pos < |src| && (src[pos] == '+' || src[pos] == '-') {
          pos := pos + 1;
        }
        if pos < |src| && IsDigit(src[pos]) {
          Advance(IsDigit);
        } else {
          pos := save;
        }
      }
    }

    /** lexOp. */
    method ScanOp() returns (t: Token)
      requires pos < |src|
      modifies this
      ensures Valid() && (t, pos) == OpToken(src, old(pos))
    {
      if pos + 1 < |src| {
        var two := src[pos..pos + 2];
        if TwoCharOp(two) {
          pos := pos + 2;
          return Op(two);
        }
      }
      var c := src[pos];
      pos := pos + 1;
      t := if OneCharOp(c) then Op([c]) else Bad([c]);
    }

    method Next() returns (t: Option<Token>)
      requires Valid()
      modifies this
      ensures Valid() && (t, pos) == LexNext(src, old(pos))
    {
      hide StringToken, QuotedIdent, OpToken, NumberEnd;
      Advance(IsSpace);
      if pos >= |src| {
        return None;
      }
      var c := src[pos];
      var tok: Token;
      if c == '(' {
        pos := pos + 1;
        tok := LParen;
      } else if c == ')' {
        pos := pos + 1;
        tok := RParen;
      } else if c == ',' {
        pos := pos + 1;
        tok := Comma;
      } else if c == '?' {
        pos := pos + 1;
        tok := Param;
      } else if c == '\'' {
        tok := ScanString();
      } else if c == '"' {
        tok := ScanQuotedIdent();
      } else if IsDigit(c) || (c == '-' && pos + 1 < |src| && IsDigit(src[pos + 1])) {
        tok := ScanNumber();
      } else if IsIdentStart(c) {
        var start := pos;
        Advance(IsIdentPart);
        tok := Ident(src[start..pos]);
      } else {
        tok := ScanOp();
      }
      t := Some(tok);
    }

    /** The parser's use of it: every token in turn. */
    method All() returns (ts: seq<Token>)
      requires pos == 0
      modifies this
      ensures ts == LexAll(src, 0)
    {
      hide LexNext, LexToken;
      ts := [];
      var t := Next();
      while t.Some?
        invariant pos <= |src|
        invariant LexAll(src, 0) == ts + (if t.None? then [] else [t.value] + LexAll(src, pos))
        decreases |src| - pos, t.Some?
      {
        ghost var at := pos;
        ts := ts + [t.value];
        t := Next();
      }
    }
  }

  // ---------------------------------------------------------------------------------------
  // What a number is.

  predicate AllDigits(s: string) { s != "" && forall i :: 0 <= i < |s| ==> IsDigit(s[i]) }

  predicate Mantissa(m: string) {
    var d := if m != "" && m[0] == '-' then m[1..] else m;
    d != "" && IsDigit(d[0]) && forall i :: 0 <= i < |d| ==> IsNumPart(d[i])
  }

  predicate Exponent(x: string) {
    && |x| >= 2 && (x[0] == 'e' || x[0] == 'E')
    && AllDigits(if x[1] == '+' || x[1] == '-' then x[2..] else x[1..])
  }

  /** Digits and points, after a sign perhaps, and an exponent perhaps. */
  ghost predicate Numeral(w: string) {
    exists k :: 0 <= k <= |w| && Mantissa(w[..k]) && (k == |w| || Exponent(w[k..]))
  }

  lemma {:induction false} ExponentReads(src: string, pos: nat, e: nat)
    requires pos <= e <= |src| && Exponent(src[pos..e])
    ensures ExponentEnd(src, pos) >= e
  {
    hide Skip;
    var x := src[pos..e];
    var k := if x[1] == '+' || x[1] == '-' then 2 else 1;
    assert x[k..] == src[pos + k..e];
    assert src[pos] == x[0] && src[pos + 1] == x[1];
    forall i | pos + k <= i < e ensures IsDigit(src[i]) { assert src[i] == x[k..][i - pos - k]; }
    SkipAtLeast(IsDigit, src, pos + k, e);
  }

  lemma {:induction false} ExponentRead(src: string, pos: nat)
    requires pos <= |src|
    ensures var e := ExponentEnd(src, pos); e == pos || Exponent(src[pos..e])
  {
    var e := ExponentEnd(src, pos);
    if e > pos {
      var x := src[pos..e];
      var k := if src[pos + 1] == '+' || src[pos + 1] == '-' then 2 else 1;
      SkipAtLeast(IsDigit, src, pos + k, pos + k + 1);
      assert x[0] == src[pos] && x[1] == src[pos + 1] && x[k..] == src[pos + k..e];
    }
  }

  lemma {:induction false} SkipAtLeast(p: char -> bool, src: string, pos: nat, e: nat)
    requires pos <= e <= |src| && forall i :: pos <= i < e ==> p(src[i])
    ensures Skip(p, src, pos) >= e
    decreases e - pos
  {
    if pos < e { SkipAtLeast(p, src, pos + 1, e); }
  }

  lemma {:induction false} NumberIsNumeral(src: string, pos: nat)
    requires StartsNumber(src, pos)
    ensures Numeral(src[pos..NumberEnd(src, pos)])
  {
    hide ExponentEnd, Exponent, Mantissa;
    var sign, e := if src[pos] == '-' then 1 else 0, NumberEnd(src, pos);
    var mid := Skip(IsNumPart, src, pos + sign);
    var w := src[pos..e];
    assert w[..mid - pos] == src[pos..mid] && w[mid - pos..] == src[mid..e];
    SkipAtLeast(IsNumPart, src, pos + sign, pos + sign + 1);
    MantissaIs(src, pos, mid);
    ExponentRead(src, mid);
  }

  lemma {:induction false} NumeralInside(src: string, pos: nat, e: nat, k: nat)
    requires StartsNumber(src, pos) && pos <= k <= e <= |src|
    requires Mantissa(src[pos..k]) && (k == e || Exponent(src[k..e]))
    ensures e <= NumberEnd(src, pos)
  {
    hide ExponentEnd, Exponent, Mantissa;
    var sign := if src[pos] == '-' then 1 else 0;
    MantissaEnds(src, pos, k);
    if k < e {
      ExponentHead(src[k..e]);
      SkipIs(IsNumPart, src, pos + sign, k);
      ExponentReads(src, k, e);
    }
  }

  /** The token is a numeral, and no longer piece of the text from there is one. */
  lemma {:induction false} NumberLongest(src: string, pos: nat, e: nat)
    requires StartsNumber(src, pos) && pos <= e <= |src|
    ensures Numeral(src[pos..e]) ==> e <= NumberEnd(src, pos)
    ensures e == NumberEnd(src, pos) ==> Numeral(src[pos..e])
  {
    hide NumberEnd, Exponent, Mantissa;
    NumberIsNumeral(src, pos);
    var w := src[pos..e];
    if k :| 0 <= k <= |w| && Mantissa(w[..k]) && (k == |w| || Exponent(w[k..])) {
      assert w[..k] == src[pos..pos + k] && w[k..] == src[pos + k..e];
      NumeralInside(src, pos, e, pos + k);
    }
  }

  lemma {:induction false} ExponentHead(x: string)
    requires Exponent(x)
    ensures x != "" && !IsNumPart(x[0])
  {
  }

  lemma {:induction false} MantissaIs(src: string, pos: nat, mid: nat)
    requires StartsNumber(src, pos) && pos <= mid <= |src|
    requires var sign := if src[pos] == '-' then 1 else 0;
             pos + sign < mid && forall i :: pos + sign <= i < mid ==> IsNumPart(src[i])
    ensures Mantissa(src[pos..mid])
  {
  }

  lemma {:induction false} MantissaEnds(src: string, pos: nat, mid: nat)
    requires StartsNumber(src, pos) && pos <= mid <= |src| && Mantissa(src[pos..mid])
    ensures var sign := if src[pos] == '-' then 1 else 0;
            && pos + sign <= mid && (forall i :: pos + sign <= i < mid ==> IsNumPart(src[i]))
            && Skip(IsNumPart, src, pos + sign) >= mid
  {
    var sign := if src[pos] == '-' then 1 else 0;
    var m := src[pos..mid];
    var d := m[sign..];
    assert forall i :: pos + sign <= i < mid ==> src[i] == d[i - pos - sign];
    SkipAtLeast(IsNumPart, src, pos + sign, mid);
  }

  /** A spelling is one number token exactly when it is a numeral. */
  lemma {:induction false} NumberIff(w: string)
    ensures StartsNumber(w, 0) && NumberEnd(w, 0) == |w| <==> Numeral(w)
  {
    hide NumberEnd, Exponent;
    assert w[0..|w|] == w;
    if k :| 0 <= k <= |w| && Mantissa(w[..k]) && (k == |w| || Exponent(w[k..])) {
      assert w[0] == w[..k][0] && (k > 1 ==> w[1] == w[..k][1]);
      NumberLongest(w, 0, |w|);
    } else if StartsNumber(w, 0) && NumberEnd(w, 0) == |w| {
      NumberLongest(w, 0, |w|);
    }
  }

  // ---------------------------------------------------------------------------------------
  // Spelling tokens and reading them back.

  function Doubled(s: string): string {
    if s == "" then "" else (if s[0] == '\'' then "''" else [s[0]]) + Doubled(s[1..])
  }

  /** A token that has a spelling of its own. */
  predicate Spellable(t: Token) {
    match t
    case Ident(text) => IsIdentifier(text)
    case Number(text) => StartsNumber(text, 0) && NumberEnd(text, 0) == |text|
    case Op(text) => IsCompareOp(text)
    case Bad(_) => false
    case _ => true
  }

  function Spelling(t: Token): (w: string)
    requires Spellable(t)
    ensures w != ""
  {
    match t
    case Ident(text) => text
    case Number(text) => text
    case Str(v) => "'" + Doubled(v) + "'"
    case Op(text) => text
    case LParen => "("
    case RParen => ")"
    case Comma => ","
    case Param => "?"
  }

  /** The tokens' spellings, a blank after each. */
  function SpellAll(ts: seq<Token>): string
    requires forall t :: t in ts ==> Spellable(t)
  {
    if ts == [] then "" else Spelling(ts[0]) + " " + SpellAll(ts[1..])
  }

  /** w stands at pos, and a blank follows it. */
  predicate Stands(src: string, pos: nat, w: string)
  {
    pos + |w| < |src| && src[pos..pos + |w|] == w && src[pos + |w|] == ' '
  }

  lemma {:induction false} CharAt(src: string, pos: nat, w: string, i: nat)
    requires Stands(src, pos, w) && i < |w|
    ensures src[pos + i] == w[i]
  {
    assert src[pos..pos + |w|][i] == src[pos + i];
  }

  /** A run of characters of one class stops at the blank after the word, as it would stop at its end. */
  lemma {:induction false} SkipInside(p: char -> bool, src: string, pos: nat, w: string, i: nat)
    requires Stands(src, pos, w) && i <= |w| && !p(' ')
    ensures Skip(p, src, pos + i) == pos + Skip(p, w, i)
  {
    var e := Skip(p, w, i);
    forall k | pos + i <= k < pos + e ensures p(src[k]) { CharAt(src, pos, w, k - pos); }
    if e < |w| { CharAt(src, pos, w, e); }
    SkipIs(p, src, pos + i, pos + e);
  }

  lemma {:induction false} NumberInside(src: string, pos: nat, w: string)
    requires Stands(src, pos, w) && StartsNumber(w, 0) && NumberEnd(w, 0) == |w|
    ensures StartsNumber(src, pos) && NumberEnd(src, pos) == pos + |w|
  {
    hide IsNumPart, ExponentEnd;
    CharAt(src, pos, w, 0);
    if |w| > 1 { CharAt(src, pos, w, 1); }
    NotNumPart();
    var sign := if w[0] == '-' then 1 else 0;
    SkipInside(IsNumPart, src, pos, w, sign);
    ExponentInside(src, pos, w, Skip(IsNumPart, w, sign));
  }

  lemma {:induction false} NotNumPart()
    ensures !IsNumPart(' ')
  {
  }

  lemma {:induction false} ExponentInside(src: string, pos: nat, w: string, i: nat)
    requires Stands(src, pos, w) && i <= |w|
    ensures ExponentEnd(src, pos + i) == pos + ExponentEnd(w, i)
  {
    hide Stands;
    forall k | i <= k < |w| ensures pos + k < |src| && src[pos + k] == w[k] {
      Room(src, pos, w);
      CharAt(src, pos, w, k);
    }
    Room(src, pos, w);
    if i < |w| && (w[i] == 'e' || w[i] == 'E') {
      var at := if i + 1 < |w| && (w[i + 1] == '+' || w[i + 1] == '-') then i + 2 else i + 1;
      SkipInside(IsDigit, src, pos, w, at);
    }
  }

  lemma {:induction false} Room(src: string, pos: nat, w: string)
    requires Stands(src, pos, w)
    ensures pos + |w| < |src| && src[pos + |w|] == ' '
  {
  }

  /** A quoted value stands, doubled and closed, from pos to e, and no third quote follows. */
  lemma {:induction false} StringBack(src: string, pos: nat, v: string)
    requires pos + |Doubled(v)| + 1 <= |src| && src[pos..pos + |Doubled(v)| + 1] == Doubled(v) + "'"
    requires pos + |Doubled(v)| + 1 < |src| ==> src[pos + |Doubled(v)| + 1] != '\''
    ensures StringFrom(src, pos) == Some((v, pos + |Doubled(v)| + 1))
    decreases |v|
  {
    var d := Doubled(v);
    var window := src[pos..pos + |d| + 1];
    if v == "" {
      assert window[0] == '\'';
    } else {
      var k := if v[0] == '\'' then 2 else 1;
      assert d[k..] == Doubled(v[1..]);
      assert src[pos + k..pos + |d| + 1] == window[k..];
      assert (d + "'")[k..] == d[k..] + "'";
      StringBack(src, pos + k, v[1..]);
      assert |d| >= k && (d + "'")[0] == d[0] && (k == 2 ==> (d + "'")[1] == d[1]);
      assert window[0] == d[0] && (k == 2 ==> window[1] == d[1]);
      assert [v[0]] + v[1..] == v;
    }
  }

  lemma {:induction false} StringInside(src: string, pos: nat, v: string)
    requires Stands(src, pos, "'" + Doubled(v) + "'")
    ensures StringToken(src, pos) == (Str(v), pos + |Doubled(v)| + 2)
  {
    var w := "'" + Doubled(v) + "'";
    assert src[pos + 1..pos + |w|] == src[pos..pos + |w|][1..];
    assert w[1..] == Doubled(v) + "'";
    StringBack(src, pos + 1, v);
  }

  lemma {:induction false} IdentInside(src: string, pos: nat, w: string)
    requires Stands(src, pos, w) && IsIdentifier(w)
    ensures LexToken(src, pos) == (Ident(w), pos + |w|)
  {
    CharAt(src, pos, w, 0);
    SkipInside(IsIdentPart, src, pos, w, 0);
    SkipIs(IsIdentPart, w, 0, |w|);
  }

  lemma {:induction false} OpInside(src: string, pos: nat, w: string)
    requires Stands(src, pos, w) && (TwoCharOp(w) || (|w| == 1 && OneCharOp(w[0])))
    ensures LexToken(src, pos) == (Op(w), pos + |w|)
  {
    CharAt(src, pos, w, 0);
    if |w| == 1 {
      assert src[pos..pos + 2][1] == ' ';
      assert !TwoCharOp(src[pos..pos + 2]);
      assert w == [w[0]];
    } else {
      assert |w| == 2;
    }
    assert OpToken(src, pos) == (Op(w), pos + |w|);
    assert !IsIdentStart(w[0]) && !IsDigit(w[0]) && w[0] != '-';
  }

  lemma {:induction false} TokenInside(src: string, pos: nat, t: Token)
    requires Spellable(t) && Stands(src, pos, Spelling(t))
    ensures LexToken(src, pos) == (t, pos + |Spelling(t)|) && !IsSpace(src[pos])
  {
    hide StringToken, QuotedIdent, OpToken, NumberEnd, Skip, IsIdentifier, Doubled;
    var w := Spelling(t);
    CharAt(src, pos, w, 0);
    match t {
      case Ident(text) => IdentInside(src, pos, text); IdentStarts(text);
      case Number(text) => NumberInside(src, pos, text);
      case Str(v) => StringInside(src, pos, v);
      case Op(text) => OpInside(src, pos, text);
      case _ =>
    }
  }

  lemma {:induction false} IdentStarts(s: string)
    requires IsIdentifier(s)
    ensures s != "" && !IsSpace(s[0])
  {
  }

  lemma {:induction false} ReadBack(src: string, pos: nat, ts: seq<Token>)
    requires pos <= |src| && (forall t :: t in ts ==> Spellable(t)) && src[pos..] == SpellAll(ts)
    ensures LexAll(src, pos) == ts
    decreases |ts|
  {
    hide LexToken, Spelling, Spellable, Skip, Stands, IsSpace, LexNext;
    if ts == [] {
      NothingLeft(src);
    } else {
      var w := Spelling(ts[0]);
      var rest := SpellAll(ts[1..]);
      SpelledFirst(src, pos, w, rest);
      NextInside(src, pos, ts[0]);
      var e := pos + |w|;
      ReadBack(src, e + 1, ts[1..]);
      BlankSkipped(src, e);
      Uncons(ts);
    }
  }

  lemma {:induction false} NothingLeft(src: string)
    ensures LexNext(src, |src|) == (None, |src|)
  {
  }

  lemma {:induction false} NextInside(src: string, pos: nat, t: Token)
    requires Spellable(t) && Stands(src, pos, Spelling(t))
    ensures LexNext(src, pos) == (Some(t), pos + |Spelling(t)|) && pos + |Spelling(t)| < |src| &&
            src[pos + |Spelling(t)|] == ' '
  {
    hide LexToken, Spelling, Spellable;
    TokenInside(src, pos, t);
    SkipIs(IsSpace, src, pos, pos);
  }

  lemma {:induction false} BlankSkipped(src: string, e: nat)
    requires e < |src| && src[e] == ' '
    ensures LexAll(src, e) == LexAll(src, e + 1)
  {
    hide LexToken;
  }

  lemma {:induction false} SpelledFirst(src: string, pos: nat, w: string, rest: string)
    requires pos <= |src| && src[pos..] == w + " " + rest
    ensures Stands(src, pos, w) && pos + |w| + 1 <= |src| && src[pos + |w| + 1..] == rest
  {
    var s := src[pos..];
    assert s[..|w|] == w && s[|w|] == ' ' && s[|w| + 1..] == rest;
    assert src[pos..pos + |w|] == s[..|w|] && src[pos + |w|] == s[|w|];
    assert src[pos + |w| + 1..] == s[|w| + 1..];
  }

  /** Every list of spellable tokens, quotes in strings included, reads back as itself. */
  lemma {:induction false} LexRoundTrip(ts: seq<Token>)
    requires forall t :: t in ts ==> Spellable(t)
    ensures LexAll(SpellAll(ts), 0) == ts
  {
    assert SpellAll(ts)[0..] == SpellAll(ts);
    ReadBack(SpellAll(ts), 0, ts);
  }
}
