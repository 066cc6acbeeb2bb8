/** What an encoded cell says of the value it was made from (arrowtype/encode.go). */
module ArrowMeaning {
  import opened Text
  import opened ArrowSpec
  import opened ArrowTheorems

  /** The number a value is, true being 1 and false 0. */
  function NumberOf(v: Value): Option<real> {
    match v
    case IntV(i) => Some(i as real)
    case RealV(Finite(r)) => Some(r)
    case BoolV(b) => Some(if b then 1.0 else 0.0)
    case _ => None
  }

  /** The cell is of the column's kind and stands for the value: the same number, truth value or text. */
  predicate Denotes(k: Kind, c: Cell, v: Value) {
    match k
    case IntK => c.IntC? && NumberOf(v) == Some(c.i as real)
    case RealK => c.RealC? && (if c.f.Finite? then NumberOf(v) == Some(c.f.r) else v == RealV(NonFinite))
    case BoolK => v.BoolV? && c == BoolC(v.b)
    case StringK => if v.StrV? then c == StrC(v.s) else c == Rendered(v)
    case TimeK => c.TimeC? && NumberOf(v) == Some(c.secs as real)
    case OtherK => false
  }

  /** A whole number a double holds exactly together with its neighbours. */
  predicate Whole(f: Float) {
    f.Finite? && f.r == f.r.Floor as real && -9007199254740992.0 <= f.r <= 9007199254740992.0
  }

  predicate NoValue(v: Value) { v == Undefined || v == Error }

  /** The pairs that cannot be stored. */
  predicate Refuses(k: Kind, v: Value) {
    match k
    case IntK => v.StrV? || v.Composite? || (v.RealV? && !Whole(v.f))
    case RealK => v.StrV? || v.Composite?
    case BoolK => !v.BoolV?
    case StringK => false
    case TimeK => v.StrV? || v.Composite? || v.BoolV?
    case OtherK => true
  }

  /** The pairs stored as something else than the value: an integer past 2^53 as a double, an epoch that is not
      a whole number of seconds or is past 2^53. */
  predicate Alters(k: Kind, v: Value) {
    (k == RealK && v.IntV? && !(-9007199254740992 <= v.i <= 9007199254740992)) ||
        (k == TimeK && v.RealV? && !Whole(v.f))
  }

  /** What a lossy cell holds: the integer rounded, or the epoch truncated toward zero where int64 holds it. */
  predicate Approximates(k: Kind, c: Cell, v: Value) {
    if k == RealK then v.IntV? && c == Rounded(v.i)
    else
      && v.RealV?
      && if v.f.NonFinite? || v.f.r >= TWO63 || v.f.r < -TWO63 then c == TimeOdd(v.f)
         else c.TimeC? && if v.f.r >= 0.0 then c.secs as real <= v.f.r < (c.secs + 1) as real
                          else (c.secs - 1) as real < v.f.r <= c.secs as real
  }

  /** The value is of the column's own type. */
  predicate OwnType(k: Kind, v: Value) {
    match k
    case IntK => v.IntV?
    case RealK => v.RealV?
    case BoolK => v.BoolV?
    case StringK => v.StrV?
    case TimeK => v.IntV?
    case OtherK => false
  }

  /** For every kind and value: what is stored, and as what it is counted. */
  lemma {:induction false} EncodeDenotes(k: Kind, v: Value)
    ensures var o := Encode(k, v);
            && (o.Missing? <==> NoValue(v))
            && (o.Missing? ==> o.cause == if v == Undefined then WasUndefined else WasError)
            && (!NoValue(v) ==>
                && (o.Refuse? <==> Refuses(k, v))
                && (o.Lossy? <==> Alters(k, v))
                && (o.Direct? <==> OwnType(k, v))
                && (o.Direct? || o.Exact? ==> Denotes(k, o.cell, v))
                && (o.Lossy? ==> Approximates(k, o.cell, v)))
  {
    if v.RealV? && v.f.Finite? && (k == IntK || k == TimeK) { WholeExact(v.f); }
  }

  lemma {:induction false} WholeExact(f: Float)
    requires f.Finite?
    ensures ExactInt(f).Some? <==> Whole(f)
    ensures Whole(f) ==> ExactInt(f).value as real == f.r && Truncate(f) == TimeC(ExactInt(f).value)
  {
    var n := f.r.Floor;
    if n as real == f.r {
      assert FitsDouble(n) <==> Whole(f);
      assert (-f.r).Floor == -n;
    }
  }

  // ---------------------------------------------------------------------------------------
  // Cells, columns and rows.

  /** What a value leaves in a column of the kind. */
  predicate CellStates(k: Kind, v: Value, c: Cell) {
    if NoValue(v) || Refuses(k, v) then c == Null
    else if Alters(k, v) then Approximates(k, c, v)
    else Denotes(k, c, v)
  }

  lemma {:induction false} EncodeStates(k: Kind, v: Value)
    ensures CellStates(k, v, CellOf(Encode(k, v)))
  {
    hide Encode, Denotes, Approximates, Refuses, Alters, OwnType;
    EncodeDenotes(k, v);
  }

  function Tally(vs: seq<Value>, p: Value -> bool): nat {
    if vs == [] then 0 else Tally(vs[..|vs| - 1], p) + if p(vs[|vs| - 1]) then 1 else 0
  }

  predicate StoredExactly(k: Kind, v: Value) { !NoValue(v) && !Refuses(k, v) && !Alters(k, v) && !OwnType(k, v) }

  /** A column fed values keeps its cells, gains one per value that states it, and counts the values of its own
      type, those converted exactly, those that lost something and those it could not take. */
  lemma {:induction false} ColumnStates(c: Column, vs: seq<Value>)
    ensures var d := PutAll(c, vs); var n := |c.cells|;
            && |d.cells| == n + |vs| && d.cells[..n] == c.cells
            && (forall r :: 0 <= r < |vs| ==> CellStates(c.kind, vs[r], d.cells[n + r]))
            && d.stats.direct == c.stats.direct + Tally(vs, v => OwnType(c.kind, v))
            && d.stats.exact == c.stats.exact + Tally(vs, v => StoredExactly(c.kind, v))
            && d.stats.lossy == c.stats.lossy + Tally(vs, v => Alters(c.kind, v))
            && d.stats.nulls[Uncoercible] ==
               c.stats.nulls[Uncoercible] + Tally(vs, v => !NoValue(v) && Refuses(c.kind, v))
  {
    hide Encode, CellStates, Refuses, Alters, OwnType, Denotes, Approximates;
    var n, m := |c.cells|, |vs|;
    if vs != [] {
      ColumnStates(c, vs[..m - 1]);
      EncodeStates(c.kind, vs[m - 1]);
      EncodeDenotes(c.kind, vs[m - 1]);
      OwnIsKept(c.kind, vs[m - 1]);
      var before, d := PutAll(c, vs[..m - 1]), PutAll(c, vs);
      assert d.cells == before.cells + [CellOf(Encode(c.kind, vs[m - 1]))];
      forall r | 0 <= r < m ensures CellStates(c.kind, vs[r], d.cells[n + r]) {
        if r < m - 1 { assert vs[..m - 1][r] == vs[r]; }
      }
    }
  }

  lemma {:induction false} OwnIsKept(k: Kind, v: Value)
    ensures OwnType(k, v) || Alters(k, v) ==> !NoValue(v) && !Refuses(k, v)
    ensures OwnType(k, v) ==> !Alters(k, v)
  {
  }

  lemma {:induction false} NoFaultNone(cols: seq<Column>, strict: bool, outs: seq<Outcome>, i: nat)
    requires |outs| == |cols| && i < |cols| && FirstFault(cols, strict, outs).None?
    ensures FaultOf(cols[i], strict, outs[i]).None?
  {
    var n := |cols| - 1;
    if i < n { NoFaultNone(cols[..n], strict, outs[..n], i); }
  }

  /** One row of values: every column's new cell states its value, and a strict row without a fault holds each
      value itself, or a null for no value where nulls may be. */
  lemma {:induction false} RowStates(e: Enc, vals: seq<Value>, i: nat)
    requires e.tail.None? && |vals| == |e.cols| && i < |e.cols|
    ensures var (f, fault) := AppendValues(e, vals);
            && |f.cols| == |e.cols| && |f.cols[i].cells| == |e.cols[i].cells| + 1
            && f.cols[i].cells[..|e.cols[i].cells|] == e.cols[i].cells
            && var c := f.cols[i].cells[|e.cols[i].cells|];
              && CellStates(e.cols[i].kind, vals[i], c)
              && (e.strict && fault.None? ==>
                  if NoValue(vals[i]) then c == Null && e.cols[i].nullable else Denotes(e.cols[i].kind, c, vals[i]))
  {
    hide Encode, CellStates, Refuses, Alters, OwnType, Denotes, Approximates;
    var col, outs := e.cols[i], Encoded(e.cols, vals);
    EncodeStates(col.kind, vals[i]);
    EncodeDenotes(col.kind, vals[i]);
    if e.strict && FirstFault(e.cols, e.strict, outs).None? { NoFaultNone(e.cols, e.strict, outs, i); }
  }

  /** A row from an ad: each typed column states the attribute of its name, a missing one as a null. */
  lemma {:induction false} AdStates(e: Enc, ad: Ad, i: nat)
    requires i < |e.cols| && e.tail != Some(i)
    ensures var (f, fault) := Append(e, ad);
            && |f.cols| == |e.cols| && |f.cols[i].cells| == |e.cols[i].cells| + 1
            && f.cols[i].cells[..|e.cols[i].cells|] == e.cols[i].cells
            && var c := f.cols[i].cells[|e.cols[i].cells|];
              match Find(ad, e.cols[i].name)
              case None => c == Null
              case Some(v) => CellStates(e.cols[i].kind, v, c)
  {
    hide Encode, CellStates, Find, TailOutcome, FirstFault;
    var col := e.cols[i];
    if Find(ad, col.name).Some? { EncodeStates(col.kind, Find(ad, col.name).value); }
  }

  /** The value found is the first attribute's whose name is the column's in any case. */
  lemma {:induction false} FindFirst(ad: Ad, name: string)
    ensures Find(ad, name).None? <==> forall k :: 0 <= k < |ad| ==> !EqualFold(ad[k].name, name)
    ensures Find(ad, name).Some? ==>
              exists k :: 0 <= k < |ad| && EqualFold(ad[k].name, name) && Find(ad, name) == Some(ad[k].value) &&
                          forall j :: 0 <= j < k ==> !EqualFold(ad[j].name, name)
  {
    hide EqualFold;
    if ad != [] && !EqualFold(ad[0].name, name) {
      FindFirst(ad[1..], name);
      assert forall k :: 0 <= k < |ad[1..]| ==> ad[1..][k] == ad[k + 1];
      if Find(ad, name).Some? {
        var k :| 0 <= k < |ad[1..]| && EqualFold(ad[1..][k].name, name) &&
            Find(ad[1..], name) == Some(ad[1..][k].value) &&
                 forall j :: 0 <= j < k ==> !EqualFold(ad[1..][j].name, name);
        assert ad[k + 1] == ad[1..][k];
        forall j | 0 <= j < k + 1 ensures !EqualFold(ad[j].name, name) {
          if j > 0 { assert ad[j] == ad[1..][j - 1]; }
        }
      }
    }
  }

  /** A row's fault is its first faulty column's. */
  lemma {:induction false} FirstFaultIs(cols: seq<Column>, strict: bool, outs: seq<Outcome>)
    requires |outs| == |cols|
    ensures FirstFault(cols, strict, outs).None? <==>
            forall i :: 0 <= i < |cols| ==> FaultOf(cols[i], strict, outs[i]).None?
    ensures FirstFault(cols, strict, outs).Some? ==>
              exists i :: 0 <= i < |cols| && FaultOf(cols[i], strict, outs[i]) == FirstFault(cols, strict, outs) &&
                          forall j :: 0 <= j < i ==> FaultOf(cols[j], strict, outs[j]).None?
  {
    hide FaultOf;
    if cols != [] {
      var n := |cols| - 1;
      FirstFaultIs(cols[..n], strict, outs[..n]);
      assert forall i :: 0 <= i < n ==> cols[..n][i] == cols[i] && outs[..n][i] == outs[i];
      if FirstFault(cols[..n], strict, outs[..n]).Some? {
        var i :| 0 <= i < n && FaultOf(cols[..n][i], strict, outs[..n][i]) ==
            FirstFault(cols[..n], strict, outs[..n]) &&
                 forall j :: 0 <= j < i ==> FaultOf(cols[..n][j], strict, outs[..n][j]).None?;
        assert FaultOf(cols[i], strict, outs[i]) == FirstFault(cols, strict, outs);
        assert forall j :: 0 <= j < i ==> FaultOf(cols[j], strict, outs[j]).None?;
      }
    }
  }

  /** What a row reports: a lossy or refused value where the encoder is strict, or a null in a column declared to
      have none, of the first column that has one. */
  lemma {:induction false} RowFault(e: Enc, vals: seq<Value>)
    requires e.tail.None? && |vals| == |e.cols|
    ensures var fault := AppendValues(e, vals).1;
            if fault.None? then forall i :: 0 <= i < |vals| ==> !Faulty(e, vals, i)
            else exists i :: 0 <= i < |vals| && Faulty(e, vals, i) && Reports(e.cols[i], vals[i], fault.value) &&
                             forall j :: 0 <= j < i ==> !Faulty(e, vals, j)
  {
    hide Encode, Refuses, Alters, FirstFault, Denotes, Approximates, OwnType;
    var outs := Encoded(e.cols, vals);
    FirstFaultIs(e.cols, e.strict, outs);
    forall i | 0 <= i < |vals|
      ensures FaultOf(e.cols[i], e.strict, outs[i]).Some? <==> Faulty(e, vals, i)
      ensures Faulty(e, vals, i) ==> Reports(e.cols[i], vals[i], FaultOf(e.cols[i], e.strict, outs[i]).value)
    {
      EncodeDenotes(e.cols[i].kind, vals[i]);
      AltersStored(e.cols[i].kind, vals[i]);
    }
    var fault := AppendValues(e, vals).1;
    if fault.Some? {
      var i :| 0 <= i < |vals| && FaultOf(e.cols[i], e.strict, outs[i]) == fault &&
               forall j :: 0 <= j < i ==> FaultOf(e.cols[j], e.strict, outs[j]).None?;
      assert Faulty(e, vals, i) && Reports(e.cols[i], vals[i], fault.value);
    }
  }

  lemma {:induction false} AltersStored(k: Kind, v: Value)
    ensures Alters(k, v) ==> !Refuses(k, v) && !NoValue(v)
  {
  }

  predicate Faulty(e: Enc, vals: seq<Value>, i: nat)
    requires |vals| == |e.cols| && i < |vals|
  {
    var k, v := e.cols[i].kind, vals[i];
    if NoValue(v) then !e.cols[i].nullable else e.strict && (Refuses(k, v) || Alters(k, v))
  }

  predicate Reports(c: Column, v: Value, f: Fault) {
    if NoValue(v) then f == Violation(c.name, if v == Undefined then WasUndefined else WasError)
    else f == if Alters(c.kind, v) then Fault.Loses(c.name) else Refused(c.name)
  }

  // ---------------------------------------------------------------------------------------
  // The tail.

  /** The texts of the attributes no typed column takes, in the ad's order. */
  function Untaken(ad: Ad, taken: set<string>): seq<string> {
    if ad == [] then []
    else (if Fold(ad[0].name) in taken then [] else [ad[0].text]) + Untaken(ad[1..], taken)
  }

  function Joined(texts: seq<string>): string {
    if texts == [] then "" else texts[0] + (if |texts| == 1 then "" else "; ") + Joined(texts[1..])
  }

  lemma {:induction false} UntakenSnoc(ad: Ad, a: Attr, taken: set<string>)
    ensures Untaken(ad + [a], taken) == Untaken(ad, taken) + if Fold(a.name) in taken then [] else [a.text]
  {
    hide Fold;
    if ad == [] {
      assert [a][1..] == [];
    } else {
      assert (ad + [a])[1..] == ad[1..] + [a];
      UntakenSnoc(ad[1..], a, taken);
    }
  }

  lemma {:induction false} JoinedSnoc(texts: seq<string>, t: string)
    ensures Joined(texts + [t]) == Joined(texts) + (if texts == [] then "" else "; ") + t
  {
    if texts == [] {
      assert [t][1..] == [];
    } else {
      assert (texts + [t])[1..] == texts[1..] + [t];
      JoinedSnoc(texts[1..], t);
    }
  }

  /** The tail cell holds exactly what no typed column takes, as one ad's text. */
  lemma {:induction false} TailStates(ad: Ad, taken: set<string>)
    ensures var texts := Untaken(ad, taken);
            CellOf(TailOutcome(ad, taken)) == if texts == [] then Null else StrC("[ " + Joined(texts) + " ]")
  {
    TailTextIs(ad, taken);
  }

  lemma {:induction false} TailTextIs(ad: Ad, taken: set<string>)
    ensures var texts := Untaken(ad, taken);
            TailText(ad, taken) == if texts == [] then "" else "[ " + Joined(texts)
  {
    hide Fold, Joined, Untaken;
    if ad == [] {
      assert Untaken([], taken) == [] by { UntakenNone(taken); }
    } else {
      var n := |ad| - 1;
      TailTextIs(ad[..n], taken);
      UntakenSnoc(ad[..n], ad[n], taken);
      assert ad == ad[..n] + [ad[n]];
      if Fold(ad[n].name) in taken {
        assert Untaken(ad, taken) == Untaken(ad[..n], taken);
      } else {
        TailGrows(Untaken(ad[..n], taken), ad[n].text);
      }
    }
  }

  lemma {:induction false} UntakenNone(taken: set<string>)
    ensures Untaken([], taken) == []
  {
  }

  lemma {:induction false} TailGrows(texts: seq<string>, t: string)
    ensures "[ " + Joined(texts + [t]) ==
            (if texts == [] then "" else "[ " + Joined(texts)) + (if texts == [] then "[ " else "; ") + t
  {
    hide Joined;
    JoinedSnoc(texts, t);
    if texts == [] {
      assert Joined(texts) == "" by { JoinedNone(); }
    } else {
      Assoc("[ ", Joined(texts), "; " + t);
    }
  }

  lemma {:induction false} JoinedNone()
    ensures Joined([]) == ""
  {
  }

  /** Some typed column has the attribute's name, in any case. */
  predicate TakenBy(e: Enc, name: string) {
    exists j :: 0 <= j < |e.cols| && e.tail != Some(j) && EqualFold(e.cols[j].name, name)
  }

  lemma {:induction false} UntakenIs(e: Enc, ad: Ad)
    ensures Untaken(ad, TypedNames(e)) == Rest(e, ad)
  {
    hide Fold;
    if ad != [] {
      UntakenIs(e, ad[1..]);
      assert Fold(ad[0].name) in TypedNames(e) <==> TakenBy(e, ad[0].name);
    }
  }

  function Rest(e: Enc, ad: Ad): seq<string> {
    if ad == [] then [] else (if TakenBy(e, ad[0].name) then [] else [ad[0].text]) + Rest(e, ad[1..])
  }

  /** The tail column's cell of a row: one ad of the texts of every attribute no typed column has the name of. */
  lemma {:induction false} TailRow(e: Enc, ad: Ad, i: nat)
    requires i < |e.cols| && e.tail == Some(i)
    ensures var f := Append(e, ad).0;
            && |f.cols| == |e.cols|
            && f.cols[i].cells == e.cols[i].cells +
               [if Rest(e, ad) == [] then Null else StrC("[ " + Joined(Rest(e, ad)) + " ]")]
  {
    hide TailOutcome, TypedNames, AdOutcome, FirstFault, Joined, Rest, Untaken;
    TailStates(ad, TypedNames(e));
    UntakenIs(e, ad);
  }
}
