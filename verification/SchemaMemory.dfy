/** The settled column types of one table (flightsvc/columntypes.go) over a history of derivations. */
module SchemaMemory {
  import opened Text

  const RETYPE_AGREEMENT: nat := 3
  const CHANGE_MAX: nat := 64

  /** What a column is published as: the kind's name and whether it admits nulls. */
  datatype Shape = Shape(kind: string, nullable: bool)

  /** A measured or published decision; shape is None for an attribute left untyped. */
  datatype Decision = Decision(name: string, tail: bool, shape: Option<Shape>)

  datatype Pending = Pending(shape: Shape, seen: nat)

  datatype ColumnType = ColumnType(name: string, shape: Shape, pending: Option<Pending>)

  datatype Change = Change(generation: nat, added: seq<string>, retyped: seq<string>)

  datatype TableTypes = TableTypes(generation: nat, columns: seq<ColumnType>, changes: seq<Change>)

  predicate KnownKind(kind: string) { kind in ["int", "real", "bool", "string", "timestamp"] }

  /** columnOf: the shape to remember, if the decision has one. */
  function ColumnOf(d: Decision): Option<Shape> {
    if d.shape.None? || d.tail || !KnownKind(d.shape.value.kind) then None else d.shape
  }

  function SettledDecision(c: ColumnType): Option<Decision> {
    if KnownKind(c.shape.kind) then Some(Decision(c.name, false, Some(Shape(c.shape.kind, true)))) else None
  }

  /** byName: of decisions for one name, the last. */
  function ByName(measured: seq<Decision>, key: string): Option<Decision> {
    if measured == [] then None
    else
      var last := measured[|measured| - 1];
      if !last.tail && Fold(last.name) == key then Some(last) else ByName(measured[..|measured| - 1], key)
  }

  // ---------------------------------------------------------------------------------------
  // One column meets one derivation.

  datatype Observed = Observed(col: ColumnType, publish: Option<Decision>, adopted: bool)

  /** noteRetype, on a shape that is not the settled one. */
  function NoteRetype(col: ColumnType, want: Shape): (ColumnType, bool) {
    if col.pending.None? || col.pending.value.shape != want then (col.(pending := Some(Pending(want, 1))), false)
    else
      var seen := col.pending.value.seen + 1;
      if seen < RETYPE_AGREEMENT then (col.(pending := Some(Pending(want, seen))), false)
      else (ColumnType(col.name, want, None), true)
  }

  function Observe(col: ColumnType, m: Option<Decision>): Observed {
    var want := if m.Some? then ColumnOf(m.value) else None;
    if want.None? then Observed(col, SettledDecision(col), false)
    else if want.value == col.shape then Observed(col.(pending := None), m, false)
    else
      var (c, adopted) := NoteRetype(col, want.value);
      Observed(c, if adopted then m else SettledDecision(c), adopted)
  }

  // ---------------------------------------------------------------------------------------
  // One derivation.

  function ObserveAll(cols: seq<ColumnType>, measured: seq<Decision>): (r: seq<Observed>)
    ensures |r| == |cols|
  {
    seq(|cols|, i requires 0 <= i < |cols| => Observe(cols[i], ByName(measured, Fold(cols[i].name))))
  }

  function Columns(obs: seq<Observed>): (r: seq<ColumnType>)
    ensures |r| == |obs|
  {
    seq(|obs|, i requires 0 <= i < |obs| => obs[i].col)
  }

  function Publishes(obs: seq<Observed>): seq<Decision> {
    if obs == [] then []
    else
      var last := obs[|obs| - 1];
      Publishes(obs[..|obs| - 1]) + if last.publish.Some? then [last.publish.value] else []
  }

  function AdoptedNames(obs: seq<Observed>): seq<string> {
    if obs == [] then []
    else
      var last := obs[|obs| - 1];
      AdoptedNames(obs[..|obs| - 1]) + if last.adopted then [last.col.name] else []
  }

  /** The columns, the published decisions and the names met while new attributes are taken in. */
  datatype Growing = Growing(cols: seq<ColumnType>, out: seq<Decision>, met: set<string>, added: seq<string>)

  function TakeNew(g: Growing, m: Decision, limit: nat, private: bool): Growing {
    if m.tail || Fold(m.name) in g.met then g
    else
      var g1 := g.(out := g.out + [m], met := g.met + {Fold(m.name)});
      if private || |g.cols| >= limit || ColumnOf(m).None? then g1
      else g1.(cols := g.cols + [ColumnType(m.name, ColumnOf(m).value, None)], added := g.added + [m.name])
  }

  function TakeAllNew(g: Growing, measured: seq<Decision>, limit: nat, private: bool): Growing {
    if measured == [] then g
    else TakeNew(TakeAllNew(g, measured[..|measured| - 1], limit, private), measured[|measured| - 1], limit, private)
  }

  function NameSet(cols: seq<ColumnType>): set<string> { set c | c in cols :: Fold(c.name) }

  function Tail(measured: seq<Decision>): seq<Decision> {
    if measured == [] then []
    else if measured[|measured| - 1].tail then [measured[|measured| - 1]]
    else Tail(measured[..|measured| - 1])
  }

  function LastOf(changes: seq<Change>): seq<Change> {
    if |changes| > CHANGE_MAX then changes[|changes| - CHANGE_MAX..] else changes
  }

  function RecordChange(t: TableTypes, added: seq<string>, adopted: seq<string>): TableTypes {
    if added == [] && adopted == [] then t
    else t.(generation := t.generation + 1, changes := LastOf(t.changes + [Change(t.generation + 1, added, adopted)]))
  }

  function Start(t: TableTypes, measured: seq<Decision>): Growing {
    var obs := ObserveAll(t.columns, measured);
    Growing(Columns(obs), Publishes(obs), NameSet(t.columns), [])
  }

  /** reconcile: the table's new memory, and what is published. */
  function Reconcile(t: TableTypes, limit: nat, measured: seq<Decision>, private: bool): (TableTypes, seq<Decision>) {
    var g := TakeAllNew(Start(t, measured), measured, limit, private);
    (RecordChange(t.(columns := g.cols), g.added, AdoptedNames(ObserveAll(t.columns, measured))),
     g.out + Tail(measured))
  }

  // ---------------------------------------------------------------------------------------
  // When a column is retyped.

  /** The rule, told by the history alone: three typed measurements in a row of one other shape. */
  function Settled(first: Shape, typed: seq<Shape>): Shape {
    if typed == [] then first
    else
      var n := |typed| - 1;
      var before := Settled(first, typed[..n]);
      if n >= 2 && typed[n - 1] == typed[n] && typed[n - 2] == typed[n] then typed[n] else before
  }

  /** How many measurements at the end of the history agree on the last one. */
  function Agreeing(typed: seq<Shape>): nat {
    if typed == [] then 0
    else
      var n := |typed| - 1;
      if n > 0 && typed[n - 1] == typed[n] then Agreeing(typed[..n]) + 1 else 1
  }

  /** What the column must be after a history. */
  function Expected(name: string, first: Shape, typed: seq<Shape>): ColumnType {
    var now := Settled(first, typed);
    if typed == [] || typed[|typed| - 1] == now then ColumnType(name, now, None)
    else ColumnType(name, now, Some(Pending(typed[|typed| - 1], Agreeing(typed))))
  }

  lemma {:induction false} FewAgree(first: Shape, typed: seq<Shape>)
    requires typed != [] && typed[|typed| - 1] != Settled(first, typed)
    ensures 1 <= Agreeing(typed) <= 2
    ensures Agreeing(typed) == 2 <==> |typed| >= 2 && typed[|typed| - 2] == typed[|typed| - 1]
  {
    var n := |typed| - 1;
    if n > 0 && typed[n - 1] == typed[n] {
      var t := typed[..n];
      assert t[n - 1] == typed[n - 1];
      if n > 1 {
        assert t[n - 2] == typed[n - 2];
      }
    }
  }

  /** One more typed measurement. */
  lemma {:induction false} ObserveStep(name: string, first: Shape, typed: seq<Shape>, d: Decision)
    requires ColumnOf(d).Some?
    ensures Observe(Expected(name, first, typed), Some(d)).col == Expected(name, first, typed + [ColumnOf(d).value])
  {
    hide ColumnOf, SettledDecision;
    var x := ColumnOf(d).value;
    var more := typed + [x];
    var n := |typed|;
    assert more[..n] == typed;
    var now := Settled(first, typed);
    if n > 0 && typed[n - 1] != now {
      FewAgree(first, typed);
    }
    if n >= 2 {
      assert more[n - 1] == typed[n - 1] && more[n - 2] == typed[n - 2];
      var t := typed[..n - 1];
      if typed[n - 1] == typed[n - 2] == x && x != now {
        FewAgree(first, typed);
      }
    }
  }

  datatype Derivation = Derivation(measured: seq<Decision>, private: bool)

  /** The shapes a history measured for one name, samples without the attribute or a type left out. */
  function Measured(run: seq<Derivation>, key: string): seq<Shape> {
    if run == [] then []
    else
      var m := ByName(run[|run| - 1].measured, key);
      var before := Measured(run[..|run| - 1], key);
      if m.Some? && ColumnOf(m.value).Some? then before + [ColumnOf(m.value).value] else before
  }

  function History(t: TableTypes, limit: nat, run: seq<Derivation>): TableTypes {
    if run == [] then t
    else
      var d := run[|run| - 1];
      Reconcile(History(t, limit, run[..|run| - 1]), limit, d.measured, d.private).0
  }

  lemma {:induction false} TakeAllKeeps(g: Growing, measured: seq<Decision>, limit: nat, private: bool)
    ensures var h := TakeAllNew(g, measured, limit, private);
            && |g.cols| <= |h.cols| && h.cols[..|g.cols|] == g.cols
            && |g.out| <= |h.out| && h.out[..|g.out|] == g.out
            && (private ==> h.cols == g.cols)
            && |h.added| - |g.added| == |h.cols| - |g.cols|
  {
    hide Fold, ColumnOf;
    if measured != [] {
      TakeAllKeeps(g, measured[..|measured| - 1], limit, private);
    }
  }

  /** A derivation leaves each remembered column in its place and shows it that derivation's measurement. */
  lemma {:induction false} ReconcileColumn(t: TableTypes, limit: nat, measured: seq<Decision>, private: bool, i: nat)
    requires i < |t.columns|
    ensures var t1 := Reconcile(t, limit, measured, private).0;
            && |t.columns| <= |t1.columns|
            && t1.columns[i] == Observe(t.columns[i], ByName(measured, Fold(t.columns[i].name))).col
  {
    hide Fold, Observe, ByName, Publishes, AdoptedNames;
    TakeAllKeeps(Start(t, measured), measured, limit, private);
    var g := TakeAllNew(Start(t, measured), measured, limit, private);
    assert g.cols[..|t.columns|][i] == g.cols[i];
  }

  /** Over any history, a column just remembered holds the type of the last three typed measurements to
      agree, and evidence only from the measurements since; absent and untyped samples do not count. */
  lemma {:induction false} RetypeExact(t: TableTypes, limit: nat, run: seq<Derivation>, i: nat)
    requires i < |t.columns| && t.columns[i].pending.None?
    ensures var h := History(t, limit, run); var c := t.columns[i];
            |t.columns| <= |h.columns| && h.columns[i] == Expected(c.name, c.shape, Measured(run, Fold(c.name)))
  {
    hide Fold, ByName, Reconcile, ColumnOf;
    var c := t.columns[i];
    if run != [] {
      var n := |run| - 1;
      RetypeExact(t, limit, run[..n], i);
      var before := History(t, limit, run[..n]);
      var typed := Measured(run[..n], Fold(c.name));
      ReconcileColumn(before, limit, run[n].measured, run[n].private, i);
      var m := ByName(run[n].measured, Fold(c.name));
      assert before.columns[i].name == c.name;
      if m.Some? && ColumnOf(m.value).Some? {
        ObserveStep(c.name, c.shape, typed, m.value);
      } else {
        ObserveNothing(before.columns[i], m);
      }
    }
  }

  lemma {:induction false} ObserveNothing(col: ColumnType, m: Option<Decision>)
    requires m.Some? ==> ColumnOf(m.value).None?
    ensures Observe(col, m).col == col
  {
  }

  // ---------------------------------------------------------------------------------------
  // The generation.

  function Shapes(cols: seq<ColumnType>): (r: seq<(string, Shape)>)
    ensures |r| == |cols|
  {
    seq(|cols|, i requires 0 <= i < |cols| => (cols[i].name, cols[i].shape))
  }

  lemma {:induction false} AdoptedSome(obs: seq<Observed>)
    ensures AdoptedNames(obs) == [] <==> forall i :: 0 <= i < |obs| ==> !obs[i].adopted
  {
    if obs != [] {
      AdoptedSome(obs[..|obs| - 1]);
    }
  }

  lemma {:induction false} AdoptedMeansNew(col: ColumnType, m: Option<Decision>)
    ensures Observe(col, m).adopted <==> Observe(col, m).col.shape != col.shape
    ensures Observe(col, m).col.name == col.name
  {
  }

  /** The generation rises by one exactly when the remembered names and types changed. */
  lemma {:induction false} GenerationExact(t: TableTypes, limit: nat, measured: seq<Decision>, private: bool)
    ensures var t1 := Reconcile(t, limit, measured, private).0;
            t1.generation == t.generation + if Shapes(t1.columns) == Shapes(t.columns) then 0 else 1
  {
    hide Fold, Observe, ByName, Publishes, AdoptedNames;
    var g0 := Start(t, measured);
    var g := TakeAllNew(g0, measured, limit, private);
    TakeAllKeeps(g0, measured, limit, private);
    var obs := ObserveAll(t.columns, measured);
    AdoptedSome(obs);
    forall i | 0 <= i < |obs| ensures obs[i].adopted <==> obs[i].col.shape != t.columns[i].shape
                              ensures obs[i].col.name == t.columns[i].name
    {
      AdoptedMeansNew(t.columns[i], ByName(measured, Fold(t.columns[i].name)));
    }
    var same := Shapes(g.cols) == Shapes(t.columns);
    if g.added == [] {
      assert g.cols == Columns(obs);
      forall i | 0 <= i < |obs| ensures Shapes(g.cols)[i] == Shapes(t.columns)[i] <==> !obs[i].adopted { }
      if AdoptedNames(obs) != [] {
        var i :| 0 <= i < |obs| && obs[i].adopted;
        assert Shapes(g.cols)[i] != Shapes(t.columns)[i];
      }
    } else {
      assert |Shapes(g.cols)| > |Shapes(t.columns)|;
    }
  }

  /** The log names the last generations, at most 64 of them, one each. */
  predicate LogCurrent(t: TableTypes) {
    && |t.changes| == (if t.generation < 64 then t.generation else 64)
    && forall i :: 0 <= i < |t.changes| ==> t.changes[i].generation == t.generation - |t.changes| + 1 + i
  }

  lemma {:induction false} LogKept(t: TableTypes, limit: nat, measured: seq<Decision>, private: bool)
    requires LogCurrent(t)
    ensures LogCurrent(Reconcile(t, limit, measured, private).0)
  {
    hide TakeAllNew, AdoptedNames, ObserveAll, Start, Tail;
  }

  // ---------------------------------------------------------------------------------------
  // What is published.

  function Names(cols: seq<ColumnType>): (r: seq<string>)
    ensures |r| == |cols|
  {
    seq(|cols|, i requires 0 <= i < |cols| => Fold(cols[i].name))
  }

  /** The folded names of the typed columns published, tail aside. */
  function TypedNames(out: seq<Decision>): seq<string> {
    if out == [] then []
    else
      var last := out[|out| - 1];
      TypedNames(out[..|out| - 1]) + if last.tail || last.shape.None? then [] else [Fold(last.name)]
  }

  predicate KnownColumns(cols: seq<ColumnType>) { forall i :: 0 <= i < |cols| ==> KnownShape(cols[i]) }

  /** The settled kind and any candidate for it are kinds this build knows. */
  predicate KnownShape(c: ColumnType) {
    KnownKind(c.shape.kind) && (c.pending.Some? ==> KnownKind(c.pending.value.shape.kind))
  }

  predicate KnownMeasure(measured: seq<Decision>) {
    forall i :: 0 <= i < |measured| && !measured[i].tail && measured[i].shape.Some? ==>
        KnownKind(measured[i].shape.value.kind)
  }

  lemma {:induction false} ByNameFound(measured: seq<Decision>, key: string)
    ensures ByName(measured, key).Some? ==>
            !ByName(measured, key).value.tail && Fold(ByName(measured, key).value.name) == key
  {
    hide Fold;
    if measured != [] { ByNameFound(measured[..|measured| - 1], key); }
  }

  lemma {:induction false} ObservePublishes(col: ColumnType, m: Option<Decision>)
    requires KnownShape(col) && (m.Some? ==> !m.value.tail && Fold(m.value.name) == Fold(col.name))
    ensures var o := Observe(col, m);
            && o.publish.Some? && !o.publish.value.tail && o.publish.value.shape.Some?
            && Fold(o.publish.value.name) == Fold(col.name)
            && KnownShape(o.col) && o.col.name == col.name
  {
    hide Fold, KnownKind;
  }

  lemma {:induction false} SettledPublished(cols: seq<ColumnType>, measured: seq<Decision>)
    requires KnownColumns(cols)
    ensures TypedNames(Publishes(ObserveAll(cols, measured))) == Names(cols)
    ensures KnownColumns(Columns(ObserveAll(cols, measured)))
    ensures Names(Columns(ObserveAll(cols, measured))) == Names(cols)
    decreases |cols|
  {
    hide Fold, Observe, ByName, KnownShape;
    var obs := ObserveAll(cols, measured);
    if cols != [] {
      var n := |cols| - 1;
      SettledPublished(cols[..n], measured);
      assert obs[..n] == ObserveAll(cols[..n], measured);
      var key := Fold(cols[n].name);
      ByNameFound(measured, key);
      ObservePublishes(cols[n], ByName(measured, key));
      var before := Publishes(obs[..n]);
      assert Publishes(obs) == before + [obs[n].publish.value];
      assert Publishes(obs)[..|before|] == before;
      assert Names(cols) == Names(cols[..n]) + [key];
      forall i | 0 <= i < |cols| ensures KnownShape(Columns(obs)[i]) && Names(Columns(obs))[i] == Names(cols)[i] {
        if i < n {
          assert Columns(obs)[i] == Columns(obs[..n])[i];
          assert Names(Columns(obs[..n]))[i] == Names(cols[..n])[i];
        }
      }
    }
  }

  lemma {:induction false} TypedNamesConcat(a: seq<Decision>, b: seq<Decision>)
    ensures TypedNames(a + b) == TypedNames(a) + TypedNames(b)
    decreases |b|
  {
    hide Fold;
    if b == [] {
      assert a + b == a;
    } else {
      var n := |b| - 1;
      TypedNamesConcat(a, b[..n]);
      assert (a + b)[..|a + b| - 1] == a + b[..n];
    }
  }

  lemma {:induction false} TailUntyped(measured: seq<Decision>)
    ensures TypedNames(Tail(measured)) == []
  {
    if measured != [] && !measured[|measured| - 1].tail {
      TailUntyped(measured[..|measured| - 1]);
    } else if measured != [] {
      var t := measured[|measured| - 1];
      assert [t][..0] == [];
    }
  }

  /** New attributes: while the limit is not met, what is published typed is what is remembered. */
  lemma {:induction false} NewPublished(g: Growing, measured: seq<Decision>, limit: nat, private: bool)
    requires TypedNames(g.out) == Names(g.cols) && KnownMeasure(measured) && KnownColumns(g.cols)
    ensures var h := TakeAllNew(g, measured, limit, private);
            && KnownColumns(h.cols) && |g.cols| <= |h.cols|
            && Names(h.cols)[..|g.cols|] == Names(g.cols)
            && (!private && |h.cols| < limit ==> TypedNames(h.out) == Names(h.cols))
            && |TypedNames(h.out)| >= |g.cols| && TypedNames(h.out)[..|g.cols|] == Names(g.cols)
  {
    hide Fold, KnownKind, TakeNew, KnownColumns, TypedNames;
    if measured != [] {
      var n := |measured| - 1;
      NewPublished(g, measured[..n], limit, private);
      var h := TakeAllNew(g, measured[..n], limit, private);
      NewOne(h, measured[n], limit, private);
    }
  }

  lemma {:induction false} NewOne(h: Growing, m: Decision, limit: nat, private: bool)
    requires KnownColumns(h.cols) && (m.tail || m.shape.None? || KnownKind(m.shape.value.kind))
    ensures var h1 := TakeNew(h, m, limit, private);
            && KnownColumns(h1.cols)
            && |h.cols| <= |h1.cols| && Names(h1.cols)[..|h.cols|] == Names(h.cols)
            && (TypedNames(h.out) == Names(h.cols) && !private && |h1.cols| < limit ==>
                TypedNames(h1.out) == Names(h1.cols))
            && |TypedNames(h.out)| <= |TypedNames(h1.out)| &&
                TypedNames(h1.out)[..|TypedNames(h.out)|] == TypedNames(h.out)
  {
    hide Fold, KnownKind;
    var h1 := TakeNew(h, m, limit, private);
    if h1 != h {
      assert h1.out[..|h.out|] == h.out;
    }
  }

  ghost predicate Prefix<T>(a: seq<T>, b: seq<T>) { |a| <= |b| && b[..|a|] == a }

  /** One derivation: published names begin with the settled list, and are it, for an unprivileged reader
      below the limit. */
  lemma {:induction false} Published(t: TableTypes, limit: nat, measured: seq<Decision>, private: bool)
    requires KnownColumns(t.columns) && KnownMeasure(measured)
    ensures var (t1, out) := Reconcile(t, limit, measured, private);
            && KnownColumns(t1.columns)
            && Prefix(Names(t.columns), Names(t1.columns))
            && Prefix(Names(t.columns), TypedNames(out))
            && (!private && |t1.columns| < limit ==> TypedNames(out) == Names(t1.columns))
  {
    hide Fold, KnownKind, Observe, ByName, TypedNames, KnownShape;
    var g := Start(t, measured);
    SettledPublished(t.columns, measured);
    NewPublished(g, measured, limit, private);
    var h := TakeAllNew(g, measured, limit, private);
    TypedNamesConcat(h.out, Tail(measured));
    TailUntyped(measured);
    assert TypedNames(h.out) + [] == TypedNames(h.out);
  }

  lemma {:induction false} HistoryNames(t: TableTypes, limit: nat, run: seq<Derivation>)
    requires KnownColumns(t.columns) && forall i :: 0 <= i < |run| ==> KnownMeasure(run[i].measured)
    ensures var h := History(t, limit, run); KnownColumns(h.columns) && Prefix(Names(t.columns), Names(h.columns))
  {
    hide Fold, KnownColumns, Reconcile, KnownMeasure;
    if run != [] {
      var n := |run| - 1;
      HistoryNames(t, limit, run[..n]);
      var b := History(t, limit, run[..n]);
      Published(b, limit, run[n].measured, run[n].private);
      var h := History(t, limit, run);
      assert Names(h.columns)[..|t.columns|] == Names(h.columns)[..|b.columns|][..|t.columns|];
    }
  }

  /** Names an unprivileged reader was shown stay, in order, at the head of what any later reader is shown,
      whatever derivations lie between. */
  lemma {:induction false} SchemaOnlyGrows(t: TableTypes, limit: nat, first: seq<Decision>, between: seq<Derivation>,
                                           later: Derivation)
    requires KnownColumns(t.columns) && KnownMeasure(first) && KnownMeasure(later.measured)
    requires forall i :: 0 <= i < |between| ==> KnownMeasure(between[i].measured)
    requires |Reconcile(t, limit, first, false).0.columns| < limit
    ensures var (t1, shown) := Reconcile(t, limit, first, false);
            var t2 := History(t1, limit, between);
            Prefix(TypedNames(shown), TypedNames(Reconcile(t2, limit, later.measured, later.private).1))
  {
    hide Fold, KnownColumns, Reconcile, KnownMeasure, TypedNames;
    Published(t, limit, first, false);
    var (t1, shown) := Reconcile(t, limit, first, false);
    HistoryNames(t1, limit, between);
    var t2 := History(t1, limit, between);
    Published(t2, limit, later.measured, later.private);
    var (t3, out) := Reconcile(t2, limit, later.measured, later.private);
    var a, b := Names(t1.columns), TypedNames(out);
    assert b[..|a|] == b[..|t2.columns|][..|a|];
  }

  // ---------------------------------------------------------------------------------------
  // Spelling.

  /** A sample about to replace the settled type. */
  predicate AboutToAdopt(col: ColumnType, want: Shape) {
    && want != col.shape && col.pending.Some? && col.pending.value.shape == want
    && col.pending.value.seen + 1 >= RETYPE_AGREEMENT
  }

  /** The sample does not speak for the column: it lacks the name, leaves it untyped, or measures a type
      that has not been adopted. */
  predicate SampleYields(col: ColumnType, measured: seq<Decision>) {
    var m := ByName(measured, Fold(col.name));
    m.None? || ColumnOf(m.value).None? ||
    (ColumnOf(m.value).value != col.shape && !AboutToAdopt(col, ColumnOf(m.value).value))
  }

  lemma {:induction false} PublishesAt(obs: seq<Observed>, i: nat)
    requires i < |obs| && forall k :: 0 <= k < |obs| ==> obs[k].publish.Some?
    ensures |Publishes(obs)| == |obs| && Publishes(obs)[i] == obs[i].publish.value
    decreases |obs|
  {
    var n := |obs| - 1;
    if n > 0 { PublishesAt(obs[..n], if i < n then i else 0); }
  }

  /** What a derivation publishes at a settled column's place. */
  lemma {:induction false} PublishedAt(t: TableTypes, limit: nat, measured: seq<Decision>, private: bool, i: nat)
    requires KnownColumns(t.columns) && i < |t.columns|
    ensures var out := Reconcile(t, limit, measured, private).1;
            var o := Observe(t.columns[i], ByName(measured, Fold(t.columns[i].name)));
            |out| >= |t.columns| && o.publish == Some(out[i]) && Fold(out[i].name) == Fold(t.columns[i].name)
  {
    hide Fold, KnownKind, Observe, ByName, KnownShape, AdoptedNames, Tail;
    var obs := ObserveAll(t.columns, measured);
    forall k | 0 <= k < |obs| ensures obs[k].publish.Some? &&
        Fold(obs[k].publish.value.name) == Fold(t.columns[k].name) {
      ByNameFound(measured, Fold(t.columns[k].name));
      ObservePublishes(t.columns[k], ByName(measured, Fold(t.columns[k].name)));
    }
    PublishesAt(obs, i);
    TakeAllKeeps(Start(t, measured), measured, limit, private);
    var g := TakeAllNew(Start(t, measured), measured, limit, private);
    assert g.out[..|obs|][i] == g.out[i];
  }

  /** Only folded names are stable: what stands at a settled column's place is spelled as remembered exactly
      when the sample does not speak for the column, or spells it the same. */
  lemma {:induction false} SpellingIff(t: TableTypes, limit: nat, measured: seq<Decision>, private: bool, i: nat)
    requires KnownColumns(t.columns) && i < |t.columns|
    ensures var (out, col) := (Reconcile(t, limit, measured, private).1, t.columns[i]);
            && |out| >= |t.columns| && Fold(out[i].name) == Fold(col.name)
            && (out[i].name == col.name <==>
                SampleYields(col, measured) || ByName(measured, Fold(col.name)).value.name == col.name)
  {
    hide Fold, KnownKind, Observe, ByName, KnownShape, Reconcile, SampleYields;
    PublishedAt(t, limit, measured, private, i);
    ObserveSpelling(t.columns[i], measured);
  }

  lemma {:induction false} ObserveSpelling(col: ColumnType, measured: seq<Decision>)
    requires KnownShape(col)
    ensures var m := ByName(measured, Fold(col.name));
            var o := Observe(col, m);
            o.publish.Some? &&
            (o.publish.value.name == col.name <==> SampleYields(col, measured) || m.value.name == col.name)
  {
    hide Fold, KnownKind, ByName;
  }

  lemma {:induction false} ObserveType(col: ColumnType, measured: seq<Decision>)
    requires KnownShape(col)
    ensures var o := Observe(col, ByName(measured, Fold(col.name)));
            && o.publish.Some? && !o.publish.value.tail && o.publish.value.shape.Some?
            && o.publish.value.shape.value.kind == o.col.shape.kind
            && o.publish.value.shape.value.nullable == (SampleYields(col, measured) || o.col.shape.nullable)
            && (SampleYields(col, measured) ==> o.col.shape == col.shape)
  {
    hide Fold, KnownKind, ByName;
  }

  /** A settled column is published with the kind the memory holds for it after the call: nullable where the
      sample does not speak for it, and as remembered where it does. */
  lemma {:induction false} PublishedType(t: TableTypes, limit: nat, measured: seq<Decision>, private: bool, i: nat)
    requires KnownColumns(t.columns) && i < |t.columns|
    ensures var (t1, out) := Reconcile(t, limit, measured, private);
            && |out| >= |t.columns| && |t1.columns| >= |t.columns|
            && !out[i].tail && out[i].shape.Some? && out[i].shape.value.kind == t1.columns[i].shape.kind
            && out[i].shape.value.nullable == (SampleYields(t.columns[i], measured) || t1.columns[i].shape.nullable)
            && (SampleYields(t.columns[i], measured) ==> t1.columns[i].shape == t.columns[i].shape)
  {
    hide Fold, KnownKind, Observe, ByName, KnownShape, Reconcile, SampleYields;
    PublishedAt(t, limit, measured, private, i);
    ReconcileColumn(t, limit, measured, private, i);
    ObserveType(t.columns[i], measured);
  }

  /** Every attribute taken into the memory is published as measured, beyond the settled columns. */
  ghost predicate TakenIn(g: Growing, measured: seq<Decision>, n: nat, j: nat)
    requires j < |g.cols|
  {
    exists k :: n <= k < |g.out| && g.out[k] in measured && g.out[k].name == g.cols[j].name &&
                ColumnOf(g.out[k]) == Some(g.cols[j].shape)
  }

  lemma {:induction false} NewTaken(g: Growing, measured: seq<Decision>, limit: nat, private: bool, j: nat)
    requires var h := TakeAllNew(g, measured, limit, private); |g.cols| <= j < |h.cols|
    ensures TakenIn(TakeAllNew(g, measured, limit, private), measured, |g.out|, j)
  {
    hide Fold, ColumnOf;
    if measured != [] {
      var n := |measured| - 1;
      var m, before := measured[n], TakeAllNew(g, measured[..n], limit, private);
      var h := TakeAllNew(g, measured, limit, private);
      TakeAllKeeps(g, measured[..n], limit, private);
      if j < |before.cols| {
        NewTaken(g, measured[..n], limit, private, j);
        var k :| |g.out| <= k < |before.out| && before.out[k] in measured[..n] &&
                 before.out[k].name == before.cols[j].name && ColumnOf(before.out[k]) == Some(before.cols[j].shape);
        assert h.out[k] == before.out[k] && h.cols[j] == before.cols[j];
        assert TakenIn(h, measured, |g.out|, j);
      } else {
        var k := |before.out|;
        assert h.out[k] == m && m in measured && h.cols[j].name == m.name;
        assert TakenIn(h, measured, |g.out|, j);
      }
    }
  }

  /** A column remembered for the first time is published by that very derivation, as it was measured. */
  lemma {:induction false} NewColumnPublished(t: TableTypes, limit: nat, measured: seq<Decision>, private: bool, j: nat)
    requires KnownColumns(t.columns)
    requires var t1 := Reconcile(t, limit, measured, private).0; |t.columns| <= j < |t1.columns|
    ensures var (t1, out) := Reconcile(t, limit, measured, private);
            && t1.columns[j].pending.None?
            && exists k :: |t.columns| <= k < |out| && out[k] in measured && out[k].name == t1.columns[j].name &&
                           ColumnOf(out[k]) == Some(t1.columns[j].shape)
  {
    hide Fold, KnownKind, Observe, ByName, KnownShape, AdoptedNames, Tail, ColumnOf;
    var g0 := Start(t, measured);
    var g := TakeAllNew(g0, measured, limit, private);
    PublishesLength(t, measured);
    NewTaken(g0, measured, limit, private, j);
    NewFresh(g0, measured, limit, private, j);
    var k :| |g0.out| <= k < |g.out| && g.out[k] in measured && g.out[k].name == g.cols[j].name &&
             ColumnOf(g.out[k]) == Some(g.cols[j].shape);
    var out := Reconcile(t, limit, measured, private).1;
    assert out[k] == g.out[k];
  }

  lemma {:induction false} NewFresh(g: Growing, measured: seq<Decision>, limit: nat, private: bool, j: nat)
    requires var h := TakeAllNew(g, measured, limit, private); |g.cols| <= j < |h.cols|
    ensures TakeAllNew(g, measured, limit, private).cols[j].pending.None?
  {
    hide Fold, ColumnOf;
    if measured != [] {
      var n := |measured| - 1;
      if j < |TakeAllNew(g, measured[..n], limit, private).cols| { NewFresh(g, measured[..n], limit, private, j); }
    }
  }

  lemma {:induction false} PublishesLength(t: TableTypes, measured: seq<Decision>)
    requires KnownColumns(t.columns)
    ensures |Publishes(ObserveAll(t.columns, measured))| == |t.columns|
  {
    hide Fold, KnownKind, Observe, ByName, KnownShape;
    var obs := ObserveAll(t.columns, measured);
    forall k | 0 <= k < |obs| ensures obs[k].publish.Some? {
      ByNameFound(measured, Fold(t.columns[k].name));
      ObservePublishes(t.columns[k], ByName(measured, Fold(t.columns[k].name)));
    }
    if obs != [] { PublishesAt(obs, 0); }
  }

  /** Over any history: the kind published for a column just remembered is the one the last three typed
      measurements to agree had, this sample's included, so it changes only when the rule does. */
  lemma {:induction false} PublishedRule(t: TableTypes, limit: nat, run: seq<Derivation>, d: Derivation, i: nat)
    requires KnownColumns(t.columns) && i < |t.columns| && t.columns[i].pending.None?
    requires forall k :: 0 <= k < |run| ==> KnownMeasure(run[k].measured)
    ensures var c, out := t.columns[i], Reconcile(History(t, limit, run), limit, d.measured, d.private).1;
            && i < |out| && out[i].shape.Some? && Fold(out[i].name) == Fold(c.name)
            && out[i].shape.value.kind == Settled(c.shape, Measured(run + [d], Fold(c.name))).kind
  {
    hide Fold, KnownColumns, Reconcile, KnownMeasure, Settled, Measured, Agreeing;
    var h := History(t, limit, run);
    HistoryNames(t, limit, run);
    PublishedType(h, limit, d.measured, d.private, i);
    PublishedAt(h, limit, d.measured, d.private, i);
    RetypeExact(t, limit, run + [d], i);
    assert (run + [d])[..|run|] == run;
    assert Names(h.columns)[..|t.columns|][i] == Names(t.columns)[i];
  }

  // ---------------------------------------------------------------------------------------
  // What a generation is for, how much is remembered, and the tail.

  /** The names of the first n columns whose shape moved. */
  function Retyped(before: seq<ColumnType>, after: seq<ColumnType>, n: nat): seq<string>
    requires n <= |before| && n <= |after|
  {
    if n == 0 then []
    else
      Retyped(before, after, n - 1) +
      if before[n - 1].shape != after[n - 1].shape then [before[n - 1].name] else []
  }

  function NamesFrom(cols: seq<ColumnType>, n: nat): seq<string>
    requires n <= |cols|
    decreases |cols| - n
  {
    if n == |cols| then [] else [cols[n].name] + NamesFrom(cols, n + 1)
  }

  lemma {:induction false} AdoptedIs(cols: seq<ColumnType>, measured: seq<Decision>, n: nat)
    requires n <= |cols|
    ensures var obs := ObserveAll(cols, measured); AdoptedNames(obs[..n]) == Retyped(cols, Columns(obs), n)
  {
    hide Fold, Observe, ByName;
    if n > 0 {
      var obs := ObserveAll(cols, measured);
      AdoptedIs(cols, measured, n - 1);
      assert obs[..n][..n - 1] == obs[..n - 1];
      AdoptedMeansNew(cols[n - 1], ByName(measured, Fold(cols[n - 1].name)));
    }
  }

  lemma {:induction false} NamesFromSnoc(cols: seq<ColumnType>, c: ColumnType, n: nat)
    requires n <= |cols|
    ensures NamesFrom(cols + [c], n) == NamesFrom(cols, n) + [c.name]
    decreases |cols| - n
  {
    if n < |cols| { NamesFromSnoc(cols, c, n + 1); }
  }

  lemma {:induction false} AddedIs(g: Growing, measured: seq<Decision>, limit: nat, private: bool)
    requires g.added == []
    ensures var h := TakeAllNew(g, measured, limit, private);
            |g.cols| <= |h.cols| && h.added == NamesFrom(h.cols, |g.cols|)
  {
    hide Fold, ColumnOf;
    if measured != [] {
      var n := |measured| - 1;
      var h := TakeAllNew(g, measured[..n], limit, private);
      AddedIs(g, measured[..n], limit, private);
      if ColumnOf(measured[n]).Some? {
        NamesFromSnoc(h.cols, ColumnType(measured[n].name, ColumnOf(measured[n]).value, None), |g.cols|);
      }
    }
  }

  lemma {:induction false} RetypedPrefix(before: seq<ColumnType>, after: seq<ColumnType>, more: seq<ColumnType>, n: nat)
    requires n <= |before| && n <= |after| <= |more| && more[..|after|] == after
    ensures Retyped(before, after, n) == Retyped(before, more, n)
  {
    if n > 0 {
      RetypedPrefix(before, after, more, n - 1);
      assert more[..|after|][n - 1] == after[n - 1];
    }
  }

  /** A new generation's log entry names exactly the columns it added and the columns it retyped, in order. */
  lemma {:induction false} ChangeNames(t: TableTypes, limit: nat, measured: seq<Decision>, private: bool)
    ensures var t1, n := Reconcile(t, limit, measured, private).0, |t.columns|;
            && |t1.columns| >= n
            && (if t1.generation == t.generation then t1.changes == t.changes
                else t1.changes != [] && t1.changes[|t1.changes| - 1] ==
                     Change(t1.generation, NamesFrom(t1.columns, n), Retyped(t.columns, t1.columns, n)))
  {
    hide Fold, Observe, ByName, Publishes, AdoptedNames;
    var g0, n := Start(t, measured), |t.columns|;
    var obs := ObserveAll(t.columns, measured);
    var g := TakeAllNew(g0, measured, limit, private);
    TakeAllKeeps(g0, measured, limit, private);
    AddedIs(g0, measured, limit, private);
    AdoptedIs(t.columns, measured, n);
    assert obs[..n] == obs;
    RetypedPrefix(t.columns, Columns(obs), g.cols, n);
  }

  /** A derivation never grows the memory past its limit, and a privileged one does not grow it at all. */
  lemma {:induction false} LimitKept(t: TableTypes, limit: nat, measured: seq<Decision>, private: bool)
    ensures var n := |Reconcile(t, limit, measured, private).0.columns|;
            n == |t.columns| || (!private && |t.columns| < n <= limit)
  {
    hide Fold, ColumnOf, Publishes, AdoptedNames, ObserveAll, NameSet;
    TakeLimit(Start(t, measured), measured, limit, private);
  }

  lemma {:induction false} TakeLimit(g: Growing, measured: seq<Decision>, limit: nat, private: bool)
    ensures var n := |TakeAllNew(g, measured, limit, private).cols|;
            n == |g.cols| || (!private && |g.cols| < n <= limit)
  {
    hide Fold, ColumnOf;
    if measured != [] { TakeLimit(g, measured[..|measured| - 1], limit, private); }
  }

  lemma {:induction false} TailIs(measured: seq<Decision>)
    ensures |Tail(measured)| <= 1 && (forall d :: d in Tail(measured) ==> d in measured && d.tail)
    ensures Tail(measured) == [] <==> forall d :: d in measured ==> !d.tail
  {
    if measured != [] {
      var n := |measured| - 1;
      TailIs(measured[..n]);
      assert measured == measured[..n] + [measured[n]];
    }
  }

  lemma {:induction false} NoTailTaken(g: Growing, measured: seq<Decision>, limit: nat, private: bool)
    requires forall d :: d in g.out ==> !d.tail
    ensures forall d :: d in TakeAllNew(g, measured, limit, private).out ==> !d.tail
  {
    hide Fold, ColumnOf;
    if measured != [] { NoTailTaken(g, measured[..|measured| - 1], limit, private); }
  }

  lemma {:induction false} NoTailPublished(obs: seq<Observed>)
    requires forall i :: 0 <= i < |obs| ==> obs[i].publish.Some? ==> !obs[i].publish.value.tail
    ensures forall d :: d in Publishes(obs) ==> !d.tail
  {
    if obs != [] { NoTailPublished(obs[..|obs| - 1]); }
  }

  /** The tail column is published last and once, if the measurement has one, and nowhere else. */
  lemma {:induction false} TailLast(t: TableTypes, limit: nat, measured: seq<Decision>, private: bool)
    requires KnownColumns(t.columns)
    ensures var out := Reconcile(t, limit, measured, private).1;
            && (forall i :: 0 <= i < |out| - 1 ==> !out[i].tail)
            && ((exists d :: d in measured && d.tail) <==> out != [] && out[|out| - 1].tail)
            && (out != [] && out[|out| - 1].tail ==> out[|out| - 1] in measured)
  {
    hide Fold, KnownKind, Observe, ByName, KnownShape, AdoptedNames, Tail, TakeAllNew, Publishes;
    TailIs(measured);
    var obs := ObserveAll(t.columns, measured);
    forall i | 0 <= i < |obs| && obs[i].publish.Some? ensures !obs[i].publish.value.tail {
      ByNameFound(measured, Fold(t.columns[i].name));
      ObservePublishes(t.columns[i], ByName(measured, Fold(t.columns[i].name)));
    }
    NoTailPublished(obs);
    var g := Start(t, measured);
    NoTailTaken(g, measured, limit, private);
    var h := TakeAllNew(g, measured, limit, private);
    var out := Reconcile(t, limit, measured, private).1;
    assert out == h.out + Tail(measured);
    forall i | 0 <= i < |out| ensures i < |h.out| ==> out[i] in h.out {}
    if Tail(measured) != [] { assert out[|out| - 1] in Tail(measured); }
    if Tail(measured) == [] && out != [] { assert out[|out| - 1] in h.out; }
  }

  /** Only the folded names are stable: a column that agrees is published in the sample's own spelling. */
  lemma {:induction false} SpellingFollowsSample(t: TableTypes, limit: nat)
    requires t.columns == [ColumnType("Cpus", Shape("int", true), None)]
    ensures Reconcile(t, limit, [Decision("CPUS", false, Some(Shape("int", true)))], false).1 ==
            [Decision("CPUS", false, Some(Shape("int", true)))]
  {
    var d := Decision("CPUS", false, Some(Shape("int", true)));
    var measured := [d];
    assert Fold("CPUS") == Fold("Cpus") by { SpellCpus(); }
    assert measured[..0] == [];
    assert ByName(measured, Fold("Cpus")) == Some(d);
    var obs := ObserveAll(t.columns, measured);
    assert obs == [Observed(t.columns[0], Some(d), false)];
    assert obs[..0] == [];
    assert Publishes(obs) == [d];
    assert t.columns[0] in t.columns;
    assert TakeAllNew(Start(t, measured), measured[..0], limit, false) == Start(t, measured);
  }

  lemma {:induction false} SpellCpus()
    ensures Fold("CPUS") == Fold("Cpus")
  {
    assert "CPUS"[1..] == "PUS" && "PUS"[1..] == "US" && "US"[1..] == "S" && "S"[1..] == "";
    assert "Cpus"[1..] == "pus" && "pus"[1..] == "us" && "us"[1..] == "s" && "s"[1..] == "";
  }
}
