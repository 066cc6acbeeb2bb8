/** The type derivation (arrowtype/derive.go) and what its choice promises the encoder. */
module ArrowDerive {
  import opened Text
  import opened ArrowSpec
  import opened ArrowMeaning

  // Value classes, in the lexical order of their names.
  datatype Class = CBool | CClassAd | CExpr | CInt | CList | CReal | CString

  const ORDER: seq<Class> := [CBool, CClassAd, CExpr, CInt, CList, CReal, CString]

  /** What a profile says about one attribute; classes leaves undefined and error values out. */
  datatype Measured = Measured(name: string, sampled: nat, present: nat, classes: map<Class, nat>, nulls: nat,
                               lossyAsFloat: nat,
                               complete: bool)

  datatype Override = Override(exclude: bool, kind: string, nullable: Option<bool>)

  datatype Options = Options(overrides: map<string, Override>, timeAttrs: set<string>, strictMixedKinds: bool)

  datatype Decision = Untyped(name: string) | Typed(name: string, kind: Kind, nullable: bool)

  // ---------------------------------------------------------------------------------------
  // The rules.

  function CountOf(m: Measured, c: Class): nat { if c in m.classes then m.classes[c] else 0 }

  function TypeClasses(m: Measured): set<Class> { set c | c in m.classes && m.classes[c] > 0 && c != CExpr }

  /** dominant, with the classes tried in the order that makes the smaller name win a tie. */
  function Dominant(m: Measured, order: seq<Class>): Option<Class> {
    if order == [] then None
    else
      var last := order[|order| - 1];
      var best := Dominant(m, order[..|order| - 1]);
      if last in m.classes && (best.None? || m.classes[last] > CountOf(m, best.value)) then Some(last) else best
  }

  function IsNullable(m: Measured): bool {
    m.present < m.sampled || m.nulls > 0 || CountOf(m, CExpr) > 0 || !m.complete
  }

  function ScalarType(c: Class): Option<Kind> {
    match c
    case CInt => Some(IntK)
    case CReal => Some(RealK)
    case CBool => Some(BoolK)
    case CString => Some(StringK)
    case _ => None
  }

  function KindType(kind: string): Option<Kind> {
    if kind == "timestamp" then Some(TimeK)
    else if kind == "int" then Some(IntK)
    else if kind == "real" then Some(RealK)
    else if kind == "bool" then Some(BoolK)
    else if kind == "string" then Some(StringK)
    else None
  }

  predicate IsTime(opts: Options, name: string) { Fold(name) in opts.timeAttrs }

  function MakeTyped(m: Measured, opts: Options, k: Kind, nullable: bool): Decision {
    Typed(m.name, if IsTime(opts, m.name) && (k == IntK || k == RealK) then TimeK else k, nullable)
  }

  function Mixed(m: Measured, opts: Options, nullable: bool): Decision {
    if opts.strictMixedKinds then Untyped(m.name) else MakeTyped(m, opts, StringK, nullable)
  }

  function DeriveFromMeasurement(m: Measured, opts: Options): Decision {
    var names := TypeClasses(m);
    if names == {} || Dominant(m, ORDER) == Some(CExpr) then Untyped(m.name)
    else if exists c :: c in names && names == {c} then
      var only :| only in names && names == {only};
      (match ScalarType(only)
       case None => Untyped(m.name)
       case Some(k) => MakeTyped(m, opts, k, IsNullable(m)))
    else if names == {CInt, CReal} && m.lossyAsFloat == 0 then MakeTyped(m, opts, RealK, IsNullable(m))
    else Mixed(m, opts, IsNullable(m))
  }

  function Derive(m: Measured, opts: Options): Decision {
    if Fold(m.name) !in opts.overrides then DeriveFromMeasurement(m, opts)
    else
      var ov := opts.overrides[Fold(m.name)];
      if ov.exclude then Untyped(m.name)
      else if ov.kind != "" then
        (match KindType(ov.kind)
         case None => Untyped(m.name)
         case Some(k) => Typed(m.name, k, if ov.nullable.Some? then ov.nullable.value else IsNullable(m)))
      else
        var d := DeriveFromMeasurement(m, opts);
        if ov.nullable.Some? && d.Typed? then d.(nullable := ov.nullable.value) else d
  }

  // ---------------------------------------------------------------------------------------
  // The profile of a table.

  /** What one record holds under the name: nothing, or a value, stored literally or as an expression
      that evaluates to it. */
  datatype Entry = Gone | Held(isExpr: bool, value: Value)

  function ClassOf(e: Entry): Option<Class> {
    match e
    case Gone => None
    case Held(isExpr, v) =>
      if isExpr then Some(CExpr)
      else
        match v
        case Undefined => None
        case Error => None
        case IntV(_) => Some(CInt)
        case RealV(_) => Some(CReal)
        case BoolV(_) => Some(CBool)
        case StrV(_) => Some(CString)
        case Composite(isAd, _) => Some(if isAd then CClassAd else CList)
  }

  predicate IsNullEntry(e: Entry) { e.Held? && !e.isExpr && (e.value == Undefined || e.value == Error) }

  predicate IsWide(e: Entry) { e.Held? && !e.isExpr && e.value.IntV? && !FitsDouble(e.value.i) }

  function CountIf(table: seq<Entry>, p: Entry -> bool): nat {
    if table == [] then 0 else CountIf(table[..|table| - 1], p) + if p(table[|table| - 1]) then 1 else 0
  }

  /** The profile counted the whole table, and right. */
  ghost predicate Accurate(m: Measured, table: seq<Entry>) {
    && m.complete && m.sampled == |table|
    && m.present == CountIf(table, (e: Entry) => e.Held?)
    && m.nulls == CountIf(table, IsNullEntry)
    && m.lossyAsFloat == CountIf(table, IsWide)
    && forall c: Class :: CountOf(m, c) == CountIf(table, (e: Entry) => ClassOf(e) == Some(c))
  }

  /** The store evaluated what it profiled. */
  predicate Evaluated(table: seq<Entry>) { forall k :: 0 <= k < |table| ==> table[k].Held? ==> !table[k].isExpr }

  lemma {:induction false} CountBound(table: seq<Entry>, p: Entry -> bool)
    ensures CountIf(table, p) <= |table|
    ensures CountIf(table, p) == |table| ==> forall k :: 0 <= k < |table| ==> p(table[k])
  {
    if table != [] { CountBound(table[..|table| - 1], p); }
  }

  lemma {:induction false} CountZero(table: seq<Entry>, p: Entry -> bool, k: nat)
    requires k < |table| && p(table[k])
    ensures CountIf(table, p) > 0
    decreases |table|
  {
    if k < |table| - 1 { CountZero(table[..|table| - 1], p, k); }
  }

  // ---------------------------------------------------------------------------------------
  // What the choice promises.

  function EntryOutcome(k: Kind, e: Entry): Outcome {
    match e
    case Gone => Missing(Absent)
    case Held(_, v) => Encode(k, v)
  }

  /** Each class a record holds was counted, and what is counted was held. */
  lemma {:induction false} ClassCounted(m: Measured, table: seq<Entry>, k: nat)
    requires Accurate(m, table) && k < |table| && ClassOf(table[k]).Some?
    ensures CountOf(m, ClassOf(table[k]).value) > 0
  {
    hide ClassOf;
    var c := ClassOf(table[k]).value;
    CountZero(table, (e: Entry) => ClassOf(e) == Some(c), k);
  }

  /** A column derived without a declaration is non-nullable only if every record holds a literal value. */
  lemma {:induction false} DenseWhenNonNullable(m: Measured, table: seq<Entry>, k: nat)
    requires Accurate(m, table) && !IsNullable(m) && k < |table|
    ensures table[k].Held? && !table[k].isExpr && table[k].value != Undefined && table[k].value != Error
  {
    CountBound(table, (e: Entry) => e.Held?);
    if IsNullEntry(table[k]) { CountZero(table, IsNullEntry, k); }
    if table[k].isExpr { ClassCounted(m, table, k); }
  }

  lemma {:induction false} TypedNullable(m: Measured, opts: Options)
    requires Fold(m.name) !in opts.overrides && Derive(m, opts).Typed?
    ensures Derive(m, opts).nullable == IsNullable(m)
  {
    hide IsNullable, Dominant, TypeClasses;
  }

  /** Whatever its expressions evaluate to, no record of the table violates a derived column's
      nullability. */
  lemma {:induction false} NullabilityHolds(m: Measured, opts: Options, table: seq<Entry>, k: nat)
    requires Accurate(m, table) && k < |table|
    requires Fold(m.name) !in opts.overrides && Derive(m, opts).Typed?
    ensures EntryOutcome(Derive(m, opts).kind, table[k]).Missing? ==> Derive(m, opts).nullable
  {
    hide Accurate, Derive, IsNullable;
    TypedNullable(m, opts);
    if !IsNullable(m) { DenseWhenNonNullable(m, table, k); }
  }

  lemma {:induction false} WideCounted(m: Measured, table: seq<Entry>, k: nat)
    requires Accurate(m, table) && k < |table| && m.lossyAsFloat == 0
    ensures !IsWide(table[k])
  {
    if IsWide(table[k]) { CountZero(table, IsWide, k); }
  }

  /** The column holds every value the table has: each cell stands for its record's value. */
  lemma {:induction false} KindHolds(m: Measured, opts: Options, table: seq<Entry>, k: nat)
    requires Accurate(m, table) && Evaluated(table) && k < |table|
    requires Fold(m.name) !in opts.overrides && !IsTime(opts, m.name) && Derive(m, opts).Typed?
    ensures var k1, e := Derive(m, opts).kind, table[k];
            var o := EntryOutcome(k1, e);
            && !o.Refuse? && !o.Lossy?
            && (e.Held? && !NoValue(e.value) ==> (o.Direct? || o.Exact?) && Denotes(k1, o.cell, e.value))
  {
    hide Accurate, Dominant, IsNullable, Fold, Denotes, Approximates;
    if table[k].Held? { EncodeDenotes(Derive(m, opts).kind, table[k].value); }
    if ClassOf(table[k]).Some? {
      ClassCounted(m, table, k);
      var c := ClassOf(table[k]).value;
      var names := TypeClasses(m);
      assert c in names;
      if m.lossyAsFloat == 0 { WideCounted(m, table, k); }
    }
  }

  // ---------------------------------------------------------------------------------------
  // Which kind is chosen, told by the table.

  /** The classes of value the table's records hold. */
  ghost function Holds(table: seq<Entry>): set<Class> {
    set c: Class | exists k :: 0 <= k < |table| && ClassOf(table[k]) == Some(c)
  }

  ghost predicate HoldsWide(table: seq<Entry>) { exists k :: 0 <= k < |table| && IsWide(table[k]) }

  lemma {:induction false} CountFound(table: seq<Entry>, p: Entry -> bool)
    ensures CountIf(table, p) > 0 <==> exists k :: 0 <= k < |table| && p(table[k])
  {
    if table != [] {
      var n := |table| - 1;
      CountFound(table[..n], p);
      if exists k :: 0 <= k < n && p(table[..n][k]) {
        var k :| 0 <= k < n && p(table[..n][k]);
        assert p(table[k]);
      }
      if k :| 0 <= k < |table| && p(table[k]) {
        if k < n { assert p(table[..n][k]); }
      }
    }
  }

  lemma {:induction false} ClassesHeld(m: Measured, table: seq<Entry>)
    requires Accurate(m, table) && Evaluated(table)
    ensures TypeClasses(m) == Holds(table) && CountOf(m, CExpr) == 0 && (m.lossyAsFloat > 0 <==> HoldsWide(table))
  {
    hide ClassOf, IsWide;
    forall c: Class ensures CountOf(m, c) > 0 <==> c in Holds(table) {
      CountFound(table, (e: Entry) => ClassOf(e) == Some(c));
    }
    CountFound(table, IsWide);
    NoExpressions(table);
  }

  lemma {:induction false} NoExpressions(table: seq<Entry>)
    requires Evaluated(table)
    ensures CExpr !in Holds(table)
  {
  }

  lemma {:induction false} DominantCounted(m: Measured, order: seq<Class>)
    ensures Dominant(m, order).Some? ==> Dominant(m, order).value in m.classes
    ensures forall i :: 0 <= i < |order| && order[i] in m.classes ==>
              Dominant(m, order).Some? && m.classes[order[i]] <= CountOf(m, Dominant(m, order).value)
  {
    if order != [] {
      var n := |order| - 1;
      DominantCounted(m, order[..n]);
      forall i | 0 <= i < |order| && order[i] in m.classes
        ensures Dominant(m, order).Some? && m.classes[order[i]] <= CountOf(m, Dominant(m, order).value)
      {
        if i < n { assert order[..n][i] == order[i]; }
      }
    }
  }

  lemma {:induction false} CountAll(table: seq<Entry>, p: Entry -> bool)
    requires forall k :: 0 <= k < |table| ==> p(table[k])
    ensures CountIf(table, p) == |table|
  {
    if table != [] { CountAll(table[..|table| - 1], p); }
  }

  /** A derived column admits nulls exactly when some record lacks the attribute, holds no value there, or holds
      an expression. */
  lemma {:induction false} DerivedNullable(m: Measured, opts: Options, table: seq<Entry>)
    requires Accurate(m, table) && Fold(m.name) !in opts.overrides && Derive(m, opts).Typed?
    ensures Derive(m, opts).nullable <==>
            exists k :: 0 <= k < |table| && (table[k].Gone? || table[k].isExpr || IsNullEntry(table[k]))
  {
    hide Derive, ClassOf, IsWide;
    TypedNullable(m, opts);
    CountBound(table, (e: Entry) => e.Held?);
    CountFound(table, IsNullEntry);
    CountFound(table, (e: Entry) => ClassOf(e) == Some(CExpr));
    forall k | 0 <= k < |table| ensures ClassOf(table[k]) == Some(CExpr) <==> table[k].Held? && table[k].isExpr {
      ExprClass(table[k]);
    }
    if forall k :: 0 <= k < |table| ==> table[k].Held? { CountAll(table, (e: Entry) => e.Held?); }
  }

  lemma {:induction false} ExprClass(e: Entry)
    ensures ClassOf(e) == Some(CExpr) <==> e.Held? && e.isExpr
  {
  }

  /** The kind a table's own values call for, before the time attributes. */
  function KindFor(held: set<Class>, wide: bool, strict: bool): Option<Kind> {
    if held == {} || held == {CList} || held == {CClassAd} then None
    else if held == {CInt} then Some(IntK)
    else if held == {CReal} || (held == {CInt, CReal} && !wide) then Some(RealK)
    else if held == {CBool} then Some(BoolK)
    else if held == {CString} || !strict then Some(StringK)
    else None
  }

  /** The derived kind of an accurately profiled, evaluated table is the one its values call for: int, real or
      bool for values of that one class, real for ints and reals none of which a double would alter, text for
      strings and, unless mixing is refused, for any other mixture; a declared time attribute's numbers are
      epochs. */
  lemma {:induction false} DerivedKind(m: Measured, opts: Options, table: seq<Entry>)
    requires Accurate(m, table) && Evaluated(table) && Fold(m.name) !in opts.overrides
    ensures var d := Derive(m, opts);
            match KindFor(Holds(table), HoldsWide(table), opts.strictMixedKinds)
            case None => d.Untyped?
            case Some(k) => d.Typed? && d.kind == if IsTime(opts, m.name) && (k == IntK || k == RealK) then TimeK else k
  {
    hide Accurate, IsNullable, Fold, Holds, HoldsWide, Dominant, CountOf;
    ClassesHeld(m, table);
    var names := TypeClasses(m);
    if names != {} {
      var c :| c in names;
      NotExprDominant(m, c);
      OnlyClass(names);
    }
  }

  lemma {:induction false} OnlyClass(names: set<Class>)
    ensures (exists c :: c in names && names == {c}) <==>
            names == {CBool} || names == {CClassAd} || names == {CExpr} || names == {CInt} || names == {CList} ||
            names == {CReal} || names == {CString}
  {
    if c :| c in names && names == {c} {
      assert c == CBool || c == CClassAd || c == CExpr || c == CInt || c == CList || c == CReal || c == CString;
    }
  }

  lemma {:induction false} NotExprDominant(m: Measured, c: Class)
    requires c in TypeClasses(m) && CountOf(m, CExpr) == 0
    ensures Dominant(m, ORDER) != Some(CExpr)
  {
    hide Dominant;
    DominantCounted(m, ORDER);
    assert exists i :: 0 <= i < |ORDER| && ORDER[i] == c by {
      assert ORDER[0] == CBool && ORDER[1] == CClassAd && ORDER[2] == CExpr && ORDER[3] == CInt && ORDER[4] == CList &&
             ORDER[5] == CReal && ORDER[6] == CString;
    }
  }

  /** A declared kind's name. */
  function KindName(k: Kind): string {
    match k
    case IntK => "int" case RealK => "real" case BoolK => "bool" case StringK => "string" case TimeK => "timestamp"
    case OtherK => ""
  }

  /** A declaration overrides the data: an excluded attribute has no column, a declared kind is the column's whatever
      was measured, a name that is no kind's gives none, and a declared nullability stands. */
  lemma {:induction false} DeclaredWins(m: Measured, opts: Options, k: Kind)
    requires Fold(m.name) in opts.overrides
    ensures var ov, d := opts.overrides[Fold(m.name)], Derive(m, opts);
            && (ov.exclude ==> d.Untyped?)
            && (!ov.exclude && ov.kind != "" ==>
                (d.Typed? && d.kind == k <==> k != OtherK && ov.kind == KindName(k)))
            && (!ov.exclude && ov.kind == "" ==>
                var e := DeriveFromMeasurement(m, opts);
                (d.Typed? <==> e.Typed?) && (d.Typed? ==> d.kind == e.kind))
            && (d.Typed? && ov.nullable.Some? ==> d.nullable == ov.nullable.value)
            && d.name == m.name
  {
    hide DeriveFromMeasurement, IsNullable;
    MeasuredName(m, opts);
  }

  lemma {:induction false} MeasuredName(m: Measured, opts: Options)
    ensures DeriveFromMeasurement(m, opts).name == m.name
  {
    hide TypeClasses, Dominant, IsNullable, IsTime;
  }

  // ---------------------------------------------------------------------------------------
  // Encoding the whole table.

  /** What an evaluating store profiles of the ads under one name. */
  function Entries(ads: seq<Ad>, name: string): (table: seq<Entry>)
    ensures |table| == |ads|
  {
    seq(|ads|, k requires 0 <= k < |ads| => match Find(ads[k], name) case None => Gone case Some(v) => Held(false, v))
  }

  /** The column is the one derived from a complete and accurate profile of these ads. */
  ghost predicate Derived(c: Column, m: Measured, opts: Options, ads: seq<Ad>) {
    && Accurate(m, Entries(ads, c.name)) && Derive(m, opts) == Typed(c.name, c.kind, c.nullable)
    && Fold(m.name) !in opts.overrides && !IsTime(opts, m.name)
  }

  /** Every column but the tail is derived; the tail admits nulls. */
  ghost predicate DerivedEncoder(e: Enc, ms: seq<Measured>, opts: Options, ads: seq<Ad>) {
    |ms| == |e.cols| &&
    forall i :: 0 <= i < |e.cols| ==>
        if e.tail == Some(i) then e.cols[i].nullable else Derived(e.cols[i], ms[i], opts, ads)
  }

  function AppendAds(e: Enc, ads: seq<Ad>): Enc {
    if ads == [] then e else Append(AppendAds(e, ads[..|ads| - 1]), ads[|ads| - 1]).0
  }

  predicate Harmless(nullable: bool, o: Outcome) {
    !o.Refuse? && !o.Lossy? && (o.Missing? ==> nullable && o.cause != Uncoercible && o.cause != NonNullable)
  }

  predicate HarmlessRow(e: Enc, outs: seq<Outcome>) {
    |outs| == |e.cols| && forall i :: 0 <= i < |outs| ==> Harmless(e.cols[i].nullable, outs[i])
  }

  /** The same columns, whatever they hold. */
  predicate SameSchema(e: Enc, f: Enc) {
    && e.tail == f.tail && e.strict == f.strict && |e.cols| == |f.cols|
    && forall i :: 0 <= i < |e.cols| ==>
         e.cols[i].name == f.cols[i].name && e.cols[i].kind == f.cols[i].kind &&
             e.cols[i].nullable == f.cols[i].nullable
  }

  /** No column has gained a lossy, an uncoercible or a non-nullable count. */
  predicate NoneLost(e: Enc, f: Enc) {
    |e.cols| == |f.cols| && forall i :: 0 <= i < |e.cols| ==> StatsKept(e.cols[i].stats, f.cols[i].stats)
  }

  predicate StatsKept(s: Stats, t: Stats) {
    t.lossy == s.lossy && t.nulls[Uncoercible] == s.nulls[Uncoercible] && t.nulls[NonNullable] == s.nulls[NonNullable]
  }

  lemma {:induction false} NoFault(cols: seq<Column>, strict: bool, outs: seq<Outcome>)
    requires |outs| == |cols| && forall i :: 0 <= i < |outs| ==> Harmless(cols[i].nullable, outs[i])
    ensures FirstFault(cols, strict, outs) == None
  {
    if cols != [] { NoFault(cols[..|cols| - 1], strict, outs[..|cols| - 1]); }
  }

  lemma {:induction false} PutHarmless(c: Column, o: Outcome)
    requires Harmless(c.nullable, o)
    ensures StatsKept(c.stats, Put(c, o).stats)
  {
  }

  lemma {:induction false} RowHarmless(e: Enc, outs: seq<Outcome>)
    requires HarmlessRow(e, outs)
    ensures var (f, fault) := PutRow(e, outs); fault == None && NoneLost(e, f) && SameSchema(e, f)
  {
    hide Harmless, StatsKept;
    NoFault(e.cols, e.strict, outs);
    forall i | 0 <= i < |e.cols| ensures StatsKept(e.cols[i].stats, Put(e.cols[i], outs[i]).stats) {
      PutHarmless(e.cols[i], outs[i]);
    }
  }

  lemma {:induction false} MissingCauses(k: Kind, e: Entry)
    ensures EntryOutcome(k, e).Missing? ==>
            EntryOutcome(k, e).cause != Uncoercible && EntryOutcome(k, e).cause != NonNullable
  {
  }

  /** A table's entry is what its ad holds under the column's name. */
  lemma {:induction false} EntryIsAd(c: Column, ads: seq<Ad>, k: nat)
    requires k < |ads|
    ensures EntryOutcome(c.kind, Entries(ads, c.name)[k]) == AdOutcome(c, ads[k])
  {
    hide Encode, Find;
  }

  lemma {:induction false} CellHarmless(c: Column, m: Measured, opts: Options, ads: seq<Ad>, k: nat)
    requires Derived(c, m, opts, ads) && k < |ads|
    ensures Harmless(c.nullable, AdOutcome(c, ads[k]))
  {
    hide Derive, Accurate, EntryOutcome, AdOutcome, Fold;
    var table := Entries(ads, c.name);
    assert Evaluated(table);
    KindHolds(m, opts, table, k);
    NullabilityHolds(m, opts, table, k);
    MissingCauses(c.kind, table[k]);
    EntryIsAd(c, ads, k);
  }

  lemma {:induction false} AdHarmless(e: Enc, f: Enc, ms: seq<Measured>, opts: Options, ads: seq<Ad>, k: nat)
    requires DerivedEncoder(e, ms, opts, ads) && SameSchema(e, f) && k < |ads|
    ensures HarmlessRow(f, AdOutcomes(f, ads[k]))
  {
    hide Derived, Harmless, AdOutcome, TailOutcome;
    forall i | 0 <= i < |f.cols| ensures Harmless(f.cols[i].nullable, AdOutcomes(f, ads[k])[i]) {
      if f.tail == Some(i) {
        TailHarmless(ads[k], TypedNames(f));
      } else {
        CellHarmless(e.cols[i], ms[i], opts, ads, k);
        SameOutcome(e.cols[i], f.cols[i], ads[k]);
      }
    }
  }

  lemma {:induction false} SameOutcome(c: Column, d: Column, ad: Ad)
    requires c.name == d.name && c.kind == d.kind
    ensures AdOutcome(c, ad) == AdOutcome(d, ad)
  {
    hide Find, Encode;
  }

  lemma {:induction false} TailHarmless(ad: Ad, taken: set<string>)
    ensures Harmless(true, TailOutcome(ad, taken))
  {
    hide TailText;
  }

  lemma {:induction false} FirstAds(e: Enc, ms: seq<Measured>, opts: Options, ads: seq<Ad>, k: nat)
    requires DerivedEncoder(e, ms, opts, ads) && k <= |ads|
    ensures SameSchema(e, AppendAds(e, ads[..k])) && NoneLost(e, AppendAds(e, ads[..k]))
  {
    hide DerivedEncoder, Append, AdOutcomes, PutRow;
    if k > 0 {
      FirstAds(e, ms, opts, ads, k - 1);
      assert ads[..k][..k - 1] == ads[..k - 1];
      var f := AppendAds(e, ads[..k - 1]);
      AdHarmless(e, f, ms, opts, ads, k - 1);
      AppendIs(f, ads[k - 1]);
      RowHarmless(f, AdOutcomes(f, ads[k - 1]));
    }
  }

  lemma {:induction false} AppendIs(e: Enc, ad: Ad)
    ensures Append(e, ad) == PutRow(e, AdOutcomes(e, ad))
  {
    hide PutRow, AdOutcomes;
  }

  /** What an attribute, found or not, leaves in a column. */
  predicate EntryStates(k: Kind, found: Option<Value>, c: Cell) {
    match found
    case None => c == Null
    case Some(v) => CellStates(k, v, c)
  }

  /** Appending ads one by one: a typed column gains a cell per ad, which states that ad's attribute. */
  lemma {:induction false} AdsState(e: Enc, ads: seq<Ad>, i: nat)
    requires i < |e.cols| && e.tail != Some(i)
    ensures var f, n := AppendAds(e, ads), |e.cols[i].cells|;
            && SameSchema(e, f) && |f.cols[i].cells| == n + |ads| && f.cols[i].cells[..n] == e.cols[i].cells
            && forall k :: 0 <= k < |ads| ==>
                 EntryStates(e.cols[i].kind, Find(ads[k], e.cols[i].name), f.cols[i].cells[n + k])
  {
    hide Append, Find, CellStates;
    if ads != [] {
      var m, n, init := |ads| - 1, |e.cols[i].cells|, ads[..|ads| - 1];
      AdsState(e, init, i);
      var f := AppendAds(e, init);
      AdStates(f, ads[m], i);
      AppendSchema(f, ads[m]);
      var g := AppendAds(e, ads);
      forall k | 0 <= k < |ads|
        ensures EntryStates(e.cols[i].kind, Find(ads[k], e.cols[i].name), g.cols[i].cells[n + k])
      {
        if k < m {
          assert ads[k] == init[k];
          assert g.cols[i].cells[n + k] == g.cols[i].cells[..n + m][n + k];
        }
      }
      assert g.cols[i].cells[..n] == g.cols[i].cells[..n + m][..n];
    }
  }

  lemma {:induction false} AppendSchema(e: Enc, ad: Ad)
    ensures SameSchema(e, Append(e, ad).0)
  {
    hide AdOutcomes, FirstFault;
  }

  /** What the value is, or a null for none. */
  predicate EntryDenotes(k: Kind, found: Option<Value>, c: Cell) {
    if found.None? || NoValue(found.value) then c == Null else Denotes(k, c, found.value)
  }

  lemma {:induction false} DerivedDenotes(c: Column, m: Measured, opts: Options, ads: seq<Ad>, k: nat, cell: Cell)
    requires Derived(c, m, opts, ads) && k < |ads| && EntryStates(c.kind, Find(ads[k], c.name), cell)
    ensures EntryDenotes(c.kind, Find(ads[k], c.name), cell)
  {
    hide Derive, Accurate, Fold, Denotes, Approximates, Encode;
    KindHolds(m, opts, Entries(ads, c.name), k);
    if Find(ads[k], c.name).Some? { EncodeDenotes(c.kind, Find(ads[k], c.name).value); }
  }

  /** d is c with one cell per ad more, each standing for the ad's value under the column's name. */
  ghost predicate Stores(c: Column, d: Column, ads: seq<Ad>) {
    && |d.cells| == |c.cells| + |ads| && d.cells[..|c.cells|] == c.cells
    && forall k :: 0 <= k < |ads| ==> EntryDenotes(c.kind, Find(ads[k], c.name), d.cells[|c.cells| + k])
  }

  lemma {:induction false} ColumnStores(e: Enc, ms: seq<Measured>, opts: Options, ads: seq<Ad>, i: nat)
    requires DerivedEncoder(e, ms, opts, ads) && i < |e.cols| && e.tail != Some(i)
    ensures |AppendAds(e, ads).cols| == |e.cols| && Stores(e.cols[i], AppendAds(e, ads).cols[i], ads)
  {
    hide Derived, AppendAds, EntryStates, EntryDenotes, Find;
    AdsState(e, ads, i);
    var c, d := e.cols[i], AppendAds(e, ads).cols[i];
    forall k | 0 <= k < |ads| ensures EntryDenotes(c.kind, Find(ads[k], c.name), d.cells[|c.cells| + k]) {
      DerivedDenotes(c, ms[i], opts, ads, k, d.cells[|c.cells| + k]);
    }
  }

  lemma {:induction false} SameColumns(e: Enc, ads: seq<Ad>)
    ensures |AppendAds(e, ads).cols| == |e.cols|
  {
    hide Append;
    if ads != [] {
      SameColumns(e, ads[..|ads| - 1]);
      AppendSchema(AppendAds(e, ads[..|ads| - 1]), ads[|ads| - 1]);
    }
  }

  /** An encoder whose columns are derived from complete and accurate profiles takes every ad of the table
      without a fault, strict or not, without an uncoercible cell, a lossy coercion, or a null where none may
      be, and every cell of a typed column stands for its ad's value. */
  lemma {:induction false} DeriveSound(e: Enc, ms: seq<Measured>, opts: Options, ads: seq<Ad>)
    requires DerivedEncoder(e, ms, opts, ads)
    ensures NoneLost(e, AppendAds(e, ads))
    ensures forall k :: 0 <= k < |ads| ==> Append(AppendAds(e, ads[..k]), ads[k]).1 == None
    ensures |AppendAds(e, ads).cols| == |e.cols|
    ensures forall i :: 0 <= i < |e.cols| && e.tail != Some(i) ==> Stores(e.cols[i], AppendAds(e, ads).cols[i], ads)
  {
    hide Derived, Append, AdOutcomes, PutRow, AppendAds, NoneLost, Stores;
    SameColumns(e, ads);
    forall i | 0 <= i < |e.cols| && e.tail != Some(i) ensures Stores(e.cols[i], AppendAds(e, ads).cols[i], ads) {
      ColumnStores(e, ms, opts, ads, i);
    }
    FirstAds(e, ms, opts, ads, |ads|);
    assert ads[..|ads|] == ads;
    forall k | 0 <= k < |ads| ensures Append(AppendAds(e, ads[..k]), ads[k]).1 == None {
      FirstAds(e, ms, opts, ads, k);
      var f := AppendAds(e, ads[..k]);
      AdHarmless(e, f, ms, opts, ads, k);
      AppendIs(f, ads[k]);
      RowHarmless(f, AdOutcomes(f, ads[k]));
    }
  }
}
