/** A whole read (flightsvc/statement.go, flightsvc/localscan.go, arrowtype/columnrows.go): batches go in by
    the framed path or by the in-process path, records are cut on the way, and the answer is the same. */
module ArrowScan {
  import opened Text
  import opened ArrowSpec
  import opened ArrowTheorems

  // ---------------------------------------------------------------------------------------
  // The store's own columns: a kind, a number and a string for every row.

  datatype StoreKind = VUndefined | VError | VInt | VReal | VBool | VString | VOther

  datatype StoreColumn = StoreColumn(kinds: seq<StoreKind>, num: seq<int>, str: seq<string>)

  /** math.Float64frombits, which is not part of this model. */
  type FromBits = int -> Float

  predicate Holds(c: StoreColumn, rows: nat) { |c.kinds| == |c.num| == |c.str| == rows }

  /** The value of one store cell. */
  function StoreValue(bits: FromBits, c: StoreColumn, r: nat): Value
    requires r < |c.kinds| == |c.num| == |c.str|
  {
    match c.kinds[r]
    case VUndefined => Undefined
    case VError => Error
    case VInt => IntV(c.num[r])
    case VReal => RealV(bits(c.num[r]))
    case VBool => BoolV(c.num[r] != 0)
    case VString => StrV(c.str[r])
    case VOther => Composite(false, c.str[r])
  }

  function StoreValues(bits: FromBits, c: StoreColumn): seq<Value>
    requires |c.kinds| == |c.num| == |c.str|
  {
    seq(|c.kinds|, r requires 0 <= r < |c.kinds| => StoreValue(bits, c, r))
  }

  predicate NullKind(k: StoreKind) { k == VUndefined || k == VError }

  /** soleKind: VUndefined when there is no typed value, None when there are two kinds. */
  function SoleKind(kinds: seq<StoreKind>): Option<StoreKind> {
    if kinds == [] then Some(VUndefined)
    else
      var n := |kinds| - 1;
      match SoleKind(kinds[..n])
      case None => None
      case Some(kind) =>
        if NullKind(kinds[n]) then Some(kind)
        else if kind != VUndefined && kinds[n] != kind then None
        else Some(kinds[n])
  }

  function NullRows(kinds: seq<StoreKind>): seq<NullCell> {
    if kinds == [] then []
    else
      var n := |kinds| - 1;
      NullRows(kinds[..n]) +
      (if kinds[n] == VUndefined then [NullCell(n, WasUndefined)]
       else if kinds[n] == VError then [NullCell(n, WasError)] else [])
  }

  datatype ColumnRows = ColumnRows(ints: Option<seq<int>>, reals: Option<seq<Float>>, bools: Option<seq<bool>>,
                                   strs: Option<seq<string>>, valid: Option<seq<bool>>, nulls: seq<NullCell>)

  function ValidRows(kinds: seq<StoreKind>): Option<seq<bool>> {
    if NullRows(kinds) == [] then None
    else Some(seq(|kinds|, r requires 0 <= r < |kinds| => !NullKind(kinds[r])))
  }

  predicate EmptyAtNulls(c: StoreColumn) {
    |c.kinds| == |c.str| && forall r :: 0 <= r < |c.kinds| && NullKind(c.kinds[r]) ==> c.str[r] == ""
  }

  /** columnRowsOfBatch: None when the column path cannot describe the column. */
  function ColumnRowsOf(bits: FromBits, c: StoreColumn): Option<ColumnRows> {
    var none := ColumnRows(None, None, None, None, ValidRows(c.kinds), NullRows(c.kinds));
    match SoleKind(c.kinds)
    case Some(VUndefined) => Some(none.(valid := None))
    case Some(VInt) => Some(none.(ints := Some(c.num)))
    case Some(VString) => if EmptyAtNulls(c) then Some(none.(strs := Some(c.str))) else None
    case Some(VReal) => Some(none.(reals := Some(seq(|c.num|, r requires 0 <= r < |c.num| => bits(c.num[r])))))
    case Some(VBool) => Some(none.(bools := Some(seq(|c.num|, r requires 0 <= r < |c.num| => c.num[r] != 0))))
    case _ => None
  }

  // ---------------------------------------------------------------------------------------
  // AppendColumnRows.

  predicate AllNull(c: ColumnRows, rows: int) {
    c.ints.None? && c.reals.None? && c.bools.None? && c.strs.None? && |c.nulls| == rows
  }

  function RowsHeld(c: ColumnRows): Option<nat> {
    if Present(c.ints) + Present(c.reals) + Present(c.bools) + Present(c.strs) != 1 then None
    else Some(Length(c.ints) + Length(c.reals) + Length(c.bools) + Length(c.strs))
  }

  predicate RowsFit(col: Column, rows: int, c: ColumnRows) {
    if AllNull(c, rows) then col.nullable
    else
      && RowsHeld(c) == (if rows >= 0 then Some(rows) else None)
      && RowsHeld(c).Some?
      && (c.valid.Some? ==> |c.valid.value| == rows)
      && (c.nulls == [] || (col.nullable && c.valid.Some?))
      && match col.kind
         case IntK => c.ints.Some?
         case RealK => c.reals.Some?
         case StringK => c.strs.Some?
         case BoolK => c.bools.Some?
         case TimeK => c.ints.Some?
         case OtherK => false
  }

  function RowCell(k: Kind, c: ColumnRows, r: nat): Cell {
    if c.valid.Some? && (r >= |c.valid.value| || !c.valid.value[r]) then Null
    else
      match k
      case IntK => if r < Length(c.ints) then IntC(c.ints.value[r]) else Null
      case RealK => if r < Length(c.reals) then RealC(c.reals.value[r]) else Null
      case StringK => if r < Length(c.strs) then StrC(c.strs.value[r]) else Null
      case BoolK => if r < Length(c.bools) then BoolC(c.bools.value[r]) else Null
      case TimeK => if r < Length(c.ints) then TimeC(c.ints.value[r]) else Null
      case OtherK => Null
  }

  function RowCells(k: Kind, c: ColumnRows, rows: nat): (cells: seq<Cell>)
    ensures |cells| == rows
  {
    seq(rows, r requires 0 <= r < rows => if AllNull(c, rows) then Null else RowCell(k, c, r))
  }

  function AppendRowsColumn(col: Column, rows: nat, c: ColumnRows): Column {
    var direct := if |c.nulls| <= rows then rows - |c.nulls| else 0;
    col.(cells := col.cells + RowCells(col.kind, c, rows),
         stats := col.stats.(direct := col.stats.direct + direct, nulls := col.stats.nulls + Causes(c.nulls)))
  }

  // ---------------------------------------------------------------------------------------
  // One store column.

  lemma {:induction false} SoleKindOf(kinds: seq<StoreKind>, r: nat)
    requires SoleKind(kinds).Some? && r < |kinds|
    ensures NullKind(kinds[r]) || kinds[r] == SoleKind(kinds).value
    decreases |kinds|
  {
    var n := |kinds| - 1;
    if r < n {
      SoleKindOf(kinds[..n], r);
    }
  }

  lemma {:induction false} NullRowsBound(kinds: seq<StoreKind>)
    ensures |NullRows(kinds)| <= |kinds|
    ensures NullRows(kinds) == [] ==> forall r :: 0 <= r < |kinds| ==> !NullKind(kinds[r])
    ensures |NullRows(kinds)| == |kinds| ==> forall r :: 0 <= r < |kinds| ==> NullKind(kinds[r])
  {
    if kinds != [] {
      var n := |kinds| - 1;
      NullRowsBound(kinds[..n]);
      if NullRows(kinds) == [] || |NullRows(kinds)| == |kinds| {
        forall r | 0 <= r < |kinds| ensures NullKind(kinds[r]) <==> |NullRows(kinds)| == |kinds| {
          if r < n { assert kinds[..n][r] == kinds[r]; }
        }
      }
    }
  }

  lemma {:induction false} NoKindAllNull(kinds: seq<StoreKind>)
    requires SoleKind(kinds) == Some(VUndefined)
    ensures |NullRows(kinds)| == |kinds|
  {
    if kinds != [] { NoKindAllNull(kinds[..|kinds| - 1]); }
  }

  /** The column after its first r rows. */
  function UptoRows(col: Column, kinds: seq<StoreKind>, cr: ColumnRows, rows: nat, r: nat): Column
    requires r <= rows && r <= |kinds|
  {
    var nulls := NullRows(kinds[..r]);
    NullRowsBound(kinds[..r]);
    col.(cells := col.cells + RowCells(col.kind, cr, rows)[..r],
         stats := col.stats.(direct := col.stats.direct + (r - |nulls|), nulls := col.stats.nulls + Causes(nulls)))
  }

  /** A store cell of an accepted column, as the per-cell path would encode it. */
  lemma {:induction false} RowOutcome(bits: FromBits, col: Column, c: StoreColumn, cr: ColumnRows, rows: nat, r: nat)
    requires Holds(c, rows) && ColumnRowsOf(bits, c) == Some(cr) && RowsFit(col, rows, cr) && r < rows
    ensures Encode(col.kind, StoreValue(bits, c, r)) ==
            (if c.kinds[r] == VUndefined then Missing(WasUndefined)
             else if c.kinds[r] == VError then Missing(WasError)
             else Direct(RowCells(col.kind, cr, rows)[r]))
    ensures NullKind(c.kinds[r]) ==> RowCells(col.kind, cr, rows)[r] == Null && col.nullable
  {
    hide NullRows, Causes;
    SoleKindOf(c.kinds, r);
    NullRowsBound(c.kinds);
    if SoleKind(c.kinds) == Some(VUndefined) {
      NoKindAllNull(c.kinds);
    }
  }

  lemma {:induction false} NullRowsStep(kinds: seq<StoreKind>, r: nat)
    requires r < |kinds|
    ensures NullRows(kinds[..r + 1]) == NullRows(kinds[..r]) +
              (if kinds[r] == VUndefined then [NullCell(r, WasUndefined)]
               else if kinds[r] == VError then [NullCell(r, WasError)] else [])
    ensures Causes(NullRows(kinds[..r + 1])) == Causes(NullRows(kinds[..r])) +
              (if kinds[r] == VUndefined then multiset{WasUndefined}
               else if kinds[r] == VError then multiset{WasError} else multiset{})
  {
    assert kinds[..r + 1][..r] == kinds[..r];
    var a, b := NullRows(kinds[..r]), NullRows(kinds[..r + 1]);
    if NullKind(kinds[r]) {
      assert b[..|b| - 1] == a;
    } else {
      assert b == a;
    }
  }

  lemma {:induction false} FirstStoreRows(bits: FromBits, col: Column, c: StoreColumn, cr: ColumnRows, rows: nat,
                                          r: nat)
    requires Holds(c, rows) && ColumnRowsOf(bits, c) == Some(cr) && RowsFit(col, rows, cr) && r <= rows
    ensures PutAll(col, StoreValues(bits, c)[..r]) == UptoRows(col, c.kinds, cr, rows, r)
  {
    hide Encode, StoreValue, RowsFit, ColumnRowsOf, RowCells, NullRows, Causes;
    if r == 0 {
      assert c.kinds[..0] == [];
      EmptyRows();
      assert RowCells(col.kind, cr, rows)[..0] == [];
    } else {
      FirstStoreRows(bits, col, c, cr, rows, r - 1);
      assert StoreValues(bits, c)[..r][..r - 1] == StoreValues(bits, c)[..r - 1];
      RowOutcome(bits, col, c, cr, rows, r - 1);
      StoreStep(col, c.kinds, cr, rows, r - 1);
      PutAllShape(col, StoreValues(bits, c)[..r - 1]);
    }
  }

  lemma {:induction false} EmptyRows()
    ensures NullRows([]) == [] && Causes([]) == multiset{}
  {
  }

  lemma {:induction false} StoreStep(col: Column, kinds: seq<StoreKind>, cr: ColumnRows, rows: nat, r: nat)
    requires r < rows == |kinds|
    requires NullKind(kinds[r]) ==> RowCells(col.kind, cr, rows)[r] == Null && col.nullable
    ensures UptoRows(col, kinds, cr, rows, r + 1) ==
            Put(UptoRows(col, kinds, cr, rows, r),
                if kinds[r] == VUndefined then Missing(WasUndefined)
                else if kinds[r] == VError then Missing(WasError)
                else Direct(RowCells(col.kind, cr, rows)[r]))
  {
    hide RowCells, NullRows, Causes;
    NullRowsStep(kinds, r);
    var cells := RowCells(col.kind, cr, rows);
    assert cells[..r + 1] == cells[..r] + [cells[r]];
    Assoc(col.cells, cells[..r], [cells[r]]);
  }

  /** A store column the in-process path accepts is encoded as its cells would be one by one. */
  lemma {:induction false} StoreColumnAgrees(bits: FromBits, col: Column, c: StoreColumn, cr: ColumnRows, rows: nat)
    requires Holds(c, rows) && ColumnRowsOf(bits, c) == Some(cr) && RowsFit(col, rows, cr)
    ensures |cr.nulls| <= rows && AppendRowsColumn(col, rows, cr) == PutAll(col, StoreValues(bits, c))
  {
    hide RowsFit, RowCells, NullRows, Causes, StoreValue;
    FirstStoreRows(bits, col, c, cr, rows, rows);
    assert StoreValues(bits, c)[..rows] == StoreValues(bits, c);
    assert c.kinds[..rows] == c.kinds;
    assert RowCells(col.kind, cr, rows)[..rows] == RowCells(col.kind, cr, rows);
    NullRowsBound(c.kinds);
  }

  // ---------------------------------------------------------------------------------------
  // Records cut on the way.

  const BATCH_ROWS: nat := 2048

  /** sent holds the records shipped so far, each the cells of every column. */
  datatype Scan = Scan(sent: seq<seq<seq<Cell>>>, e: Enc)

  function Cut(s: Scan): Scan {
    if s.e.rows == 0 then s
    else
      Scan(s.sent + [seq(|s.e.cols|, i requires 0 <= i < |s.e.cols| => s.e.cols[i].cells)],
           s.e.(cols := seq(|s.e.cols|, i requires 0 <= i < |s.e.cols| => s.e.cols[i].(cells := [])), rows := 0))
  }

  function CutIfFull(s: Scan): Scan { if s.e.rows >= BATCH_ROWS then Cut(s) else s }

  /** Column i of every shipped record, end to end. */
  function Shipped(sent: seq<seq<seq<Cell>>>, i: nat): seq<Cell> {
    if sent == [] then []
    else
      var last := sent[|sent| - 1];
      Shipped(sent[..|sent| - 1], i) + (if i < |last| then last[i] else [])
  }

  function Prefixed(pre: seq<Cell>, c: Column): Column { c.(cells := pre + c.cells) }

  /** Column i of the answer so far: shipped cells, then the ones still in the builder. */
  function Answer(s: Scan, i: nat): Column
    requires i < |s.e.cols|
  {
    Prefixed(Shipped(s.sent, i), s.e.cols[i])
  }

  predicate Ready(s: Scan, width: nat) { s.e.tail.None? && |s.e.cols| == width }

  lemma {:induction false} CutKeeps(s: Scan, i: nat)
    requires i < |s.e.cols|
    ensures Answer(CutIfFull(s), i) == Answer(s, i) && Ready(CutIfFull(s), |s.e.cols|) == Ready(s, |s.e.cols|)
    ensures |CutIfFull(s).e.cols| == |s.e.cols|
  {
    if s.e.rows >= BATCH_ROWS {
      var t := Cut(s);
      assert t.sent[..|t.sent| - 1] == s.sent;
    }
  }

  lemma {:induction false} PutAllPrefixed(pre: seq<Cell>, c: Column, vs: seq<Value>)
    ensures PutAll(Prefixed(pre, c), vs) == Prefixed(pre, PutAll(c, vs))
  {
    hide Encode, Counted, CellOf;
    if vs != [] {
      var n := |vs| - 1;
      PutAllPrefixed(pre, c, vs[..n]);
      PutAllShape(c, vs[..n]);
      Assoc(pre, PutAll(c, vs[..n]).cells, [CellOf(Encode(c.kind, vs[n]))]);
    }
  }

  lemma {:induction false} PutAllConcat(c: Column, a: seq<Value>, b: seq<Value>)
    ensures PutAll(PutAll(c, a), b) == PutAll(c, a + b)
    decreases |b|
  {
    hide Encode, Put;
    if b == [] {
      assert a + b == a;
    } else {
      var n := |b| - 1;
      PutAllConcat(c, a, b[..n]);
      assert (a + b)[..|a + b| - 1] == a + b[..n];
      PutAllShape(c, a);
    }
  }

  /** An encoder that took values into its columns gave them to the answer. */
  lemma {:induction false} AnswerTakes(s: Scan, e: Enc, i: nat, vs: seq<Value>)
    requires i < |s.e.cols| == |e.cols| && e.cols[i] == PutAll(s.e.cols[i], vs)
    ensures Answer(s.(e := e), i) == PutAll(Answer(s, i), vs)
  {
    hide PutAll, Prefixed;
    PutAllPrefixed(Shipped(s.sent, i), s.e.cols[i], vs);
  }

  // ---------------------------------------------------------------------------------------
  // The framed path.

  datatype Framed = Framed(rows: nat, cols: seq<ValueColumn>)

  function PerCell(s: Scan, grid: seq<seq<Value>>): Scan {
    if grid == [] then s
    else
      var t := PerCell(s, grid[..|grid| - 1]);
      CutIfFull(t.(e := AppendValues(t.e, grid[|grid| - 1]).0))
  }

  /** The batch callback of scanInto. */
  function TakeFramed(s: Scan, b: Framed): Scan {
    match TakeBatch(s.e, b.rows, b.cols)
    case Some(e) => CutIfFull(s.(e := e))
    case None => PerCell(s, Grid(b.cols, b.rows))
  }

  function ScanFramed(s: Scan, bs: seq<Framed>): Scan {
    if bs == [] then s else TakeFramed(ScanFramed(s, bs[..|bs| - 1]), bs[|bs| - 1])
  }

  /** Column i of one batch as data: a dictionary string is a string. */
  function BatchData(b: Framed, i: nat): (vs: seq<Value>)
    requires i < |b.cols|
  {
    Unpacked(AsStrings(b.cols[i]), b.rows)
  }

  /** Column i of the data the framed batches carry. */
  function FramedData(bs: seq<Framed>, i: nat): seq<Value>
    requires forall k :: 0 <= k < |bs| ==> i < |bs[k].cols|
  {
    if bs == [] then [] else FramedData(bs[..|bs| - 1], i) + BatchData(bs[|bs| - 1], i)
  }

  lemma {:induction false} PerCellAnswer(s: Scan, grid: seq<seq<Value>>, i: nat)
    requires Ready(s, |s.e.cols|) && Rectangular(grid, |s.e.cols|) && i < |s.e.cols|
    ensures Ready(PerCell(s, grid), |s.e.cols|) &&
            Answer(PerCell(s, grid), i) == PutAll(Answer(s, i), ColumnOf(grid, i))
  {
    hide Encode, Put, CutIfFull, Answer;
    if grid != [] {
      var n := |grid| - 1;
      PerCellAnswer(s, grid[..n], i);
      var t := PerCell(s, grid[..n]);
      var e := AppendValues(t.e, grid[n]).0;
      var vs := ColumnOf(grid, i);
      assert vs[..n] == ColumnOf(grid[..n], i);
      OneValue(t.e.cols[i], grid[n][i]);
      AnswerTakes(t, e, i, [grid[n][i]]);
      PutAllConcat(Answer(s, i), vs[..n], [vs[n]]);
      assert vs == vs[..n] + [vs[n]];
      CutKeeps(t.(e := e), i);
    }
  }

  lemma {:induction false} OneValue(c: Column, v: Value)
    ensures PutAll(c, [v]) == Put(c, Encode(c.kind, v))
  {
    assert [v][..0] == [];
  }

  /** However a framed read goes, what waits in the builder afterwards is less than a record's worth. */
  lemma {:induction false} BuilderSmall(s: Scan, bs: seq<Framed>)
    requires s.e.rows < 2048
    ensures ScanFramed(s, bs).e.rows < 2048
  {
    hide TakeBatch, AppendValues;
    if bs != [] {
      var n := |bs| - 1;
      BuilderSmall(s, bs[..n]);
      if TakeBatch(ScanFramed(s, bs[..n]).e, bs[n].rows, bs[n].cols).None? {
        CellsSmall(ScanFramed(s, bs[..n]), Grid(bs[n].cols, bs[n].rows));
      }
    }
  }

  lemma {:induction false} CellsSmall(s: Scan, grid: seq<seq<Value>>)
    requires s.e.rows < 2048
    ensures PerCell(s, grid).e.rows < 2048
  {
    hide AppendValues;
    if grid != [] { CellsSmall(s, grid[..|grid| - 1]); }
  }

  predicate HoldsDict(c: ValueColumn) { c.kind == KindStringDict && Length(c.strs) > 0 }

  predicate Taken(s: Scan, b: Framed) { TakeBatch(s.e, b.rows, b.cols).Some? }

  /** What one batch gives the answer: its data if it went column-wise, else what the per-cell path reads,
      to which a dictionary string is an error. */
  lemma {:induction false} TakeFramedAnswer(s: Scan, b: Framed, i: nat)
    requires Ready(s, |b.cols|) && WellFormedBatch(b.cols, b.rows) && i < |b.cols|
    ensures Ready(TakeFramed(s, b), |b.cols|)
    ensures Answer(TakeFramed(s, b), i) ==
            PutAll(Answer(s, i), if Taken(s, b) then BatchData(b, i) else Unpacked(b.cols[i], b.rows))
  {
    hide WellFormedBatch, TakeBatch, Answer, CutIfFull, Encode;
    if Taken(s, b) {
      var e := TakeBatch(s.e, b.rows, b.cols).value;
      TakenColumn(s.e, b.rows, b.cols, i);
      AnswerTakes(s, e, i, BatchData(b, i));
      CutKeeps(s.(e := e), i);
    } else {
      var grid := Grid(b.cols, b.rows);
      assert ColumnOf(grid, i) == Unpacked(b.cols[i], b.rows);
      PerCellAnswer(s, grid, i);
    }
  }

  // How far a column has come: the values it stored as they were, or refused.

  function Progress(c: Column): nat { c.stats.direct + c.stats.nulls[Uncoercible] }

  function Gain(k: Kind, vs: seq<Value>): nat {
    if vs == [] then 0
    else
      var o := Encode(k, vs[|vs| - 1]);
      Gain(k, vs[..|vs| - 1]) + if o.Direct? || o.Refuse? then 1 else 0
  }

  lemma {:induction false} ProgressGains(c: Column, vs: seq<Value>)
    ensures Progress(PutAll(c, vs)) == Progress(c) + Gain(c.kind, vs)
  {
    hide Encode, CellOf;
    if vs != [] {
      ProgressGains(c, vs[..|vs| - 1]);
      NullCause(c.kind, vs[|vs| - 1]);
    }
  }

  lemma {:induction false} NullCause(k: Kind, v: Value)
    ensures Encode(k, v).Missing? ==> Encode(k, v).cause != Uncoercible
  {
  }

  /** Read as an error, a string gains nothing; read as a string it always does. */
  lemma {:induction false} GainsMore(k: Kind, vs: seq<Value>, ws: seq<Value>)
    requires |vs| == |ws| && forall r :: 0 <= r < |vs| ==> vs[r] == ws[r] || (vs[r] == Error && ws[r].StrV?)
    ensures Gain(k, vs) <= Gain(k, ws)
    ensures vs != ws ==> Gain(k, vs) < Gain(k, ws)
  {
    if vs != [] {
      var n := |vs| - 1;
      GainsMore(k, vs[..n], ws[..n]);
      if vs[n] == ws[n] && vs[..n] == ws[..n] {
        assert vs == vs[..n] + [vs[n]] && ws == ws[..n] + [ws[n]];
      }
    }
  }

  /** The per-cell reading of a column is its data exactly when it holds no dictionary string. */
  lemma {:induction false} DictReadings(c: ValueColumn, rows: nat)
    requires WellFormed(c, rows)
    ensures var (vs, ws) := (Unpacked(c, rows), Unpacked(AsStrings(c), rows));
            && (forall r :: 0 <= r < rows ==> vs[r] == ws[r] || (vs[r] == Error && ws[r].StrV?))
            && (vs == ws <==> !HoldsDict(c))
  {
    hide BitSet;
    if c.kind == KindStringDict {
      forall r | 0 <= r < rows && BitSet(c.valid, r) ensures Rank(c.valid, r) < Length(c.strs) {
        RankStep(c.valid, r);
        RankMonotone(c.valid, r + 1, rows);
      }
      if HoldsDict(c) {
        var r := SomeSet(c.valid, rows);
        assert Unpacked(c, rows)[r] != Unpacked(AsStrings(c), rows)[r];
      } else {
        SameWhenEmpty(c, rows);
      }
    }
  }

  ghost predicate FramedBatches(bs: seq<Framed>, width: nat) {
    forall k :: 0 <= k < |bs| ==> |bs[k].cols| == width && WellFormedBatch(bs[k].cols, bs[k].rows)
  }

  /** Every batch whose column i holds a dictionary string is one the schema takes column-wise. */
  ghost predicate DictTaken(s: Scan, bs: seq<Framed>, i: nat)
    requires forall k :: 0 <= k < |bs| ==> i < |bs[k].cols|
  {
    forall k :: 0 <= k < |bs| && HoldsDict(bs[k].cols[i]) ==> Taken(s, bs[k])
  }

  lemma {:induction false} DictTakenStep(s: Scan, bs: seq<Framed>, i: nat)
    requires bs != [] && forall k :: 0 <= k < |bs| ==> i < |bs[k].cols|
    ensures var n := |bs| - 1;
            DictTaken(s, bs, i) <==> DictTaken(s, bs[..n], i) && (HoldsDict(bs[n].cols[i]) ==> Taken(s, bs[n]))
  {
    hide Taken, HoldsDict;
    var n := |bs| - 1;
    assert forall k :: 0 <= k < n ==> bs[..n][k] == bs[k];
    if DictTaken(s, bs[..n], i) && (HoldsDict(bs[n].cols[i]) ==> Taken(s, bs[n])) {
      forall k | 0 <= k < |bs| && HoldsDict(bs[k].cols[i]) ensures Taken(s, bs[k]) {
        if k < n { assert HoldsDict(bs[..n][k].cols[i]); }
      }
    }
  }

  predicate SameColumn(c: Column, d: Column) { c.kind == d.kind && c.nullable == d.nullable }

  /** What a batch's acceptance turns on: the columns' kinds and nullability. */
  ghost predicate SameSchema(s: Scan, t: Scan) {
    |s.e.cols| == |t.e.cols| && forall i :: 0 <= i < |s.e.cols| ==> SameColumn(s.e.cols[i], t.e.cols[i])
  }

  lemma {:induction false} TakenBySchema(s: Scan, t: Scan, b: Framed)
    requires Ready(s, |s.e.cols|) && Ready(t, |t.e.cols|) && SameSchema(s, t)
    ensures Taken(s, b) <==> Taken(t, b)
  {
    hide Dense, AllColumnValues;
    if AllColumnValues(b.cols).Some? {
      var cols := AllColumnValues(b.cols).value;
      forall i | 0 <= i < |cols| && |cols| == |s.e.cols|
        ensures ColumnFits(s.e.cols[i], b.rows, cols[i]) <==> ColumnFits(t.e.cols[i], b.rows, cols[i])
      {
        assert SameColumn(s.e.cols[i], t.e.cols[i]);
      }
    }
  }

  /** A batch leaves the schema what it was. */
  lemma {:induction false} TakeKeepsSchema(s: Scan, t: Scan, b: Framed)
    requires |b.cols| > 0 && Ready(t, |b.cols|) && WellFormedBatch(b.cols, b.rows) && SameSchema(s, t)
    ensures Ready(TakeFramed(t, b), |b.cols|) && SameSchema(s, TakeFramed(t, b))
  {
    hide WellFormedBatch, TakeFramed, Encode, Taken;
    forall i | 0 <= i < |b.cols|
      ensures Ready(TakeFramed(t, b), |b.cols|) && SameColumn(s.e.cols[i], TakeFramed(t, b).e.cols[i])
    {
      TakeFramedAnswer(t, b, i);
      assert SameColumn(s.e.cols[i], t.e.cols[i]);
      PutAllShape(Answer(t, i), if Taken(t, b) then BatchData(b, i) else Unpacked(b.cols[i], b.rows));
    }
    TakeFramedAnswer(t, b, 0);
  }

  /** The answer so far is the data encoded cell by cell, or it is behind it for good. */
  ghost predicate Keeping(t: Scan, c: Column, vs: seq<Value>, i: nat, all: bool)
    requires i < |t.e.cols|
  {
    var have, want := Answer(t, i), PutAll(c, vs);
    have.kind == want.kind && if all then have == want else Progress(have) < Progress(want)
  }

  lemma {:induction false} KeepingStep(t: Scan, b: Framed, c: Column, vs: seq<Value>, i: nat, all: bool)
    requires Ready(t, |b.cols|) && WellFormedBatch(b.cols, b.rows) && i < |b.cols| && Keeping(t, c, vs, i, all)
    ensures Ready(TakeFramed(t, b), |b.cols|)
    ensures Keeping(TakeFramed(t, b), c, vs + BatchData(b, i), i, all && (HoldsDict(b.cols[i]) ==> Taken(t, b)))
  {
    hide Answer, Encode, TakeFramed, HoldsDict, Taken, Gain, Progress;
    TakeFramedAnswer(t, b, i);
    DictReadings(b.cols[i], b.rows);
    var have, data := Answer(t, i), BatchData(b, i);
    var read := if Taken(t, b) then data else Unpacked(b.cols[i], b.rows);
    PutAllConcat(c, vs, data);
    PutAllShape(have, read);
    PutAllShape(PutAll(c, vs), data);
    ProgressGains(have, read);
    ProgressGains(PutAll(c, vs), data);
    GainsMore(have.kind, read, data);
  }

  lemma {:induction false} FramedKeeps(s: Scan, bs: seq<Framed>, i: nat)
    requires i < |s.e.cols| && Ready(s, |s.e.cols|) && FramedBatches(bs, |s.e.cols|)
    ensures Ready(ScanFramed(s, bs), |s.e.cols|) && SameSchema(s, ScanFramed(s, bs))
    ensures Keeping(ScanFramed(s, bs), Answer(s, i), FramedData(bs, i), i, DictTaken(s, bs, i))
  {
    hide WellFormedBatch, TakeFramed, Answer, Encode, Keeping, DictTaken, BatchData, Taken;
    if bs == [] {
      KeepingStart(s, i);
      assert DictTaken(s, bs, i) by { DictTakenNone(s, i); }
    } else {
      var n := |bs| - 1;
      FramedKeeps(s, bs[..n], i);
      TakenBySchema(s, ScanFramed(s, bs[..n]), bs[n]);
      TakeKeepsSchema(s, ScanFramed(s, bs[..n]), bs[n]);
      KeepingStep(ScanFramed(s, bs[..n]), bs[n], Answer(s, i), FramedData(bs[..n], i), i, DictTaken(s, bs[..n], i));
      DictTakenStep(s, bs, i);
    }
  }

  lemma {:induction false} KeepingStart(s: Scan, i: nat)
    requires i < |s.e.cols|
    ensures Keeping(s, Answer(s, i), [], i, true)
  {
  }

  lemma {:induction false} DictTakenNone(s: Scan, i: nat)
    ensures DictTaken(s, [], i)
  {
  }

  /** However a framed read is cut into batches and records, a column of the answer is its data encoded cell
      by cell, dictionary strings as strings, exactly when the schema takes column-wise every batch in which it
      holds a dictionary string. */
  lemma {:induction false} FramedAnswer(s: Scan, bs: seq<Framed>, i: nat)
    requires i < |s.e.cols| && Ready(s, |s.e.cols|) && FramedBatches(bs, |s.e.cols|)
    ensures |ScanFramed(s, bs).e.cols| == |s.e.cols|
    ensures Answer(ScanFramed(s, bs), i) == PutAll(Answer(s, i), FramedData(bs, i)) <==> DictTaken(s, bs, i)
  {
    hide Answer, DictTaken, ScanFramed, FramedBatches, PutAll;
    FramedKeeps(s, bs, i);
  }

  /** A batch refused for another column's sake turns this one's dictionary string into a null. */
  lemma {:induction false} DictLost(s: Scan)
    requires Ready(s, 2) && s.e.cols[0].kind == StringK && s.e.cols[0].nullable
    ensures var dict := ValueColumn(KindStringDict, None, None, None, Some(["alice"]), [1], []);
            var other := ValueColumn(KindInt, Some([]), None, None, None, [0], [Exception(0, StrV("x"), false)]);
            var b := Framed(1, [dict, other]);
            && WellFormedBatch(b.cols, 1) && !Taken(s, b) && BatchData(b, 0) == [StrV("alice")]
            && |TakeFramed(s, b).e.cols| == 2
            && Answer(TakeFramed(s, b), 0).cells == Answer(s, 0).cells + [Null]
  {
    hide Answer, Put, Encode, CutIfFull;
    var dict := ValueColumn(KindStringDict, None, None, None, Some(["alice"]), [1], []);
    var other := ValueColumn(KindInt, Some([]), None, None, None, [0], [Exception(0, StrV("x"), false)]);
    var b := Framed(1, [dict, other]);
    LostShape(dict, other);
    assert b.cols[..1] == [dict];
    assert Taken(s, b) ==> AllColumnValues(b.cols).Some?;
    if AllColumnValues(b.cols).Some? { AllColumnsAt(b.cols, 1); }
    TakeFramedAnswer(s, b, 0);
    assert Unpacked(dict, 1) == [Error];
    ErrorIsNull(Answer(s, 0));
  }

  lemma {:induction false} ErrorIsNull(c: Column)
    ensures PutAll(c, [Error]).cells == c.cells + [Null]
  {
    OneValue(c, Error);
  }

  lemma {:induction false} LostShape(dict: ValueColumn, other: ValueColumn)
    requires dict == ValueColumn(KindStringDict, None, None, None, Some(["alice"]), [1], [])
    requires other == ValueColumn(KindInt, Some([]), None, None, None, [0], [Exception(0, StrV("x"), false)])
    ensures WellFormed(dict, 1) && WellFormed(other, 1) && ColumnValuesOf(other).None? && BitSet(dict.valid, 0)
  {
    assert BitSet(dict.valid, 0) && !BitSet(other.valid, 0);
    assert Rank(dict.valid, 1) == 1 && Rank(other.valid, 1) == 0;
    assert other.exceptions[0].row == 0;
    assert HasException(other.exceptions, 0);
  }

  // ---------------------------------------------------------------------------------------
  // The in-process path.

  datatype LocalBatch = LocalBatch(rows: nat, cols: seq<StoreColumn>)

  datatype Verdict = Complete | Unsupported | Failed

  predicate Accepts(bits: FromBits, e: Enc, b: LocalBatch) {
    && |b.cols| == |e.cols| && e.tail.None?
    && forall i :: 0 <= i < |b.cols| ==>
         && ColumnRowsOf(bits, b.cols[i]).Some?
         && RowsFit(e.cols[i], b.rows, ColumnRowsOf(bits, b.cols[i]).value)
  }

  function TakeLocal(bits: FromBits, e: Enc, b: LocalBatch): Enc
    requires Accepts(bits, e, b)
  {
    e.(cols := seq(|e.cols|, i requires 0 <= i < |e.cols| =>
                 AppendRowsColumn(e.cols[i], b.rows, ColumnRowsOf(bits, b.cols[i]).value)),
       rows := e.rows + b.rows)
  }

  /** scanLocal over the batches the store offers; broke is an error from the store after them. */
  function ScanLocal(bits: FromBits, s: Scan, bs: seq<LocalBatch>, broke: bool, appended: bool): (Scan, Verdict)
    decreases |bs|
  {
    if bs == [] then (s, if broke then Failed else Complete)
    else if !Accepts(bits, s.e, bs[0]) then (s, if appended then Failed else Unsupported)
    else ScanLocal(bits, CutIfFull(s.(e := TakeLocal(bits, s.e, bs[0]))), bs[1..], broke, true)
  }

  predicate StoreBatch(b: LocalBatch) { forall i :: 0 <= i < |b.cols| ==> Holds(b.cols[i], b.rows) }

  ghost predicate StoreBatches(bs: seq<LocalBatch>) { forall k :: 0 <= k < |bs| ==> StoreBatch(bs[k]) }

  function LocalData(bits: FromBits, bs: seq<LocalBatch>, i: nat): seq<Value>
    requires StoreBatches(bs)
    decreases |bs|
  {
    if bs == [] then []
    else if i < |bs[0].cols| then StoreValues(bits, bs[0].cols[i]) + LocalData(bits, bs[1..], i)
    else LocalData(bits, bs[1..], i)
  }

  lemma {:induction false} TakeLocalAnswer(bits: FromBits, s: Scan, b: LocalBatch, i: nat)
    requires StoreBatch(b) && Accepts(bits, s.e, b) && i < |s.e.cols|
    ensures Answer(CutIfFull(s.(e := TakeLocal(bits, s.e, b))), i) == PutAll(Answer(s, i), StoreValues(bits, b.cols[i]))
    ensures |CutIfFull(s.(e := TakeLocal(bits, s.e, b))).e.cols| == |s.e.cols|
  {
    hide Answer, CutIfFull, ColumnRowsOf, RowsFit, AppendRowsColumn;
    var cr := ColumnRowsOf(bits, b.cols[i]).value;
    StoreColumnAgrees(bits, s.e.cols[i], b.cols[i], cr, b.rows);
    var e := TakeLocal(bits, s.e, b);
    AnswerTakes(s, e, i, StoreValues(bits, b.cols[i]));
    CutKeeps(s.(e := e), i);
  }

  /** A success holds every row of every batch; a refusal to serve left nothing behind; once a row is
      in, the read cannot be reported as unsupported. */
  lemma {:induction false} LocalNeverShort(bits: FromBits, s: Scan, bs: seq<LocalBatch>, broke: bool, appended: bool,
                                           i: nat)
    requires i < |s.e.cols| && StoreBatches(bs)
    ensures var (t, v) := ScanLocal(bits, s, bs, broke, appended);
            && |t.e.cols| == |s.e.cols|
            && (v == Complete ==> !broke && Answer(t, i) == PutAll(Answer(s, i), LocalData(bits, bs, i)))
            && (v == Unsupported ==> t == s && !appended)
    decreases |bs|
  {
    hide Answer, CutIfFull, TakeLocal;
    if bs != [] && Accepts(bits, s.e, bs[0]) {
      var s1 := CutIfFull(s.(e := TakeLocal(bits, s.e, bs[0])));
      TakeLocalAnswer(bits, s, bs[0], i);
      LocalNeverShort(bits, s1, bs[1..], broke, true, i);
      PutAllConcat(Answer(s, i), StoreValues(bits, bs[0].cols[i]), LocalData(bits, bs[1..], i));
    }
  }

  /** scanInto for a read with no limit: in process if the store offers it, else framed. */
  function ScanInto(bits: FromBits, s: Scan, local: Option<seq<LocalBatch>>, broke: bool, framed: seq<Framed>)
    : (Scan, Verdict)
  {
    if local.None? then (ScanFramed(s, framed), Complete)
    else
      var (t, v) := ScanLocal(bits, s, local.value, broke, false);
      if v == Unsupported then (ScanFramed(t, framed), Complete) else (t, v)
  }

  /** The in-process path answered it. */
  ghost predicate ServedLocally(bits: FromBits, s: Scan, local: Option<seq<LocalBatch>>, broke: bool) {
    local.Some? && ScanLocal(bits, s, local.value, broke, false).1 == Complete
  }

  /** A read that succeeds answers with every value of the column once, in order, encoded as the per-cell path
      encodes it, exactly when it was served in process or the schema takes column-wise every batch in which the
      column holds a dictionary string. */
  lemma {:induction false} SamePath(bits: FromBits, s: Scan, local: Option<seq<LocalBatch>>, broke: bool,
                                    framed: seq<Framed>, i: nat)
    requires i < |s.e.cols| && Ready(s, |s.e.cols|) && FramedBatches(framed, |s.e.cols|)
    requires local.Some? ==> StoreBatches(local.value) && LocalData(bits, local.value, i) == FramedData(framed, i)
    ensures var (t, v) := ScanInto(bits, s, local, broke, framed);
            && |t.e.cols| == |s.e.cols|
            && (v == Complete ==>
                (Answer(t, i) == PutAll(Answer(s, i), FramedData(framed, i)) <==>
                 ServedLocally(bits, s, local, broke) || DictTaken(s, framed, i)))
  {
    hide Answer, ScanFramed, ScanLocal, StoreBatches, DictTaken, FramedBatches;
    FramedAnswer(s, framed, i);
    if local.Some? {
      LocalNeverShort(bits, s, local.value, broke, false, i);
    }
  }
}
