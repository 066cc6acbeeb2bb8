/** The column-wise append is the per-cell append, and no append leaves the columns ragged. */
module ArrowTheorems {
  import opened Text
  import opened ArrowSpec

  // ---------------------------------------------------------------------------------------
  // Rows by column.

  /** One column fed a column of values. */
  function PutAll(c: Column, vs: seq<Value>): Column {
    if vs == [] then c
    else
      var before := PutAll(c, vs[..|vs| - 1]);
      Put(before, Encode(c.kind, vs[|vs| - 1]))
  }

  function ColumnOf(grid: seq<seq<Value>>, i: nat): seq<Value>
    requires forall r :: 0 <= r < |grid| ==> i < |grid[r]|
  {
    seq(|grid|, r requires 0 <= r < |grid| => grid[r][i])
  }

  ghost predicate Rectangular(grid: seq<seq<Value>>, width: nat) { forall r :: 0 <= r < |grid| ==> |grid[r]| == width }

  lemma {:induction false} PutAllShape(c: Column, vs: seq<Value>)
    ensures PutAll(c, vs).kind == c.kind && PutAll(c, vs).nullable == c.nullable && PutAll(c, vs).name == c.name
  {
    if vs != [] { PutAllShape(c, vs[..|vs| - 1]); }
  }

  /** Appending rows one by one feeds each column its own values, independently of the others. */
  lemma {:induction false} RowsByColumn(e: Enc, grid: seq<seq<Value>>)
    requires e.tail.None? && Rectangular(grid, |e.cols|)
    ensures var e1 := AppendRows(e, grid);
            e1.tail == e.tail && e1.strict == e.strict && e1.rows == e.rows + |grid| && |e1.cols| == |e.cols|
    ensures forall i :: 0 <= i < |e.cols| ==> AppendRows(e, grid).cols[i] == PutAll(e.cols[i], ColumnOf(grid, i))
  {
    hide Encode, Put;
    if grid != [] {
      var n := |grid| - 1;
      RowsByColumn(e, grid[..n]);
      forall i | 0 <= i < |e.cols| ensures AppendRows(e, grid).cols[i] == PutAll(e.cols[i], ColumnOf(grid, i)) {
        assert ColumnOf(grid, i)[..n] == ColumnOf(grid[..n], i);
        PutAllShape(e.cols[i], ColumnOf(grid[..n], i));
      }
    }
  }

  // ---------------------------------------------------------------------------------------
  // The exception of an unset row.

  /** Exceptions lie at the unset rows in order, so row r's is number r - Rank(r). */
  lemma {:induction false} ExceptionsBefore(c: ValueColumn, rows: nat, r: nat)
    requires WellFormed(c, rows) && r <= rows
    ensures r - Rank(c.valid, r) <= |c.exceptions|
    ensures forall k :: 0 <= k < r - Rank(c.valid, r) ==> c.exceptions[k].row < r
    ensures forall k :: r - Rank(c.valid, r) <= k < |c.exceptions| ==> c.exceptions[k].row >= r
  {
    hide BitSet, Rank, HasException, Ascending;
    RankNone(c.valid);
    if r > 0 {
      ExceptionsBefore(c, rows, r - 1);
      RankStep(c.valid, r - 1);
      if !BitSet(c.valid, r - 1) {
        UnsetAt(c.exceptions, r - 1 - Rank(c.valid, r - 1), r - 1);
      }
    }
  }

  lemma {:induction false} RankNone(valid: seq<bv8>)
    ensures Rank(valid, 0) == 0
  {
  }

  /** The first exception not before row r is row r's, and the rest lie past it. */
  lemma {:induction false} UnsetAt(xs: seq<Exception>, i: nat, r: nat)
    requires Ascending(xs) && i <= |xs| && HasException(xs, r)
    requires forall k :: 0 <= k < i ==> xs[k].row < r
    requires forall k :: i <= k < |xs| ==> xs[k].row >= r
    ensures i < |xs| && xs[i].row == r
    ensures forall k :: i < k < |xs| ==> xs[k].row > r
  {
    var k :| 0 <= k < |xs| && xs[k].row == r;
    forall j | 0 <= j < k ensures xs[j].row < r { }
  }

  lemma {:induction false} ExceptionFound(xs: seq<Exception>, k: nat)
    requires Ascending(xs) && k < |xs|
    ensures ExceptionAt(xs, xs[k].row) == xs[k].value
  {
    if k > 0 {
      ExceptionFound(xs[1..], k - 1);
      assert xs[1..][k - 1] == xs[k];
    }
  }

  lemma {:induction false} ExceptionOfRow(c: ValueColumn, rows: nat, r: nat)
    requires WellFormed(c, rows) && r < rows && !BitSet(c.valid, r)
    ensures r - Rank(c.valid, r) < |c.exceptions|
    ensures c.exceptions[r - Rank(c.valid, r)].row == r
    ensures ExceptionAt(c.exceptions, r) == c.exceptions[r - Rank(c.valid, r)].value
  {
    hide BitSet;
    ExceptionsBefore(c, rows, r);
    ExceptionsBefore(c, rows, r + 1);
    ExceptionFound(c.exceptions, r - Rank(c.valid, r));
  }

  // ---------------------------------------------------------------------------------------
  // One column.

  lemma {:induction false} NullsPrefix(xs: seq<Exception>, k: nat)
    requires k <= |xs| && NullsOf(xs).Some?
    ensures NullsOf(xs[..k]).Some? && |NullsOf(xs).value| == |xs| && NullsOf(xs[..k]).value == NullsOf(xs).value[..k]
    decreases |xs|
  {
    if k == |xs| {
      assert xs[..k] == xs;
      if xs != [] { NullsPrefix(xs[..|xs| - 1], |xs| - 1); }
    } else {
      NullsPrefix(xs[..|xs| - 1], k);
      assert xs[..|xs| - 1][..k] == xs[..k];
    }
  }

  /** Each exception of a column the fast path accepts is a null, filed under the cause the per-cell
      path would give. */
  lemma {:induction false} NullAt(xs: seq<Exception>, k: nat)
    requires k < |xs| && NullsOf(xs).Some?
    ensures |NullsOf(xs).value| == |xs|
    ensures xs[k].value == Undefined || xs[k].value == Error
    ensures NullsOf(xs).value[k].cause == (if xs[k].value == Undefined then WasUndefined else WasError)
    ensures NullsOf(xs).value[k].row == xs[k].row
  {
    NullsPrefix(xs, k + 1);
    NullsPrefix(xs, k);
    assert xs[..k + 1][..k] == xs[..k];
  }

  predicate Relayed(k: RelayKind) { k == KindInt || k == KindReal || k == KindBool || k == KindString }

  /** A dense value of a column that fits goes in unchanged, as the per-cell path would put it. */
  lemma {:induction false} DenseDirect(col: Column, c: ValueColumn, cv: ColumnValues, rows: nat, d: nat)
    requires Relayed(c.kind) && ColumnValuesOf(c) == Some(cv) && ColumnFits(col, rows, cv) && d < DenseLength(c)
    ensures Encode(col.kind, DenseValue(c, d)) == Direct(DenseCell(col.kind, cv, d))
  {
  }

  lemma {:induction false} RankStep(valid: seq<bv8>, r: nat)
    ensures Rank(valid, r + 1) == Rank(valid, r) + if BitSet(valid, r) then 1 else 0
  {
  }

  lemma {:induction false} RankMonotone(valid: seq<bv8>, r: nat, n: nat)
    requires r <= n
    ensures Rank(valid, r) <= Rank(valid, n)
    ensures n - Rank(valid, n) >= r - Rank(valid, r)
  {
    hide BitSet;
    if r < n { RankMonotone(valid, r, n - 1); }
  }

  /** The column after its first r rows, told by the batch. */
  function Upto(col: Column, c: ColumnValues, r: nat): Column
    requires r - Rank(c.valid, r) <= |c.nulls|
  {
    col.(cells := col.cells + Spread(col.kind, c, r),
         stats := col.stats.(direct := col.stats.direct + Rank(c.valid, r),
                             nulls := col.stats.nulls + Causes(c.nulls[..r - Rank(c.valid, r)])))
  }

  lemma {:induction false} SpreadStep(k: Kind, c: ColumnValues, r: nat)
    ensures Spread(k, c, r + 1) ==
            Spread(k, c, r) + [if BitSet(c.valid, r) then DenseCell(k, c, Rank(c.valid, r)) else Null]
  {
    hide BitSet, DenseCell;
  }

  lemma {:induction false} UptoStep(col: Column, c: ColumnValues, r: nat)
    requires r - Rank(c.valid, r) <= |c.nulls| && r + 1 - Rank(c.valid, r + 1) <= |c.nulls|
    requires c.nulls != [] ==> col.nullable
    requires !BitSet(c.valid, r) ==> r - Rank(c.valid, r) < |c.nulls|
    ensures Upto(col, c, r + 1) ==
            Put(Upto(col, c, r), if BitSet(c.valid, r) then Direct(DenseCell(col.kind, c, Rank(c.valid, r)))
                                 else Missing(c.nulls[r - Rank(c.valid, r)].cause))
  {
    hide BitSet, DenseCell, Spread, Rank, Causes;
    SpreadStep(col.kind, c, r);
    RankStep(c.valid, r);
    if !BitSet(c.valid, r) { CausesStep(c.nulls, r - Rank(c.valid, r)); }
    var cell := if BitSet(c.valid, r) then DenseCell(col.kind, c, Rank(c.valid, r)) else Null;
    Assoc(col.cells, Spread(col.kind, c, r), [cell]);
  }

  lemma {:induction false} CausesStep(nulls: seq<NullCell>, k: nat)
    requires k < |nulls|
    ensures Causes(nulls[..k + 1]) == Causes(nulls[..k]) + multiset{nulls[k].cause}
  {
    assert nulls[..k + 1][..k] == nulls[..k];
  }

  lemma {:induction false} FirstRows(col: Column, c: ValueColumn, cv: ColumnValues, rows: nat, r: nat)
    requires WellFormed(c, rows) && Relayed(c.kind) && ColumnValuesOf(c) == Some(cv) && ColumnFits(col, rows, cv) &&
             r <= rows
    ensures r - Rank(cv.valid, r) <= |cv.nulls|
    ensures PutAll(col, Unpacked(c, rows)[..r]) == Upto(col, cv, r)
  {
    hide BitSet, Encode, DenseCell, ColumnFits, Put, WellFormed, ColumnValuesOf, Causes, Upto, Rank, ValueAt;
    NullsRoom(c, cv, rows, r);
    if r > 0 {
      FirstRows(col, c, cv, rows, r - 1);
      var vs := Unpacked(c, rows)[..r];
      assert vs[..r - 1] == Unpacked(c, rows)[..r - 1];
      Last(col, c, cv, rows, r - 1);
      UptoStep(col, cv, r - 1);
    } else {
      EmptyUpto(col, cv);
    }
  }

  lemma {:induction false} NullsRoom(c: ValueColumn, cv: ColumnValues, rows: nat, r: nat)
    requires WellFormed(c, rows) && ColumnValuesOf(c) == Some(cv) && r <= rows
    ensures cv.valid == c.valid && r - Rank(cv.valid, r) <= |cv.nulls|
  {
    hide BitSet;
    NullsPrefix(c.exceptions, 0);
    ExceptionsBefore(c, rows, r);
  }

  lemma {:induction false} EmptyUpto(col: Column, cv: ColumnValues)
    ensures Upto(col, cv, 0) == col
  {
    assert cv.nulls[..0] == [];
    assert Spread(col.kind, cv, 0) == [];
  }

  lemma {:induction false} Last(col: Column, c: ValueColumn, cv: ColumnValues, rows: nat, r: nat)
    requires WellFormed(c, rows) && Relayed(c.kind) && ColumnValuesOf(c) == Some(cv) && ColumnFits(col, rows, cv) &&
             r < rows
    ensures cv.nulls != [] ==> col.nullable
    ensures |cv.nulls| == |c.exceptions|
    ensures BitSet(c.valid, r) ==> Encode(col.kind, ValueAt(c, r)) == Direct(DenseCell(col.kind, cv, Rank(c.valid, r)))
    ensures !BitSet(c.valid, r) ==>
              var k := r - Rank(c.valid, r);
              && k < |cv.nulls| && Encode(col.kind, ValueAt(c, r)) == Missing(cv.nulls[k].cause)
              && (cv.nulls[k].cause == WasUndefined || cv.nulls[k].cause == WasError)
  {
    hide BitSet, DenseCell, DenseValue, Coerce;
    NullsPrefix(c.exceptions, 0);
    if BitSet(c.valid, r) {
      RankStep(c.valid, r);
      RankMonotone(c.valid, r + 1, rows);
      DenseDirect(col, c, cv, rows, Rank(c.valid, r));
    } else {
      ExceptionOfRow(c, rows, r);
      NullAt(c.exceptions, r - Rank(c.valid, r));
    }
  }

  lemma {:induction false} ColumnAgrees(col: Column, c: ValueColumn, cv: ColumnValues, rows: nat)
    requires WellFormed(c, rows) && Relayed(c.kind) && ColumnValuesOf(c) == Some(cv) && ColumnFits(col, rows, cv)
    ensures AppendColumn(col, rows, cv) == PutAll(col, Unpacked(c, rows))
  {
    hide WellFormed, BitSet, Rank, Spread, Causes, PutAll, NullsOf, ValueAt, DenseCell;
    FirstRows(col, c, cv, rows, rows);
    assert Unpacked(c, rows)[..rows] == Unpacked(c, rows);
    NullsPrefix(c.exceptions, 0);
    DenseIsRank(c, cv, rows);
    assert cv.nulls[..rows - Rank(c.valid, rows)] == cv.nulls;
  }

  lemma {:induction false} DenseIsRank(c: ValueColumn, cv: ColumnValues, rows: nat)
    requires WellFormed(c, rows) && c.kind != KindOther && ColumnValuesOf(c) == Some(cv)
    ensures |cv.nulls| == |c.exceptions| == rows - Rank(c.valid, rows)
    ensures Dense(cv).Some? ==> Dense(cv).value == Rank(c.valid, rows)
  {
    hide BitSet, Rank;
    NullsPrefix(c.exceptions, 0);
    ExceptionsBefore(c, rows, rows);
  }

  // ---------------------------------------------------------------------------------------
  // A whole batch.

  lemma {:induction false} AllColumnsAt(batch: seq<ValueColumn>, i: nat)
    requires AllColumnValues(batch).Some? && i < |batch|
    ensures |AllColumnValues(batch).value| == |batch| &&
            ColumnValuesOf(batch[i]) == Some(AllColumnValues(batch).value[i])
    decreases |batch|
  {
    hide ColumnValuesOf;
    var n := |batch| - 1;
    if n > 0 { AllColumnsAt(batch[..n], if i < n then i else 0); }
  }

  ghost predicate RelayBatch(batch: seq<ValueColumn>, rows: nat) {
    forall i :: 0 <= i < |batch| ==> WellFormed(batch[i], rows) && Relayed(batch[i].kind)
  }

  /** The fast path refuses the batch and appends nothing, or leaves exactly the encoder the per-cell
      path would: every cell, every null, every count, the row count. */
  lemma {:induction false} FastIsSlow(e: Enc, rows: nat, batch: seq<ValueColumn>)
    requires RelayBatch(batch, rows)
    ensures TakeBatch(e, rows, batch).Some? ==> TakeBatch(e, rows, batch).value == AppendRows(e, Grid(batch, rows))
  {
    hide WellFormed, ColumnValuesOf, ColumnFits, AppendColumn;
    if TakeBatch(e, rows, batch).Some? {
      var cols := AllColumnValues(batch).value;
      var fast := TakeBatch(e, rows, batch).value;
      var grid := Grid(batch, rows);
      RowsByColumn(e, grid);
      var slow := AppendRows(e, grid);
      forall i | 0 <= i < |e.cols| ensures fast.cols[i] == slow.cols[i] {
        AllColumnsAt(batch, i);
        ColumnAgrees(e.cols[i], batch[i], cols[i], rows);
        assert ColumnOf(grid, i) == Unpacked(batch[i], rows);
      }
      assert fast.cols == slow.cols;
    }
  }

  // ---------------------------------------------------------------------------------------
  // The dictionary kind, which only the fast path knows.

  lemma {:induction false} PutAllCell(c: Column, vs: seq<Value>, r: nat)
    requires r < |vs|
    ensures |PutAll(c, vs).cells| == |c.cells| + |vs| &&
            PutAll(c, vs).cells[|c.cells| + r] == CellOf(Encode(c.kind, vs[r]))
    decreases |vs|
  {
    hide Encode, CellOf, Counted;
    var n := |vs| - 1;
    if n > 0 { PutAllCell(c, vs[..n], if r < n then r else 0); }
  }

  lemma {:induction false} SomeSet(valid: seq<bv8>, rows: nat) returns (r: nat)
    requires Rank(valid, rows) > 0
    ensures r < rows && BitSet(valid, r) && Rank(valid, r) == 0
  {
    hide BitSet;
    if Rank(valid, rows - 1) > 0 { r := SomeSet(valid, rows - 1); } else { r := rows - 1; }
  }

  lemma {:induction false} DictParts(col: Column, c: ValueColumn, cv: ColumnValues, rows: nat)
    requires WellFormed(c, rows) && c.kind == KindStringDict && ColumnValuesOf(c) == Some(cv) &&
             ColumnFits(col, rows, cv)
    requires Length(c.strs) > 0
    ensures AppendColumn(col, rows, cv) != PutAll(col, Unpacked(c, rows))
  {
    hide BitSet, Causes, Rank, PutAll, NullsOf;
    var r := SomeSet(c.valid, rows);
    assert ValueAt(c, r) == Error;
    PutAllCell(col, Unpacked(c, rows), r);
    assert AppendColumn(col, rows, cv).cells[|col.cells| + r] == Spread(col.kind, cv, rows)[r];
  }

  /** A dictionary column holds no value at all, or the two paths part on it. */
  lemma {:induction false} DictColumn(col: Column, c: ValueColumn, cv: ColumnValues, rows: nat)
    requires WellFormed(c, rows) && c.kind == KindStringDict && ColumnValuesOf(c) == Some(cv) &&
             ColumnFits(col, rows, cv)
    ensures AppendColumn(col, rows, cv) == PutAll(col, Unpacked(c, rows)) <==> Length(c.strs) == 0
  {
    hide BitSet, Causes, Rank, PutAll, NullsOf, Spread, Unpacked, ColumnFits, AppendColumn;
    if Length(c.strs) == 0 {
      ColumnAgrees(col, c.(kind := KindString), cv, rows);
      SameWhenEmpty(c, rows);
    } else {
      DictParts(col, c, cv, rows);
    }
  }

  lemma {:induction false} SameWhenEmpty(c: ValueColumn, rows: nat)
    requires WellFormed(c, rows) && c.kind == KindStringDict && Length(c.strs) == 0
    ensures Unpacked(c, rows) == Unpacked(c.(kind := KindString), rows)
  {
    hide BitSet;
    forall r | 0 <= r < rows ensures !BitSet(c.valid, r) {
      RankStep(c.valid, r);
      RankMonotone(c.valid, r + 1, rows);
    }
  }

  ghost predicate DictBatch(batch: seq<ValueColumn>, rows: nat) {
    forall i :: 0 <= i < |batch| ==>
        WellFormed(batch[i], rows) && (Relayed(batch[i].kind) || batch[i].kind == KindStringDict)
  }

  /** With dictionary columns the fast path agrees with the per-cell one exactly when none of them
      holds a string. */
  lemma {:induction false} FastIsSlowIff(e: Enc, rows: nat, batch: seq<ValueColumn>)
    requires DictBatch(batch, rows) && TakeBatch(e, rows, batch).Some?
    ensures TakeBatch(e, rows, batch).value == AppendRows(e, Grid(batch, rows)) <==>
            forall i :: 0 <= i < |batch| && batch[i].kind == KindStringDict ==> Length(batch[i].strs) == 0
  {
    hide WellFormed, ColumnValuesOf, ColumnFits, AppendColumn;
    var cols := AllColumnValues(batch).value;
    var fast := TakeBatch(e, rows, batch).value;
    var grid := Grid(batch, rows);
    RowsByColumn(e, grid);
    var slow := AppendRows(e, grid);
    forall i | 0 <= i < |e.cols|
      ensures fast.cols[i] == slow.cols[i] <==> (batch[i].kind == KindStringDict ==> Length(batch[i].strs) == 0)
    {
      AllColumnsAt(batch, i);
      if batch[i].kind == KindStringDict {
        DictColumn(e.cols[i], batch[i], cols[i], rows);
      } else {
        ColumnAgrees(e.cols[i], batch[i], cols[i], rows);
      }
      assert ColumnOf(grid, i) == Unpacked(batch[i], rows);
    }
    assert fast == slow <==> fast.cols == slow.cols;
  }

  ghost predicate WellFormedBatch(batch: seq<ValueColumn>, rows: nat) {
    forall i :: 0 <= i < |batch| ==> WellFormed(batch[i], rows)
  }

  /** The column with its dictionary strings, already expanded, as plain ones. */
  function AsStrings(c: ValueColumn): ValueColumn { if c.kind == KindStringDict then c.(kind := KindString) else c }

  /** Column by column, a batch taken column-wise is encoded as its cells would be, dictionary strings as
      the strings they are. */
  lemma {:induction false} TakenColumn(e: Enc, rows: nat, batch: seq<ValueColumn>, i: nat)
    requires WellFormedBatch(batch, rows) && TakeBatch(e, rows, batch).Some? && i < |e.cols|
    ensures |batch| == |e.cols|
    ensures var f := TakeBatch(e, rows, batch).value;
            && f.tail == e.tail && |f.cols| == |e.cols|
            && f.cols[i] == PutAll(e.cols[i], Unpacked(AsStrings(batch[i]), rows))
  {
    hide WellFormed, ColumnFits, AppendColumn, NullsOf;
    var cols := AllColumnValues(batch).value;
    AllColumnsAt(batch, i);
    WellFormedAsStrings(batch[i], rows);
    ColumnAgrees(e.cols[i], AsStrings(batch[i]), cols[i], rows);
  }

  lemma {:induction false} WellFormedAsStrings(c: ValueColumn, rows: nat)
    requires WellFormed(c, rows)
    ensures WellFormed(AsStrings(c), rows)
  {
    hide Rank, BitSet;
  }

  // ---------------------------------------------------------------------------------------
  // No ragged batch.

  /** Every column holds one cell per row, and its statistics account for every cell since `base`. */
  predicate Aligned(e: Enc, base: seq<nat>) {
    && |base| == |e.cols|
    && forall i :: 0 <= i < |e.cols| ==> |e.cols[i].cells| == e.rows && Total(e.cols[i].stats) == base[i] + e.rows
  }

  lemma {:induction false} PutCounts(c: Column, o: Outcome)
    ensures |Put(c, o).cells| == |c.cells| + 1 && Total(Put(c, o).stats) == Total(c.stats) + 1
  {
  }

  lemma {:induction false} RowAligned(e: Enc, outs: seq<Outcome>, base: seq<nat>)
    requires Aligned(e, base) && |outs| == |e.cols|
    ensures Aligned(PutRow(e, outs).0, base)
  {
    hide Total;
    forall i | 0 <= i < |e.cols|
      ensures |Put(e.cols[i], outs[i]).cells| == e.rows + 1 &&
              Total(Put(e.cols[i], outs[i]).stats) == base[i] + e.rows + 1
    {
      PutCounts(e.cols[i], outs[i]);
    }
  }

  lemma {:induction false} CausesSize(nulls: seq<NullCell>)
    ensures |Causes(nulls)| == |nulls|
  {
    if nulls != [] { CausesSize(nulls[..|nulls| - 1]); }
  }

  lemma {:induction false} ColumnsAligned(e: Enc, rows: int, cols: seq<ColumnValues>, base: seq<nat>)
    requires Aligned(e, base) && AppendColumns(e, rows, cols).Some?
    ensures Aligned(AppendColumns(e, rows, cols).value, base)
  {
    hide Spread, Causes;
    forall i | 0 <= i < |e.cols| ensures |Causes(cols[i].nulls)| == |cols[i].nulls| { CausesSize(cols[i].nulls); }
  }

  datatype Call = Ad(ad: ArrowSpec.Ad) | Values(vals: seq<Value>) | Columns(rows: int, cols: seq<ColumnValues>)

  function Encoded1(e: Enc, c: Call): Enc {
    match c
    case Ad(ad) => Append(e, ad).0
    case Values(vals) => AppendValues(e, vals).0
    case Columns(rows, cols) => if AppendColumns(e, rows, cols).Some? then AppendColumns(e, rows, cols).value else e
  }

  function EncodedAll(e: Enc, calls: seq<Call>): Enc {
    if calls == [] then e else Encoded1(EncodedAll(e, calls[..|calls| - 1]), calls[|calls| - 1])
  }

  /** Whatever ads, values and columns an encoder is given, strict or not, its columns stay aligned:
      a cell per row, and a count for every cell. */
  lemma {:induction false} NeverRagged(e: Enc, calls: seq<Call>, base: seq<nat>)
    requires Aligned(e, base)
    ensures Aligned(EncodedAll(e, calls), base)
  {
    hide Aligned, PutRow, AppendColumns;
    if calls != [] {
      var n := |calls| - 1;
      NeverRagged(e, calls[..n], base);
      var e1 := EncodedAll(e, calls[..n]);
      match calls[n] {
        case Ad(ad) => RowAligned(e1, AdOutcomes(e1, ad), base);
        case Values(vals) => if e1.tail.None? && |vals| == |e1.cols| { RowAligned(e1, Encoded(e1.cols, vals), base); }
        case Columns(rows, cols) => if AppendColumns(e1, rows, cols).Some? { ColumnsAligned(e1, rows, cols, base); }
      }
    }
  }
}
