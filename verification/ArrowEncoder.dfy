/** The encoder object and the loops that feed it. */
module ArrowEncoder {
  import opened Text
  import S = ArrowSpec
  import opened ArrowSpec
  import T = ArrowTheorems
  import L = ArrowScan

  // ---------------------------------------------------------------------------------------
  // Relay columns.

  lemma {:induction false} ExceptionMissing(xs: seq<Exception>, r: int)
    requires !HasException(xs, r)
    ensures ExceptionAt(xs, r) == Undefined
  {
    if xs != [] {
      forall k | 0 <= k < |xs[1..]| ensures xs[1..][k].row != r { assert xs[1..][k] == xs[k + 1]; }
      ExceptionMissing(xs[1..], r);
    }
  }

  /** unpackValueColumn: one forward pass with a running dense index and a running exception cursor. */
  method UnpackValueColumn(c: ValueColumn, rows: nat) returns (dst: seq<Value>)
    requires Ascending(c.exceptions) && (T.Relayed(c.kind) ==> Rank(c.valid, rows) <= DenseLength(c))
    ensures dst == Unpacked(c, rows)
  {
    hide BitSet, ExceptionAt;
    dst := [];
    var dense, exc := 0, 0;
    for row := 0 to rows
      invariant dense == Rank(c.valid, row) && 0 <= exc <= |c.exceptions| && |dst| == row
      invariant forall k :: 0 <= k < exc ==> c.exceptions[k].row < row
      invariant forall r :: 0 <= r < row ==> dst[r] == ValueAt(c, r)
    {
      T.RankStep(c.valid, row);
      if !BitSet(c.valid, row) {
        while exc < |c.exceptions| && c.exceptions[exc].row < row
          invariant 0 <= exc <= |c.exceptions| && forall k :: 0 <= k < exc ==> c.exceptions[k].row < row
        {
          exc := exc + 1;
        }
        if exc < |c.exceptions| && c.exceptions[exc].row == row {
          T.ExceptionFound(c.exceptions, exc);
          dst := dst + [c.exceptions[exc].value];
        } else {
          NoneAt(c.exceptions, exc, row);
          ExceptionMissing(c.exceptions, row);
          dst := dst + [Undefined];
        }
      } else {
        T.RankMonotone(c.valid, row + 1, rows);
        var v := match c.kind
          case KindInt => IntV(c.ints.value[dense])
          case KindReal => RealV(c.reals.value[dense])
          case KindBool => BoolV(c.bools.value[dense])
          case KindString => StrV(c.strs.value[dense])
          case _ => Error;
        dst := dst + [v];
        dense := dense + 1;
      }
    }
  }

  lemma {:induction false} NoneAt(xs: seq<Exception>, exc: nat, row: int)
    requires Ascending(xs) && exc <= |xs| && (forall k :: 0 <= k < exc ==> xs[k].row < row)
    requires exc < |xs| ==> xs[exc].row > row
    ensures !HasException(xs, row)
  {
    forall k | 0 <= k < |xs| ensures xs[k].row != row {
      if k > exc { assert xs[exc].row < xs[k].row; }
    }
  }

  /** columnValuesOf. */
  method RelayColumnValues(c: ValueColumn) returns (out: Option<ColumnValues>)
    ensures out == ColumnValuesOf(c)
  {
    if c.kind == KindOther {
      return None;
    }
    var nulls := [];
    for i := 0 to |c.exceptions|
      invariant NullsOf(c.exceptions[..i]) == Some(nulls)
    {
      var x := c.exceptions[i];
      assert c.exceptions[..i + 1][..i] == c.exceptions[..i];
      if x.nonScalar || (x.value != Undefined && x.value != Error) {
        ghost var upto := NullsOf(c.exceptions[..i + 1]);
        assert upto.None?;
        if NullsOf(c.exceptions).Some? {
          T.NullsPrefix(c.exceptions, i + 1);
        }
        return None;
      }
      nulls := nulls + [NullCell(x.row, if x.value == Undefined then WasUndefined else WasError)];
    }
    assert c.exceptions[..|c.exceptions|] == c.exceptions;
    out := Some(ColumnValues(if c.kind == KindInt then c.ints else None, if c.kind == KindReal then c.reals else None,
                             if c.kind == KindBool then c.bools else None,
                             if c.kind == KindString || c.kind == KindStringDict then c.strs else None, c.valid,
                                 nulls));
  }

  /** spread: the dense values, one per valid row, laid out one per row; None is the index past the end that
      a bitmap with more rows than values runs into. */
  method SpreadDense(k: Kind, c: ColumnValues, rows: nat) returns (cells: Option<seq<Cell>>)
    requires Dense(c).Some? && k != OtherK
    requires match k
             case IntK => c.ints.Some?
             case RealK => c.reals.Some?
             case StringK => c.strs.Some?
             case BoolK => c.bools.Some?
             case TimeK => c.ints.Some?
             case OtherK => true
    ensures cells == if Rank(c.valid, rows) <= Dense(c).value then Some(Spread(k, c, rows)) else None
  {
    hide BitSet;
    var out := new Cell[rows](_ => Null);
    var d := 0;
    for r := 0 to rows
      invariant d == Rank(c.valid, r) <= Dense(c).value
      invariant forall j :: 0 <= j < r ==> out[j] == Spread(k, c, rows)[j]
    {
      T.RankStep(c.valid, r);
      if BitSet(c.valid, r) {
        T.RankMonotone(c.valid, r + 1, rows);
        if d >= Dense(c).value {
          return None;
        }
        out[r] := match k
          case IntK => IntC(c.ints.value[d])
          case RealK => RealC(c.reals.value[d])
          case StringK => StrC(c.strs.value[d])
          case BoolK => BoolC(c.bools.value[d])
          case TimeK => TimeC(c.ints.value[d])
          case OtherK => Null;
        d := d + 1;
      } else {
        out[r] := Null;
      }
    }
    assert out[..] == Spread(k, c, rows);
    cells := Some(out[..]);
  }

  // ---------------------------------------------------------------------------------------
  // The encoder.

  /** The validity a fitting column must carry for spread to stay inside its dense values. */
  ghost predicate Packed(c: ColumnValues, rows: int) {
    Dense(c).Some? && rows >= 0 && Dense(c).value + |c.nulls| == rows ==> Rank(c.valid, rows) <= Dense(c).value
  }

  /** What became of a batch offered column-wise. */
  datatype Took = Appended | Declined | Panicked

  /** Two rows, one value and one null, and a bitmap that claims both: the batch fits, and appending it panics. */
  lemma {:induction false} ClaimsTooMany(e: Enc)
    requires e.tail.None? && |e.cols| == 1 && e.cols[0].kind == IntK && e.cols[0].nullable
    ensures var c := ColumnValues(Some([7]), None, None, None, [3], [NullCell(0, Absent)]);
            S.AppendColumns(e, 2, [c]).Some? && !Packed(c, 2)
  {
    hide AppendColumn, Causes;
    var c := ColumnValues(Some([7]), None, None, None, [3], [NullCell(0, Absent)]);
    assert BitSet(c.valid, 0) && BitSet(c.valid, 1);
    assert Rank(c.valid, 1) == 1 && Rank(c.valid, 2) == 2;
  }

  class Encoder {
    const tail: Option<nat>
    const strict: bool
    var cols: seq<Column>
    var rows: nat
    var colBatches: nat

    function E(): Enc
      reads this
    {
      Enc(cols, tail, strict, rows)
    }

    constructor (columns: seq<Column>, tailAt: Option<nat>, strictly: bool)
      ensures E() == Enc(columns, tailAt, strictly, 0)
    {
      cols, tail, strict, rows, colBatches := columns, tailAt, strictly, 0, 0;
    }

    /** The row loop Append and AppendValues share: every column takes its cell, and the first fault
        waits for the end of the row. */
    method PutCells(outs: seq<Outcome>) returns (fault: Option<Fault>)
      requires |outs| == |cols|
      modifies this
      ensures (E(), fault) == PutRow(old(E()), outs) && colBatches == old(colBatches)
    {
      hide Put, FaultOf;
      ghost var before := cols;
      fault := None;
      for i := 0 to |outs|
        invariant |cols| == |before| == |outs| && rows == old(rows) && colBatches == old(colBatches)
        invariant forall j :: 0 <= j < i ==> cols[j] == Put(before[j], outs[j])
        invariant forall j :: i <= j < |cols| ==> cols[j] == before[j]
        invariant fault == FirstFault(before[..i], strict, outs[..i])
      {
        var err := FaultOf(cols[i], strict, outs[i]);
        assert before[..i + 1][..i] == before[..i] && outs[..i + 1][..i] == outs[..i];
        cols := cols[i := Put(cols[i], outs[i])];
        if err.Some? && fault.None? {
          fault := err;
        }
      }
      assert before[..|outs|] == before && outs[..|outs|] == outs;
      assert cols == PutRow(old(E()), outs).0.cols;
      rows := rows + 1;
    }

    method AppendValues(vals: seq<Value>) returns (fault: Option<Fault>)
      modifies this
      ensures (E(), fault) == S.AppendValues(old(E()), vals) && colBatches == old(colBatches)
    {
      hide Encode, PutRow;
      if tail.Some? {
        return Some(HasTail);
      }
      if |vals| != |cols| {
        return Some(WrongWidth);
      }
      fault := PutCells(Encoded(cols, vals));
    }

    /** appendTail's text: what no typed column took. */
    method RenderTail(ad: Ad, taken: set<string>) returns (o: Outcome)
      ensures o == TailOutcome(ad, taken)
    {
      hide Fold;
      var text := "";
      for i := 0 to |ad|
        invariant text == TailText(ad[..i], taken)
      {
        assert ad[..i + 1][..i] == ad[..i];
        if Fold(ad[i].name) !in taken {
          text := text + (if text == "" then "[ " else "; ") + ad[i].text;
        }
      }
      assert ad[..|ad|] == ad;
      o := if text == "" then Missing(Absent) else Direct(StrC(text + " ]"));
    }

    method Append(ad: Ad) returns (fault: Option<Fault>)
      modifies this
      ensures (E(), fault) == S.Append(old(E()), ad) && colBatches == old(colBatches)
    {
      hide PutRow, AdOutcome, TailOutcome;
      var outs := [];
      for i := 0 to |cols|
        invariant |outs| == i && unchanged(this)
        invariant forall j :: 0 <= j < i ==> outs[j] == AdOutcomes(E(), ad)[j]
      {
        if tail == Some(i) {
          var o := RenderTail(ad, TypedNames(E()));
          outs := outs + [o];
        } else {
          outs := outs + [AdOutcome(cols[i], ad)];
        }
      }
      assert outs == AdOutcomes(E(), ad);
      fault := PutCells(outs);
    }

    /** AppendColumns: the batch, or nothing, unless a column's bitmap claims more rows than it has values. */
    method AppendColumns(n: int, batch: seq<ColumnValues>) returns (took: Took)
      modifies this
      ensures took.Declined? <==> S.AppendColumns(old(E()), n, batch).None?
      ensures took.Panicked? <==> !took.Declined? && exists i :: 0 <= i < |batch| && !Packed(batch[i], n)
      ensures took.Appended? ==> E() == S.AppendColumns(old(E()), n, batch).value
      ensures took.Declined? ==> E() == old(E())
      ensures colBatches == old(colBatches) + if took.Appended? then 1 else 0
    {
      hide Spread, Causes, Packed, Rank;
      if tail.Some? || |batch| != |cols| || n < 0 {
        return Declined;
      }
      for i := 0 to |batch|
        invariant unchanged(this)
        invariant forall j :: 0 <= j < i ==> ColumnFits(cols[j], n, batch[j])
      {
        if !ColumnFits(cols[i], n, batch[i]) {
          return Declined;
        }
      }
      ghost var before := cols;
      for i := 0 to |batch|
        invariant |cols| == |before| == |batch| && rows == old(rows) && colBatches == old(colBatches)
        invariant forall j :: 0 <= j < i ==> cols[j] == S.AppendColumn(before[j], n, batch[j]) && Packed(batch[j], n)
        invariant forall j :: i <= j < |cols| ==> cols[j] == before[j]
      {
        var col := AppendColumn(cols[i], n, batch[i]);
        if col.None? {
          return Panicked;
        }
        cols := cols[i := col.value];
      }
      rows := rows + n;
      colBatches := colBatches + 1;
      took := Appended;
    }

    /** appendColumn on a column that fits. */
    method AppendColumn(col: Column, n: nat, c: ColumnValues) returns (r: Option<Column>)
      requires ColumnFits(col, n, c)
      ensures r == if Packed(c, n) then Some(S.AppendColumn(col, n, c)) else None
    {
      hide Spread, Rank, Causes;
      var causes := CountCauses(c.nulls);
      var cells := SpreadDense(col.kind, c, n);
      if cells.None? {
        return None;
      }
      r := Some(col.(cells := col.cells + cells.value,
                     stats := col.stats.(direct := col.stats.direct + Dense(c).value,
                                         nulls := col.stats.nulls + causes)));
    }

    method CountCauses(nulls: seq<NullCell>) returns (m: multiset<Cause>)
      ensures m == Causes(nulls)
    {
      m := multiset{};
      for k := 0 to |nulls|
        invariant m == Causes(nulls[..k])
      {
        T.CausesStep(nulls, k);
        m := m + multiset{nulls[k].cause};
      }
      assert nulls[..|nulls|] == nulls;
    }

    /** The batch callback of scanInto without the record cuts: column-wise if the batch can go that
        way, else cell by cell. */
    method TakeBatch(n: nat, batch: seq<ValueColumn>)
      requires tail.None? && |batch| == |cols| && T.WellFormedBatch(batch, n)
      modifies this
      ensures E() == match S.TakeBatch(old(E()), n, batch)
                     case Some(e) => e
                     case None => AppendRows(old(E()), Grid(batch, n))
    {
      hide WellFormed, ColumnValuesOf, S.AppendColumns, T.WellFormedBatch;
      var colv, ok := [], true;
      var i := 0;
      while i < |batch| && ok
        invariant 0 <= i <= |batch| && unchanged(this)
        invariant if ok then AllColumnValues(batch[..i]) == Some(colv) else AllColumnValues(batch).None?
      {
        var cv := RelayColumnValues(batch[i]);
        assert batch[..i + 1][..i] == batch[..i];
        if cv.None? {
          ok := false;
          if AllColumnValues(batch).Some? { T.AllColumnsAt(batch, i); }
        } else {
          colv := colv + [cv.value];
        }
        i := i + 1;
      }
      var took := Declined;
      if ok {
        assert batch[..|batch|] == batch;
        BatchPacked(batch, colv, n);
        took := AppendColumns(n, colv);
      }
      if took.Declined? {
        CellByCell(n, batch);
      }
    }

    method CellByCell(n: nat, batch: seq<ValueColumn>)
      requires tail.None? && |batch| == |cols| && T.WellFormedBatch(batch, n)
      modifies this
      ensures E() == AppendRows(old(E()), Grid(batch, n))
    {
      hide WellFormed, S.AppendValues, AppendRows;
      var cells := [];
      for i := 0 to |batch|
        invariant |cells| == i && unchanged(this)
        invariant forall j :: 0 <= j < i ==> cells[j] == Unpacked(batch[j], n)
      {
        ReadyToUnpack(batch[i], n);
        var col := UnpackValueColumn(batch[i], n);
        cells := cells + [col];
      }
      ghost var grid := Grid(batch, n);
      RowsNone(E());
      assert grid[..0] == [];
      for r := 0 to n
        invariant E() == AppendRows(old(E()), grid[..r])
      {
        var vals := seq(|batch|, i requires 0 <= i < |batch| => cells[i][r]);
        assert vals == grid[r];
        RowsStep(old(E()), grid, r);
        var _ := AppendValues(vals);
      }
      assert grid[..n] == grid;
    }
  }

  lemma {:induction false} RowsNone(e: Enc)
    ensures AppendRows(e, []) == e
  {
  }

  lemma {:induction false} RowsStep(e: Enc, grid: seq<seq<Value>>, r: nat)
    requires r < |grid|
    ensures AppendRows(e, grid[..r + 1]) == S.AppendValues(AppendRows(e, grid[..r]), grid[r]).0
  {
    hide S.AppendValues;
    assert grid[..r + 1][..r] == grid[..r];
  }

  lemma {:induction false} ReadyToUnpack(c: ValueColumn, n: nat)
    requires WellFormed(c, n)
    ensures Ascending(c.exceptions) && (T.Relayed(c.kind) ==> Rank(c.valid, n) <= DenseLength(c))
  {
    hide Rank;
  }

  lemma {:induction false} BatchPacked(batch: seq<ValueColumn>, colv: seq<ColumnValues>, n: nat)
    requires T.WellFormedBatch(batch, n) && AllColumnValues(batch) == Some(colv)
    ensures |colv| == |batch| && forall i :: 0 <= i < |colv| ==> Packed(colv[i], n)
  {
    hide WellFormed, ColumnValuesOf, Packed;
    if batch != [] { T.AllColumnsAt(batch, 0); }
    forall i | 0 <= i < |batch| ensures Packed(colv[i], n) {
      T.AllColumnsAt(batch, i);
      ColumnPacked(batch[i], colv[i], n);
    }
  }

  lemma {:induction false} ColumnPacked(c: ValueColumn, cv: ColumnValues, n: nat)
    requires WellFormed(c, n) && ColumnValuesOf(c) == Some(cv)
    ensures Packed(cv, n)
  {
    hide Rank, WellFormed;
    T.DenseIsRank(c, cv, n);
  }

  // ---------------------------------------------------------------------------------------
  // Store columns.

  /** soleKind. */
  method FindSoleKind(c: L.StoreColumn) returns (kind: Option<L.StoreKind>)
    ensures kind == L.SoleKind(c.kinds)
  {
    var found := L.VUndefined;
    for i := 0 to |c.kinds|
      invariant L.SoleKind(c.kinds[..i]) == Some(found)
    {
      assert c.kinds[..i + 1][..i] == c.kinds[..i];
      var k := c.kinds[i];
      if k != L.VUndefined && k != L.VError {
        if found != L.VUndefined && k != found {
          TwoKinds(c.kinds, i + 1);
          return None;
        }
        found := k;
      }
    }
    assert c.kinds[..|c.kinds|] == c.kinds;
    kind := Some(found);
  }

  lemma {:induction false} TwoKinds(kinds: seq<L.StoreKind>, i: nat)
    requires i <= |kinds| && L.SoleKind(kinds[..i]).None?
    ensures L.SoleKind(kinds).None?
    decreases |kinds|
  {
    if i < |kinds| {
      assert kinds[..|kinds| - 1][..i] == kinds[..i];
      TwoKinds(kinds[..|kinds| - 1], i);
    } else {
      assert kinds[..i] == kinds;
    }
  }

  /** columnRowsOfBatch. */
  method StoreColumnRows(bits: L.FromBits, c: L.StoreColumn, rows: nat) returns (out: Option<L.ColumnRows>)
    requires L.Holds(c, rows)
    ensures out == L.ColumnRowsOf(bits, c)
  {
    hide L.SoleKind;
    var kind := FindSoleKind(c);
    if kind.None? {
      return None;
    }
    var nulls := [];
    for i := 0 to rows
      invariant nulls == L.NullRows(c.kinds[..i])
      invariant |nulls| <= i
    {
      assert c.kinds[..i + 1][..i] == c.kinds[..i];
      if c.kinds[i] == L.VUndefined {
        nulls := nulls + [NullCell(i, WasUndefined)];
      } else if c.kinds[i] == L.VError {
        nulls := nulls + [NullCell(i, WasError)];
      }
    }
    assert c.kinds[..rows] == c.kinds;
    var valid := if nulls == [] then None else Some(seq(rows, r requires 0 <= r < rows => !L.NullKind(c.kinds[r])));
    assert valid == L.ValidRows(c.kinds);
    var none := L.ColumnRows(None, None, None, None, valid, nulls);
    match kind.value {
      case VUndefined => out := Some(none.(valid := None));
      case VInt => out := Some(none.(ints := Some(c.num)));
      case VString =>
        if !L.EmptyAtNulls(c) {
          return None;
        }
        out := Some(none.(strs := Some(c.str)));
      case VReal =>
        var reals := seq(rows, r requires 0 <= r < rows => bits(c.num[r]));
        assert reals == seq(|c.num|, r requires 0 <= r < |c.num| => bits(c.num[r]));
        out := Some(none.(reals := Some(reals)));
      case VBool =>
        var bools := seq(rows, r requires 0 <= r < rows => c.num[r] != 0);
        assert bools == seq(|c.num|, r requires 0 <= r < |c.num| => c.num[r] != 0);
        out := Some(none.(bools := Some(bools)));
      case _ => out := None;
    }
  }
}
