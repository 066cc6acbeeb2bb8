/** Exactly which columns and batches the fast paths take (flightsvc/statement.go, flightsvc/localscan.go,
    arrowtype/columns.go): they decline nothing they could describe. */
module ArrowTaken {
  import opened Text
  import opened ArrowSpec
  import opened ArrowTheorems
  import opened ArrowScan

  // ---------------------------------------------------------------------------------------
  // Relay batches.

  /** A relay column goes into the column as it is: its dense slice is there and of the column's kind, and what it
      sets aside are nulls, of which there are none unless the column admits them. */
  predicate TakesRelay(col: Column, c: ValueColumn) {
    && (forall k :: 0 <= k < |c.exceptions| ==>
          !c.exceptions[k].nonScalar && (c.exceptions[k].value == Undefined || c.exceptions[k].value == Error))
    && (c.exceptions != [] ==> col.nullable)
    && match c.kind
       case KindInt => c.ints.Some? && (col.kind == IntK || col.kind == TimeK)
       case KindReal => c.reals.Some? && col.kind == RealK
       case KindBool => c.bools.Some? && col.kind == BoolK
       case KindString => c.strs.Some? && col.kind == StringK
       case KindStringDict => c.strs.Some? && col.kind == StringK
       case KindOther => false
  }

  lemma {:induction false} NullsOfSome(xs: seq<Exception>)
    ensures NullsOf(xs).Some? <==>
            forall k :: 0 <= k < |xs| ==> !xs[k].nonScalar && (xs[k].value == Undefined || xs[k].value == Error)
    ensures NullsOf(xs).Some? ==> |NullsOf(xs).value| == |xs|
  {
    if xs != [] {
      var n := |xs| - 1;
      NullsOfSome(xs[..n]);
      assert forall k :: 0 <= k < n ==> xs[..n][k] == xs[k];
    }
  }

  lemma {:induction false} RelayTaken(col: Column, c: ValueColumn, rows: nat)
    requires WellFormed(c, rows)
    ensures ColumnValuesOf(c).Some? && ColumnFits(col, rows, ColumnValuesOf(c).value) <==> TakesRelay(col, c)
  {
    hide WellFormed, NullsOf, Rank, BitSet;
    NullsOfSome(c.exceptions);
    if c.kind != KindOther && ColumnValuesOf(c).Some? { DenseIsRank(c, ColumnValuesOf(c).value, rows); }
  }

  lemma {:induction false} AllColumnsIff(batch: seq<ValueColumn>)
    ensures AllColumnValues(batch).Some? <==> forall i :: 0 <= i < |batch| ==> ColumnValuesOf(batch[i]).Some?
    ensures AllColumnValues(batch).Some? ==> |AllColumnValues(batch).value| == |batch|
  {
    hide ColumnValuesOf;
    if batch != [] {
      var n := |batch| - 1;
      AllColumnsIff(batch[..n]);
      assert forall i :: 0 <= i < n ==> batch[..n][i] == batch[i];
    }
  }

  /** A well-formed batch is taken column-wise exactly when there is no tail and each of its columns goes into the
      encoder's as it is. */
  lemma {:induction false} TakenIff(e: Enc, rows: nat, batch: seq<ValueColumn>)
    requires WellFormedBatch(batch, rows)
    ensures TakeBatch(e, rows, batch).Some? <==>
            && e.tail.None? && |batch| == |e.cols|
            && forall i :: 0 <= i < |batch| ==> TakesRelay(e.cols[i], batch[i])
  {
    hide WellFormed, ColumnFits, TakesRelay, ColumnValuesOf, AppendColumn, AllColumnValues;
    AllColumnsIff(batch);
    forall i | 0 <= i < |batch| && |batch| == |e.cols|
      ensures (ColumnValuesOf(batch[i]).Some? && ColumnFits(e.cols[i], rows, ColumnValuesOf(batch[i]).value)) <==>
              TakesRelay(e.cols[i], batch[i])
      ensures AllColumnValues(batch).Some? ==> ColumnValuesOf(batch[i]) == Some(AllColumnValues(batch).value[i])
    {
      RelayTaken(e.cols[i], batch[i], rows);
      if AllColumnValues(batch).Some? { AllColumnsAt(batch, i); }
    }
  }

  // ---------------------------------------------------------------------------------------
  // Store batches.

  predicate SameTyped(kinds: seq<StoreKind>, k: StoreKind) {
    forall r :: 0 <= r < |kinds| ==> NullKind(kinds[r]) || kinds[r] == k
  }

  predicate NoneTyped(kinds: seq<StoreKind>) { forall r :: 0 <= r < |kinds| ==> NullKind(kinds[r]) }

  predicate SomeNull(kinds: seq<StoreKind>) { exists r :: 0 <= r < |kinds| && NullKind(kinds[r]) }

  /** A store column goes in as it is: its values are all of the one kind the column holds, with nulls only where
      they may be and no text at them; a column without a value needs only to admit nulls. */
  predicate TakesStore(col: Column, c: StoreColumn) {
    if NoneTyped(c.kinds) then col.nullable
    else
      && (SomeNull(c.kinds) ==> col.nullable)
      && match col.kind
         case IntK => SameTyped(c.kinds, VInt)
         case TimeK => SameTyped(c.kinds, VInt)
         case RealK => SameTyped(c.kinds, VReal)
         case BoolK => SameTyped(c.kinds, VBool)
         case StringK => SameTyped(c.kinds, VString) && EmptyAtNulls(c)
         case OtherK => false
  }

  lemma {:induction false} SoleKindIs(kinds: seq<StoreKind>)
    ensures var s := SoleKind(kinds);
            && (s == Some(VUndefined) <==> NoneTyped(kinds))
            && (s.Some? ==> SameTyped(kinds, s.value) && s.value != VError)
            && (forall k :: !NullKind(k) && SameTyped(kinds, k) && !NoneTyped(kinds) ==> s == Some(k))
  {
    if kinds != [] {
      var n := |kinds| - 1;
      SoleKindIs(kinds[..n]);
      assert forall r :: 0 <= r < n ==> kinds[..n][r] == kinds[r];
      forall k | !NullKind(k) && SameTyped(kinds, k) && !NoneTyped(kinds) ensures SoleKind(kinds) == Some(k) {
        assert SameTyped(kinds[..n], k);
      }
    }
  }

  lemma {:induction false} NullRowsAre(kinds: seq<StoreKind>)
    ensures |NullRows(kinds)| <= |kinds|
    ensures NullRows(kinds) == [] <==> !SomeNull(kinds)
    ensures |NullRows(kinds)| == |kinds| <==> NoneTyped(kinds)
  {
    if kinds != [] {
      var n := |kinds| - 1;
      NullRowsAre(kinds[..n]);
      assert forall r :: 0 <= r < n ==> kinds[..n][r] == kinds[r];
      if SomeNull(kinds[..n]) {
        var r :| 0 <= r < n && NullKind(kinds[..n][r]);
        assert NullKind(kinds[r]);
      }
    }
  }

  /** The in-process path takes a store column exactly when it goes in as it is. */
  lemma {:induction false} StoreTaken(bits: FromBits, col: Column, c: StoreColumn, rows: nat)
    requires Holds(c, rows)
    ensures ColumnRowsOf(bits, c).Some? && RowsFit(col, rows, ColumnRowsOf(bits, c).value) <==> TakesStore(col, c)
  {
    hide SoleKind, NullRows, NoneTyped, SomeNull, EmptyAtNulls;
    SoleKindIs(c.kinds);
    NullRowsAre(c.kinds);
    if !NoneTyped(c.kinds) { OneKind(c.kinds); }
  }

  lemma {:induction false} OneKind(kinds: seq<StoreKind>)
    requires !NoneTyped(kinds)
    ensures forall j, k :: SameTyped(kinds, j) && SameTyped(kinds, k) ==> j == k || NullKind(j) || NullKind(k)
  {
    var r :| 0 <= r < |kinds| && !NullKind(kinds[r]);
    forall j, k | SameTyped(kinds, j) && SameTyped(kinds, k) ensures j == k || NullKind(j) || NullKind(k) {
      assert kinds[r] == j && kinds[r] == k;
    }
  }

  /** And a whole store batch when each of its columns does. */
  lemma {:induction false} AcceptsIff(bits: FromBits, e: Enc, b: LocalBatch)
    requires StoreBatch(b)
    ensures Accepts(bits, e, b) <==>
            && |b.cols| == |e.cols| && e.tail.None?
            && forall i :: 0 <= i < |b.cols| ==> TakesStore(e.cols[i], b.cols[i])
  {
    hide ColumnRowsOf, RowsFit, TakesStore;
    forall i | 0 <= i < |b.cols| && |b.cols| == |e.cols|
      ensures (ColumnRowsOf(bits, b.cols[i]).Some? &&
               RowsFit(e.cols[i], b.rows, ColumnRowsOf(bits, b.cols[i]).value)) <==> TakesStore(e.cols[i], b.cols[i])
    {
      StoreTaken(bits, e.cols[i], b.cols[i], b.rows);
    }
  }
}
