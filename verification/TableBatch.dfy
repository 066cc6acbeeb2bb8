/** How much a sink holds back, and what it writes at all. */
module TableBatch {
  import opened Text
  import opened Store
  import HubKey
  import opened TableSpec
  import opened TableRun
  import opened TableTheorems

  /** The open transaction writes at most as many rows as were counted, and fewer than a full batch. */
  predicate Small(s: Sink) { |Open(s.tx)| <= s.pending < 4096 && (s.tx.None? ==> s.pending == 0) }

  /** The same before the check that flushes a full batch. */
  predicate AtMostFull(s: Sink) { |Open(s.tx)| <= s.pending <= 4096 && (s.tx.None? ==> s.pending == 0) }

  lemma {:induction false} PutSize(m: Txn, hk: string, row: Option<Ad>)
    ensures |m[hk := row]| <= |m| + 1
  {
    if hk in m {
      assert m[hk := row].Keys == m.Keys;
      SameSize(m, m[hk := row]);
    } else {
      assert (m[hk := row] - {hk}) == m;
    }
  }

  lemma {:induction false} SameSize(a: Txn, b: Txn)
    requires a.Keys == b.Keys
    ensures |a| == |b|
  {
    assert |a| == |a.Keys| && |b| == |b.Keys|;
  }

  /** In catch-up a row that is already stored as it comes costs no write; every other upsert is one. */
  lemma {:induction false} IdenticalSkips(w: World, s: Sink, key: string, ad: Ad, now: int)
    ensures var s1, hk := UpsertRow(w, s, key, ad, now), HubKey.Key(s.schedd, key);
            var v, v1 := View(w.rows, s.tx), View(w.rows, s1.tx);
            && hk in v1
            && (s.catchup && hk in v && v[hk] == v1[hk] <==> s1.pending == s.pending)
            && (s1.pending == s.pending ==> Open(s1.tx) == Open(s.tx))
            && (s1.pending != s.pending ==>
                s1.pending == s.pending + 1 && hk in Open(s1.tx) && Open(s1.tx)[hk] == Some(v1[hk]))
  {
    hide Commit, RowOf, HubKey.Key;
    var hk := HubKey.Key(s.schedd, key);
    var row := UpsertView(w, s, key, ad, now);
    ViewOpen(w.rows, s.tx);
    ViewLookup(w.rows, Some(Open(s.tx)), hk);
  }

  lemma {:induction false} RowSmall(w: World, s: Sink, key: string, ad: Ad, now: int)
    requires Small(s)
    ensures AtMostFull(UpsertRow(w, s, key, ad, now)) && AtMostFull(DeleteRow(w, s, key))
  {
    hide RowOf, HubKey.Key;
    var hk := HubKey.Key(s.schedd, key);
    PutSize(Open(s.tx), hk, Some(RowOf(s, Lookup(w.rows, Some(Open(s.tx)), hk), ad, now)));
    PutSize(Open(s.tx), hk, None);
  }

  lemma {:induction false} CommitSmall(w: World, s: Sink, o: Outcome)
    requires AtMostFull(s)
    ensures Small(CommitTxn(w, s, o).s)
  {
    hide Commit;
  }

  lemma {:induction false} SaveKeepsSmall(w: World, s: Sink, o: Outcome)
    requires Small(s)
    ensures Small(SaveCursor(w, s, o).s)
  {
  }

  lemma {:induction false} FlushSmall(w: World, s: Sink, f: Faults)
    requires AtMostFull(s)
    ensures Small(Flush(w, s, f).s)
  {
    hide CommitTxn, SaveCursor, Small;
    CommitSmall(w, s, f.commit);
    var r := CommitTxn(w, s, f.commit);
    SaveKeepsSmall(r.w, r.s, f.save);
  }

  lemma {:induction false} AfterSmall(w: World, s: Sink, c: Cursor, f: Faults)
    requires AtMostFull(s)
    ensures Small(AfterRow(w, s, c, f).s)
  {
    hide Flush;
    FlushSmall(w, NoteCursor(s, c), f);
  }

  lemma {:induction false} SyncedSmall(w: World, s: Sink, c: Cursor, f: Faults)
    requires Small(s)
    ensures Small(ApplySynced(w, s, c, f).s)
  {
    hide CommitTxn, SaveCursor, SweepFrom, Stale;
    CommitSmall(w, s, f.commit);
    var r := CommitTxn(w, s, f.commit);
    var r1 := if r.s.resetting then Sweep(r.w, r.s, f) else r;
    var s1 := if r.s.resetting then r1.s.(resetting := false, touched := {}) else r1.s;
    SaveKeepsSmall(r1.w, NoteCursor(s1.(catchup := false), c), f.save);
  }

  /** Every action keeps the batch small. */
  lemma {:induction false} SmallStep(sys: Sys, a: Action)
    requires Small(sys.s)
    ensures Small(Next(sys, a).s)
  {
    hide Flush, UpsertRow, DeleteRow, AfterRow, ApplySynced, HubKey.Key;
    var w, s := sys.w, sys.s;
    match a {
      case FlushNow(f) => FlushSmall(w, s, f);
      case Recv(c, f) =>
        match c {
          case Upsert(key, None, cur) =>
            AfterSmall(w, s, cur, f);
            AfterSmall(w, s.(touched := s.touched + {HubKey.Key(s.schedd, key)}), cur, f);
          case Upsert(key, Some(ad), cur) =>
            RowSmall(w, s, key, ad, f.now);
            AfterSmall(w, UpsertRow(w, s, key, ad, f.now), cur, f);
          case Delete(key, cur) =>
            RowSmall(w, s, key, map[], 0);
            AfterSmall(w, DeleteRow(w, s, key), cur, f);
          case Reset(cur) =>
            FlushSmall(w, s, f);
            var r := ApplyReset(w, s, f);
            AfterSmall(r.w, r.s, cur, f);
          case Synced(cur) => SyncedSmall(w, s, cur, f);
          case Gap(cur) => AfterSmall(w, s, cur, f);
        }
      case _ =>
    }
  }

  /** Over any run, whatever is delivered and whatever fails, the sink never holds a full batch back. */
  lemma {:induction false} BatchSmall(rows: Rows, schedd: string, status: bool, acts: seq<Action>)
    ensures Small(Run(Start(rows, schedd, status), acts).s)
  {
    SmallRun(Start(rows, schedd, status), acts);
  }

  lemma {:induction false} SmallRun(sys: Sys, acts: seq<Action>)
    requires Small(sys.s)
    ensures Small(Run(sys, acts).s)
    decreases |acts|
  {
    hide Next, Small;
    if acts != [] {
      SmallStep(sys, acts[0]);
      SmallRun(Next(sys, acts[0]), acts[1..]);
    }
  }

  // ---------------------------------------------------------------------------------------
  // How far the sink has come.

  /** A change that is taken leaves its cursor waiting to be committed, or committed with a batch that filled up;
      a Synced commits it. */
  lemma {:induction false} CursorFollows(w: World, s: Sink, c: Change, f: Faults)
    requires c.cursor.At? && Apply(w, s, c, f).ok
    ensures var r := Apply(w, s, c, f);
            || (!c.Synced? && r.s.nextCur == c.cursor)
            || (r.s.nextCur == Empty && r.s.cur == c.cursor && r.w.durable == c.cursor && r.s.tx.None?)
  {
    hide UpsertRow, DeleteRow, AfterRow, ApplyReset, ApplySynced, HubKey.Key;
    match c {
      case Upsert(key, None, cur) =>
        AfterFollows(w, s, cur, f);
        AfterFollows(w, s.(touched := s.touched + {HubKey.Key(s.schedd, key)}), cur, f);
      case Upsert(key, Some(ad), cur) => AfterFollows(w, UpsertRow(w, s, key, ad, f.now), cur, f);
      case Delete(key, cur) => AfterFollows(w, DeleteRow(w, s, key), cur, f);
      case Reset(cur) =>
        var r := ApplyReset(w, s, f);
        AfterFollows(r.w, r.s, cur, f);
      case Synced(cur) => SyncedFollows(w, s, cur, f);
      case Gap(cur) => AfterFollows(w, s, cur, f);
    }
  }

  lemma {:induction false} AfterFollows(w: World, s: Sink, c: Cursor, f: Faults)
    requires c.At?
    ensures var r := AfterRow(w, s, c, f);
            r.ok ==>
              || r.s.nextCur == c
              || (r.s.nextCur == Empty && r.s.cur == c && r.w.durable == c && r.s.tx.None?)
  {
    hide Commit;
  }

  lemma {:induction false} SyncedFollows(w: World, s: Sink, c: Cursor, f: Faults)
    requires c.At?
    ensures var r := ApplySynced(w, s, c, f);
            r.ok ==> r.s.nextCur == Empty && r.s.cur == c && r.w.durable == c && r.s.tx.None?
  {
    hide Commit, SweepFrom, Stale;
  }

  // ---------------------------------------------------------------------------------------
  // Rows that cannot be read.

  /** A row the sink cannot decode stays as the hub holds it, and during a replay it counts as delivered. */
  lemma {:induction false} UndecodableTouches(w: World, s: Sink, key: string, c: Cursor, f: Faults)
    requires Apply(w, s, Upsert(key, None, c), f).ok
    ensures var r := Apply(w, s, Upsert(key, None, c), f);
            && View(r.w.rows, r.s.tx) == View(w.rows, s.tx) && r.s.resetting == s.resetting
            && (s.resetting ==> r.s.touched == s.touched + {HubKey.Key(s.schedd, key)})
  {
    hide Commit, HubKey.Key;
    var s1 := if s.resetting then s.(touched := s.touched + {HubKey.Key(s.schedd, key)}) else s;
    CommitView(w, NoteCursor(s1, c), f.commit);
    ViewNone(View(w.rows, s.tx));
  }

  /** What a replay delivered, the sweep at its end leaves as it is. */
  lemma {:induction false} SweepSpares(w: World, s: Sink, c: Cursor, f: Faults, hk: string)
    requires s.resetting && hk in s.touched && ApplySynced(w, s, c, f).ok
    ensures var v, rows := View(w.rows, s.tx), ApplySynced(w, s, c, f).w.rows;
            (hk in rows <==> hk in v) && (hk in v ==> rows[hk] == v[hk])
  {
    hide View, CommitTxn, SaveCursor, SweepFrom, Stale;
    CommitView(w, s, f.commit);
    var r := CommitTxn(w, s, f.commit);
    CommitTouched(w, s, f.commit);
    StaleIs(f.scan.value, s.touched);
    SweepRemoves(r.w.rows, Stale(f.scan.value, s.touched), 0, f.sweep);
    var r1 := Sweep(r.w, r.s, f);
    SaveSame(r1.w, NoteCursor(r1.s.(resetting := false, touched := {}, catchup := false), c), f.save);
  }

  lemma {:induction false} CommitTouched(w: World, s: Sink, o: Outcome)
    ensures CommitTxn(w, s, o).s.touched == s.touched && CommitTxn(w, s, o).s.resetting == s.resetting
  {
    hide Commit;
  }
}
