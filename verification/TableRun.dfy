/** Runs of the table sink: any sequence of sessions, with failures at every store call, crashes,
    and other schedds' sinks writing the same table. */
module TableRun {
  import opened Text
  import opened Store
  import HubKey
  import opened TableSpec

  // ---------------------------------------------------------------------------------------
  // The source: one change log per watch epoch. A cursor At(e, n) covers the first n changes.

  datatype Op = Put(key: string, ad: Ad) | Del(key: string)

  type Logs = nat -> seq<Op>

  /** The source's rows after its first n changes. */
  function State(log: seq<Op>, n: nat): map<string, Ad>
    requires n <= |log|
  {
    if n == 0 then map[]
    else
      match log[n - 1]
      case Put(k, ad) => State(log, n - 1)[k := ad]
      case Del(k) => State(log, n - 1) - {k}
  }

  // ---------------------------------------------------------------------------------------
  // The feed: where the open session's stream stands.

  datatype Feed =
    | Idle                              // no session
    | AwaitReset                        // open, and the source will start with a Reset
    | Live(epoch: nat, pos: nat)        // delivering changes of one epoch in order
    | Replay(acc: map<string, Ad>)      // after a Reset: acc is the source's rows delivered so far

  datatype Sys = Sys(w: World, s: Sink, feed: Feed, high: map<nat, nat>, receipts: set<Receipt>)

  /** A heartbeat that arrived outside catch-up, and the hub time it arrived at. */
  datatype Receipt = Receipt(key: string, seqNo: Option<int>, beat: Option<int>, at: int)

  datatype Action =
    | Begin(resume: bool)
    | End
    | FlushNow(f: Faults)
    | Recv(c: Change, f: Faults)
    | Crash
    | Others(rows: Rows)

  /** The furthest position of epoch e ever delivered. */
  function High(high: map<nat, nat>, e: nat): nat { if e in high then high[e] else 0 }

  predicate Owned(schedd: string, hk: string) {
    |hk| >= |HubKey.Key(schedd, "")| && hk[..|HubKey.Key(schedd, "")|] == HubKey.Key(schedd, "")
  }

  /** Every row is under its own schedd's key and names that schedd. */
  ghost predicate RowsOk(rows: Rows) {
    forall hk :: hk in rows ==> NamedRow(hk, rows[hk])
  }

  ghost predicate NamedRow(hk: string, row: Ad) {
    exists schedd, k :: hk == HubKey.Key(schedd, k) && Selected(row, schedd)
  }

  predicate ScanOk(rows: Rows, schedd: string, scan: seq<string>) {
    && (forall hk :: hk in scan ==> hk in rows && Selected(rows[hk], schedd))
    && (forall hk :: hk in rows && Selected(rows[hk], schedd) ==> hk in scan)
  }

  /** What the stream may deliver next. Before Synced a replay carries no cursor; a resumed stream
      delivers the changes after its cursor in order; Synced comes when the source has nothing
      further that was ever delivered. */
  ghost predicate Delivers(sys: Sys, c: Change, f: Faults, logs: Logs) {
    match sys.feed
    case Live(e, pos) =>
      (match c
       case Upsert(k, Some(ad), cur) => pos < |logs(e)| && logs(e)[pos] == Put(k, ad) && cur == At(e, pos + 1)
       case Delete(k, cur) => pos < |logs(e)| && logs(e)[pos] == Del(k) && cur == At(e, pos + 1)
       case Reset(cur) => cur == Empty
       case Synced(cur) => pos >= High(sys.high, e) && (cur == Empty || cur == At(e, pos))
       case _ => false)
    case Replay(acc) =>
      (match c
       case Upsert(_, Some(_), cur) => cur == Empty
       case Delete(_, cur) => cur == Empty
       case Reset(cur) => cur == Empty
       case Synced(At(e, n)) =>
         && n <= |logs(e)| && n >= High(sys.high, e) && acc == State(logs(e), n)
         && (f.scan.Some? ==> ScanOk(CommitTxn(sys.w, sys.s, f.commit).w.rows, sys.s.schedd, f.scan.value))
       case _ => false)
    case AwaitReset => c == Reset(Empty)
    case Idle => false
  }

  ghost predicate Allowed(sys: Sys, a: Action, logs: Logs) {
    match a
    case Begin(_) => sys.feed == Idle
    case End => sys.feed != Idle
    case FlushNow(_) => sys.feed != Idle
    case Recv(c, f) => sys.s.failed || Delivers(sys, c, f, logs)
    case Crash => true
    case Others(rows) =>
      && RowsOk(rows)
      && (forall hk :: Owned(sys.s.schedd, hk) ==> (hk in rows <==> hk in sys.w.rows))
      && (forall hk :: Owned(sys.s.schedd, hk) && hk in rows ==> rows[hk] == sys.w.rows[hk])
  }

  function Advance(feed: Feed, c: Change): Feed {
    match c
    case Upsert(k, Some(ad), cur) =>
      if feed.Live? then Live(feed.epoch, feed.pos + 1) else if feed.Replay? then Replay(feed.acc[k := ad]) else feed
    case Delete(k, _) =>
      if feed.Live? then Live(feed.epoch, feed.pos + 1) else if feed.Replay? then Replay(feed.acc - {k}) else feed
    case Reset(_) => Replay(map[])
    case Synced(cur) => if feed.Replay? && cur.At? then Live(cur.epoch, cur.pos) else feed
    case _ => feed
  }

  function Raise(high: map<nat, nat>, feed: Feed): map<nat, nat> {
    if feed.Live? && feed.pos > High(high, feed.epoch) then high[feed.epoch := feed.pos] else high
  }

  function Receipts(s: Sink, c: Change, now: int): set<Receipt> {
    if s.status && !s.catchup && !s.failed && c.Upsert? && c.ad.Some? then
      {Receipt(HubKey.Key(s.schedd, c.key), IntOf(c.ad.value, SEQ), IntOf(c.ad.value, BEAT), now)}
    else {}
  }

  function Next(sys: Sys, a: Action): Sys {
    match a
    case Begin(resume) =>
      var s := BeginSession(sys.s);
      sys.(s := s, feed := if resume && s.cur.At? then Live(s.cur.epoch, s.cur.pos) else AwaitReset)
    case End => sys.(s := EndSession(sys.s), feed := Idle)
    case FlushNow(f) =>
      var r := FlushCall(sys.w, sys.s, f);
      sys.(w := r.w, s := r.s)
    case Recv(c, f) =>
      var r := Apply(sys.w, sys.s, c, f);
      var feed := Advance(sys.feed, c);
      Sys(r.w, r.s, if r.ok then feed else sys.feed, if sys.s.failed then sys.high else Raise(sys.high, feed),
          sys.receipts + Receipts(sys.s, c, f.now))
    case Crash => sys.(s := NewSink(sys.s.schedd, sys.s.status, sys.w.durable), feed := Idle)
    case Others(rows) => sys.(w := sys.w.(rows := rows))
  }

  // ---------------------------------------------------------------------------------------
  // What the hub holds against what the source had.

  /** Whose rows these are, and whether the table is syncstatus. */
  datatype Id = Id(schedd: string, status: bool)

  function IdOf(s: Sink): Id { Id(s.schedd, s.status) }

  /** A row without the attribute the hub adds for itself. */
  function Core(s: Id, row: Ad): Ad { if s.status then row - {RECEIVED} else row }

  function Named(s: Id, ad: Ad): Ad { ad[SCHEDD_NAME := StrV(s.schedd)] }

  function Have(s: Id, rows: Rows, k: string): Option<Ad> {
    var hk := HubKey.Key(s.schedd, k);
    if hk in rows then Some(Core(s, rows[hk])) else None
  }

  function WantIn(s: Id, src: map<string, Ad>, k: string): Option<Ad> {
    if k in src then Some(Core(s, Named(s, src[k]))) else None
  }

  /** The schedd's rows are exactly the source rows src: nothing missing, nothing extra. */
  ghost predicate Mirrors(s: Id, rows: Rows, src: map<string, Ad>) {
    forall k :: Have(s, rows, k) == WantIn(s, src, k)
  }

  /** Each row is the source's at some position from p up to the furthest delivered. */
  ghost predicate Seen(s: Id, rows: Rows, k: string, log: seq<Op>, p: nat, high: nat) {
    exists r :: p <= r <= high && r <= |log| && Have(s, rows, k) == WantIn(s, State(log, r), k)
  }

  ghost predicate Ahead(s: Id, rows: Rows, log: seq<Op>, p: nat, high: nat) {
    forall k :: Seen(s, rows, k, log, p, high)
  }

  /** Replaying from the cursor makes up for whatever the rows lack. */
  ghost predicate Heals(s: Id, high: map<nat, nat>, rows: Rows, cur: Cursor, logs: Logs) {
    cur.At? ==> Ahead(s, rows, logs(cur.epoch), cur.pos, High(high, cur.epoch))
  }

  function TheView(sys: Sys): Rows { View(sys.w.rows, sys.s.tx) }

  ghost predicate FeedInv(sys: Sys, logs: Logs) {
    match sys.feed
    case Idle => !sys.s.resetting
    case AwaitReset => !sys.s.resetting && sys.s.tx.None? && sys.s.nextCur == Empty
    case Live(e, pos) =>
      && !sys.s.resetting && pos <= High(sys.high, e)
      && sys.s.cur.At? && sys.s.cur.epoch == e && sys.s.cur.pos <= pos
      && (sys.s.nextCur.At? ==> sys.s.nextCur.epoch == e && sys.s.nextCur.pos <= pos)
      && Ahead(IdOf(sys.s), TheView(sys), logs(e), pos, High(sys.high, e))
    case Replay(acc) =>
      && sys.s.resetting && sys.s.cur == Empty && sys.w.durable == Empty && sys.s.nextCur == Empty
      && forall k :: TouchedOk(sys.s, TheView(sys), acc, k)
  }

  predicate TouchedOk(s: Sink, rows: Rows, acc: map<string, Ad>, k: string) {
    if HubKey.Key(s.schedd, k) in s.touched then Have(IdOf(s), rows, k) == WantIn(IdOf(s), acc, k) else k !in acc
  }

  ghost predicate TxnOwned(s: Sink) {
    forall hk :: hk in Open(s.tx) ==> Owned(s.schedd, hk)
  }

  ghost predicate HighOk(high: map<nat, nat>, logs: Logs) { forall e :: High(high, e) <= |logs(e)| }

  /** What holds of the store whatever the feed: the rows are well named, and resuming from the
      sink's cursor heals them. high bounds what has been delivered. */
  ghost predicate StoreOk(w: World, s: Sink, high: map<nat, nat>, logs: Logs) {
    && RowsOk(w.rows)
    && (s.cur.At? ==> s.cur.pos <= High(high, s.cur.epoch))
    && Heals(IdOf(s), high, w.rows, s.cur, logs)
  }

  /** What a restart from the stored cursor would need of the store. */
  ghost predicate Stored(s: Id, w: World, high: map<nat, nat>, logs: Logs) {
    && (w.durable.At? ==> w.durable.pos <= High(high, w.durable.epoch))
    && Heals(s, high, w.rows, w.durable, logs)
  }

  ghost predicate StoredOk(sys: Sys, logs: Logs) { Stored(IdOf(sys.s), sys.w, sys.high, logs) }

  /** A call that moved the stored cursor left it healing, even one that reported failure. */
  ghost predicate MovedOk(w: World, w1: World, s: Id, high: map<nat, nat>, logs: Logs) {
    w1.durable == w.durable || Stored(s, w1, high, logs)
  }

  /** The invariant every action keeps. */
  ghost predicate Inv(sys: Sys, logs: Logs) {
    && HighOk(sys.high, logs) && StoreOk(sys.w, sys.s, sys.high, logs)
    && RowsOk(TheView(sys)) && TxnOwned(sys.s)
    && (sys.s.failed ==> sys.s.tx.None? && sys.s.nextCur == Empty)
    && (if sys.s.failed then (sys.feed.Idle? ==> !sys.s.resetting) else FeedInv(sys, logs))
  }

  /** An action left the stored cursor where it was, or where it heals. */
  ghost predicate Moved(sys: Sys, a: Action, logs: Logs) {
    var next := Next(sys, a);
    next.w.durable == sys.w.durable || StoredOk(next, logs)
  }

  // ---------------------------------------------------------------------------------------
  // Views.

  lemma {:induction false} ViewNone(rows: Rows)
    ensures View(rows, None) == rows
  {
  }

  lemma {:induction false} ViewOpen(rows: Rows, tx: Option<Txn>)
    ensures View(rows, Some(Open(tx))) == View(rows, tx)
  {
  }

  lemma {:induction false} ViewLookup(rows: Rows, tx: Option<Txn>, hk: string)
    ensures Lookup(rows, tx, hk) == if hk in View(rows, tx) then Some(View(rows, tx)[hk]) else None
  {
  }

  lemma {:induction false} ViewPut(rows: Rows, tx: Txn, hk: string, row: Ad)
    ensures Commit(rows, tx[hk := Some(row)]) == Commit(rows, tx)[hk := row]
  {
    var a, b := Commit(rows, tx[hk := Some(row)]), Commit(rows, tx)[hk := row];
    forall h ensures h in a <==> h in b {
      assert h != hk ==> Lookup(rows, Some(tx[hk := Some(row)]), h) == Lookup(rows, Some(tx), h);
    }
  }

  lemma {:induction false} ViewDrop(rows: Rows, tx: Txn, hk: string)
    ensures Commit(rows, tx[hk := None]) == Commit(rows, tx) - {hk}
  {
    var a, b := Commit(rows, tx[hk := None]), Commit(rows, tx) - {hk};
    forall h ensures h in a <==> h in b {
      assert h != hk ==> Lookup(rows, Some(tx[hk := None]), h) == Lookup(rows, Some(tx), h);
    }
  }

  /** An upsert puts one row in the view: the source's ad, named for the schedd, up to the receipt
      time. */
  lemma {:induction false} UpsertView(w: World, s: Sink, key: string, ad: Ad, now: int) returns (row: Ad)
    ensures var s1 := UpsertRow(w, s, key, ad, now);
            && View(w.rows, s1.tx) == View(w.rows, s.tx)[HubKey.Key(s.schedd, key) := row]
            && Core(IdOf(s), row) == Core(IdOf(s), Named(IdOf(s), ad)) && Selected(row, s.schedd)
            && row == RowOf(s, Lookup(w.rows, s.tx, HubKey.Key(s.schedd, key)), ad, now)
            && s1.touched == (if s.resetting then s.touched + {HubKey.Key(s.schedd, key)} else s.touched)
            && s1 == s.(tx := s1.tx, pending := s1.pending, touched := s1.touched) && s1.tx.Some?
            && Open(s1.tx).Keys <= Open(s.tx).Keys + {HubKey.Key(s.schedd, key)}
  {
    hide Commit, HubKey.Key;
    var hk := HubKey.Key(s.schedd, key);
    var open := Some(Open(s.tx));
    ViewOpen(w.rows, s.tx);
    ViewLookup(w.rows, open, hk);
    ViewLookup(w.rows, s.tx, hk);
    row := RowOf(s, Lookup(w.rows, open, hk), ad, now);
    ViewPut(w.rows, Open(s.tx), hk, row);
    assert Core(IdOf(s), row) == Core(IdOf(s), Named(IdOf(s), ad));
    if s.catchup && Lookup(w.rows, open, hk) == Some(row) {
      var v := View(w.rows, s.tx);
      assert v[hk := row] == v;
    }
  }

  lemma {:induction false} DeleteView(w: World, s: Sink, key: string)
    ensures var s1 := DeleteRow(w, s, key);
            && View(w.rows, s1.tx) == View(w.rows, s.tx) - {HubKey.Key(s.schedd, key)}
            && s1 == s.(tx := s1.tx, pending := s1.pending) && s1.tx.Some?
            && Open(s1.tx).Keys <= Open(s.tx).Keys + {HubKey.Key(s.schedd, key)}
  {
    hide Commit, HubKey.Key;
    var hk := HubKey.Key(s.schedd, key);
    ViewOpen(w.rows, s.tx);
    ViewLookup(w.rows, Some(Open(s.tx)), hk);
    ViewDrop(w.rows, Open(s.tx), hk);
    var v := View(w.rows, s.tx);
    assert hk !in v ==> v - {hk} == v;
  }

  // ---------------------------------------------------------------------------------------
  // Keys.

  lemma {:induction false} KeyOwned(schedd: string, k: string)
    ensures Owned(schedd, HubKey.Key(schedd, k))
    ensures forall hk :: Owned(schedd, hk) ==> hk == HubKey.Key(schedd, hk[|HubKey.Key(schedd, "")|..])
  {
    hide Fold, Itoa;
    var p := HubKey.Key(schedd, "");
    assert HubKey.Key(schedd, k) == p + k;
    forall hk | Owned(schedd, hk) ensures hk == HubKey.Key(schedd, hk[|p|..]) {
      assert hk == p + hk[|p|..];
      assert HubKey.Key(schedd, hk[|p|..]) == p + hk[|p|..];
    }
  }

  /** A row that names this schedd sits under one of this schedd's keys, and conversely. */
  lemma {:induction false} SelectedOwned(rows: Rows, schedd: string, hk: string)
    requires RowsOk(rows) && hk in rows
    ensures Selected(rows[hk], schedd) <==> Owned(schedd, hk)
  {
    hide HubKey.Key;
    assert NamedRow(hk, rows[hk]);
    var other, k :| hk == HubKey.Key(other, k) && Selected(rows[hk], other);
    if EqualFold(other, schedd) {
      HubKey.Injective(other, k, schedd, k);
      KeyOwned(schedd, k);
    }
    if Owned(schedd, hk) {
      KeyOwned(schedd, "");
      var k1 := hk[|HubKey.Key(schedd, "")|..];
      HubKey.Injective(other, k, schedd, k1);
    }
  }

  lemma {:induction false} OtherKey(schedd: string, a: string, b: string)
    ensures HubKey.Key(schedd, a) == HubKey.Key(schedd, b) ==> a == b
  {
    HubKey.Injective(schedd, a, schedd, b);
  }

  // ---------------------------------------------------------------------------------------
  // Positions.

  lemma {:induction false} AheadLower(s: Id, rows: Rows, log: seq<Op>, p: nat, high: nat, p1: nat, high1: nat)
    requires Ahead(s, rows, log, p, high) && p1 <= p && high <= high1
    ensures Ahead(s, rows, log, p1, high1)
  {
    hide Have, WantIn, State;
    forall k ensures Seen(s, rows, k, log, p1, high1) {
      assert Seen(s, rows, k, log, p, high);
    }
  }

  /** One change of the log applied to one row keeps the rows at or ahead of the log. */
  lemma {:induction false} AheadStep(s: Id, rows: Rows, rows1: Rows, log: seq<Op>, pos: nat, high: nat)
    requires Ahead(s, rows, log, pos, high) && pos < |log| && high <= |log|
    requires forall k :: k != log[pos].key ==> Have(s, rows1, k) == Have(s, rows, k)
    requires Have(s, rows1, log[pos].key) == WantIn(s, State(log, pos + 1), log[pos].key)
    ensures Ahead(s, rows1, log, pos + 1, if high > pos then high else pos + 1)
  {
    hide Have;
    var h, p := if high > pos then high else pos + 1, pos + 1;
    forall k ensures Seen(s, rows1, k, log, p, h) {
      if k == log[pos].key {
        assert Have(s, rows1, k) == WantIn(s, State(log, pos + 1), k);
      } else {
        assert Seen(s, rows, k, log, pos, high);
        var r :| pos <= r <= high && r <= |log| && Have(s, rows, k) == WantIn(s, State(log, r), k);
        if r == pos {
          assert WantIn(s, State(log, pos + 1), k) == WantIn(s, State(log, pos), k);
        }
      }
    }
  }

  lemma {:induction false} MirrorsAhead(s: Id, rows: Rows, log: seq<Op>, n: nat)
    requires n <= |log|
    ensures Mirrors(s, rows, State(log, n)) <==> Ahead(s, rows, log, n, n)
  {
    hide Have, WantIn, State;
    if Mirrors(s, rows, State(log, n)) {
      forall k ensures Seen(s, rows, k, log, n, n) {
        assert Have(s, rows, k) == WantIn(s, State(log, n), k);
      }
    }
    if Ahead(s, rows, log, n, n) {
      forall k ensures Have(s, rows, k) == WantIn(s, State(log, n), k) {
        assert Seen(s, rows, k, log, n, n);
      }
    }
  }

  lemma {:induction false} HavePut(s: Id, v: Rows, key: string, row: Ad)
    ensures var v1 := v[HubKey.Key(s.schedd, key) := row];
            && Have(s, v1, key) == Some(Core(s, row))
            && forall k :: k != key ==> Have(s, v1, k) == Have(s, v, k)
  {
    hide HubKey.Key;
    forall k | k != key ensures Have(s, v[HubKey.Key(s.schedd, key) := row], k) == Have(s, v, k) {
      OtherKey(s.schedd, k, key);
    }
  }

  lemma {:induction false} HaveDrop(s: Id, v: Rows, key: string)
    ensures var v1 := v - {HubKey.Key(s.schedd, key)};
            && Have(s, v1, key) == None
            && forall k :: k != key ==> Have(s, v1, k) == Have(s, v, k)
  {
    hide HubKey.Key;
    forall k | k != key ensures Have(s, v - {HubKey.Key(s.schedd, key)}, k) == Have(s, v, k) {
      OtherKey(s.schedd, k, key);
    }
  }

  lemma {:induction false} RowsOkPut(v: Rows, schedd: string, key: string, row: Ad)
    requires RowsOk(v) && Selected(row, schedd)
    ensures RowsOk(v[HubKey.Key(schedd, key) := row])
  {
    hide HubKey.Key, Selected;
    var hk := HubKey.Key(schedd, key);
    assert NamedRow(hk, row);
  }

  // ---------------------------------------------------------------------------------------
  // The store steps keep the invariant, stated apart from the feed.

  /** The open batch, if committed, would heal too: from the sink's cursor and from the one that
      would cover it. */
  ghost predicate BatchOk(w: World, s: Sink, high: map<nat, nat>, logs: Logs) {
    var v := View(w.rows, s.tx);
    && RowsOk(v) && TxnOwned(s)
    && Heals(IdOf(s), high, v, s.cur, logs) && Heals(IdOf(s), high, v, s.nextCur, logs)
    && (s.nextCur.At? ==> s.nextCur.pos <= High(high, s.nextCur.epoch))
  }

  lemma {:induction false} CommitKeeps(w: World, s: Sink, o: Outcome, high: map<nat, nat>, logs: Logs)
    requires StoreOk(w, s, high, logs) && BatchOk(w, s, high, logs)
    ensures var r := CommitTxn(w, s, o);
            && StoreOk(r.w, r.s, high, logs) && r.w.durable == w.durable &&
                r.s == s.(tx := r.s.tx, pending := r.s.pending)
            && r.s.tx.None? && (r.ok ==> BatchOk(r.w, r.s, high, logs) && r.w.rows == View(w.rows, s.tx))
            && View(r.w.rows, r.s.tx) == r.w.rows
            && (s.tx.None? ==> r == Done(w, s, true))
  {
    hide Heals, RowsOk, Commit;
    ViewNone(w.rows);
    if s.tx.Some? {
      ViewNone(Commit(w.rows, s.tx.value));
    }
  }

  lemma {:induction false} SaveKeeps(w: World, s: Sink, o: Outcome, high: map<nat, nat>, logs: Logs)
    requires StoreOk(w, s, high, logs) && BatchOk(w, s, high, logs) && s.tx.None?
    ensures var r := SaveCursor(w, s, o);
            && StoreOk(r.w, r.s, high, logs) && r.w.rows == w.rows && r.s == s.(nextCur := Empty, cur := r.s.cur)
            && (r.ok ==> BatchOk(r.w, r.s, high, logs) && r.s.cur == (if s.nextCur == Empty then s.cur else s.nextCur))
            && (s.nextCur == Empty ==> r == Done(w, s, true))
            && MovedOk(w, r.w, IdOf(s), high, logs)
  {
    hide Ahead, RowsOk, Commit;
    ViewNone(w.rows);
  }

  lemma {:induction false} FlushKeeps(w: World, s: Sink, f: Faults, high: map<nat, nat>, logs: Logs)
    requires StoreOk(w, s, high, logs) && BatchOk(w, s, high, logs)
    ensures var r := Flush(w, s, f);
            && StoreOk(r.w, r.s, high, logs)
            && r.s == s.(tx := None, pending := r.s.pending, nextCur := r.s.nextCur, cur := r.s.cur)
            && (r.ok ==> BatchOk(r.w, r.s, high, logs) && r.s.nextCur == Empty && r.w.rows == View(w.rows, s.tx)
                         && r.s.cur == (if s.nextCur == Empty then s.cur else s.nextCur)
                         && (s.nextCur == Empty ==> r.w.durable == w.durable))
            && MovedOk(w, r.w, IdOf(s), high, logs)
  {
    hide StoreOk, BatchOk, View, CommitTxn, SaveCursor;
    CommitKeeps(w, s, f.commit, high, logs);
    var r := CommitTxn(w, s, f.commit);
    if r.ok {
      SaveKeeps(r.w, r.s, f.save, high, logs);
    }
  }

  lemma {:induction false} AfterRowKeeps(w: World, s: Sink, c: Cursor, f: Faults, high: map<nat, nat>, logs: Logs)
    requires StoreOk(w, s, high, logs) && BatchOk(w, NoteCursor(s, c), high, logs)
    ensures var r := AfterRow(w, s, c, f);
            && StoreOk(r.w, r.s, high, logs)
            && r.s == s.(tx := r.s.tx, pending := r.s.pending, nextCur := r.s.nextCur, cur := r.s.cur)
            && (r.ok ==> BatchOk(r.w, r.s, high, logs) && View(r.w.rows, r.s.tx) == View(w.rows, s.tx))
            && (r.ok ==> r.s.nextCur == Empty || r.s.nextCur == NoteCursor(s, c).nextCur)
            && (r.ok ==> r.s.cur == s.cur || (r.s.cur == NoteCursor(s, c).nextCur && r.s.cur.At?))
            && (c == Empty && s.nextCur == Empty ==> r.w.durable == w.durable && r.s.cur == s.cur)
            && MovedOk(w, r.w, IdOf(s), high, logs)
  {
    hide BatchOk, Commit, Heals, RowsOk;
    var s1 := NoteCursor(s, c);
    FlushKeeps(w, s1, f, high, logs);
    if s1.pending >= MAX_BATCH {
      ViewNone(Flush(w, s1, f).w.rows);
    }
  }

  lemma {:induction false} RaiseOk(high: map<nat, nat>, feed: Feed, logs: Logs)
    requires HighOk(high, logs) && (feed.Live? ==> feed.pos <= |logs(feed.epoch)|)
    ensures var h := Raise(high, feed);
            && HighOk(h, logs) && (forall e :: High(high, e) <= High(h, e))
            && (feed.Live? ==> feed.pos <= High(h, feed.epoch))
            && (feed.Live? ==>
                var was := High(high, feed.epoch); High(h, feed.epoch) == if was > feed.pos then was else feed.pos)
            && (forall e :: !(feed.Live? && feed.epoch == e) ==> High(h, e) == High(high, e))
  {
  }

  lemma {:induction false} HealsHigher(s: Id, high: map<nat, nat>, h: map<nat, nat>, rows: Rows, cur: Cursor,
                                       logs: Logs)
    requires Heals(s, high, rows, cur, logs) && forall e :: High(high, e) <= High(h, e)
    ensures Heals(s, h, rows, cur, logs)
  {
    hide High;
    if cur.At? {
      AheadLower(s, rows, logs(cur.epoch), cur.pos, High(high, cur.epoch), cur.pos, High(h, cur.epoch));
    }
  }

  lemma {:induction false} LiveBatch(sys: Sys, logs: Logs)
    requires Inv(sys, logs) && !sys.s.failed && !sys.feed.Idle?
    ensures BatchOk(sys.w, sys.s, sys.high, logs)
  {
    hide Commit, RowsOk, TxnOwned, Ahead;
    if sys.feed.Live? {
      var e, h := sys.feed.epoch, High(sys.high, sys.feed.epoch);
      var v := TheView(sys);
      AheadLower(IdOf(sys.s), v, logs(e), sys.feed.pos, h, sys.s.cur.pos, h);
      if sys.s.nextCur.At? {
        AheadLower(IdOf(sys.s), v, logs(e), sys.feed.pos, h, sys.s.nextCur.pos, h);
      }
    } else if sys.feed.AwaitReset? {
      ViewNone(sys.w.rows);
    }
  }

  // ---------------------------------------------------------------------------------------
  // Row changes.

  /** What a row change must give before the batch bookkeeping runs. */
  ghost predicate RowStep(sys: Sys, s1: Sink, logs: Logs, feed: Feed, high: map<nat, nat>) {
    && s1 == sys.s.(tx := s1.tx, pending := s1.pending, touched := s1.touched)
    && RowsOk(View(sys.w.rows, s1.tx)) && TxnOwned(s1)
    && (feed.Live? ==> Ahead(IdOf(s1), View(sys.w.rows, s1.tx), logs(feed.epoch), feed.pos, High(high, feed.epoch)))
    && (feed.Replay? ==> forall k :: TouchedOk(s1, View(sys.w.rows, s1.tx), feed.acc, k))
  }

  lemma {:induction false} UpsertStep(sys: Sys, c: Change, f: Faults, logs: Logs)
    requires Inv(sys, logs) && !sys.s.failed && Delivers(sys, c, f, logs) && c.Upsert?
    ensures var feed := Advance(sys.feed, c);
            RowStep(sys, UpsertRow(sys.w, sys.s, c.key, c.ad.value, f.now), logs, feed, Raise(sys.high, feed))
  {
    hide HubKey.Key, UpsertRow, RowOf, Commit, TouchedOk, Core, Named, High, RowsOk;
    var id := IdOf(sys.s);
    var v := TheView(sys);
    var row := UpsertView(sys.w, sys.s, c.key, c.ad.value, f.now);
    var s1 := UpsertRow(sys.w, sys.s, c.key, c.ad.value, f.now);
    var hk := HubKey.Key(sys.s.schedd, c.key);
    RowsOkPut(v, sys.s.schedd, c.key, row);
    KeyOwned(sys.s.schedd, c.key);
    HavePut(id, v, c.key, row);
    if sys.feed.Live? {
      var e, pos := sys.feed.epoch, sys.feed.pos;
      RaiseOk(sys.high, Live(e, pos + 1), logs);
      AheadStep(id, v, v[hk := row], logs(e), pos, High(sys.high, e));
    } else {
      ReplayPut(sys, s1, c.key, c.ad.value, row);
    }
  }

  /** In a replay, the key delivered is level with what the replay has delivered, and no other moves. */
  lemma {:induction false} ReplayPut(sys: Sys, s1: Sink, key: string, ad: Ad, row: Ad)
    requires sys.feed.Replay? && forall k :: TouchedOk(sys.s, TheView(sys), sys.feed.acc, k)
    requires s1.schedd == sys.s.schedd && s1.status == sys.s.status
    requires s1.touched == sys.s.touched + {HubKey.Key(sys.s.schedd, key)}
    requires Core(IdOf(sys.s), row) == Core(IdOf(sys.s), Named(IdOf(sys.s), ad))
    ensures var v1, acc1 := TheView(sys)[HubKey.Key(sys.s.schedd, key) := row], sys.feed.acc[key := ad];
            forall k :: TouchedOk(s1, v1, acc1, k)
  {
    hide HubKey.Key, Commit, Core, Named;
    var v := TheView(sys);
    var v1, acc1 := v[HubKey.Key(sys.s.schedd, key) := row], sys.feed.acc[key := ad];
    forall k ensures TouchedOk(s1, v1, acc1, k) {
      assert TouchedOk(sys.s, v, sys.feed.acc, k);
      OtherKey(sys.s.schedd, k, key);
    }
  }

  lemma {:induction false} DeleteStep(sys: Sys, c: Change, f: Faults, logs: Logs)
    requires Inv(sys, logs) && !sys.s.failed && Delivers(sys, c, f, logs) && c.Delete?
    ensures var feed := Advance(sys.feed, c);
            RowStep(sys, DeleteRow(sys.w, sys.s, c.key), logs, feed, Raise(sys.high, feed))
  {
    hide HubKey.Key, DeleteRow, Commit;
    var id := IdOf(sys.s);
    var v := TheView(sys);
    DeleteView(sys.w, sys.s, c.key);
    var s1 := DeleteRow(sys.w, sys.s, c.key);
    var hk := HubKey.Key(sys.s.schedd, c.key);
    KeyOwned(sys.s.schedd, c.key);
    HaveDrop(id, v, c.key);
    if sys.feed.Live? {
      var e, pos := sys.feed.epoch, sys.feed.pos;
      RaiseOk(sys.high, Live(e, pos + 1), logs);
      AheadStep(id, v, v - {hk}, logs(e), pos, High(sys.high, e));
    } else {
      var v1, acc1 := v - {hk}, sys.feed.acc - {c.key};
      forall k ensures TouchedOk(s1, v1, acc1, k) {
        assert TouchedOk(sys.s, v, sys.feed.acc, k);
        OtherKey(sys.s.schedd, k, c.key);
      }
    }
  }

  /** The row changes keep the invariant, in a resumed stream and in a replay. */
  lemma {:induction false} RowInv(sys: Sys, c: Change, f: Faults, logs: Logs)
    requires Inv(sys, logs) && !sys.s.failed && Delivers(sys, c, f, logs)
    requires c.Upsert? || c.Delete?
    ensures Inv(Next(sys, Recv(c, f)), logs) && Moved(sys, Recv(c, f), logs)
  {
    hide HubKey.Key, UpsertRow, DeleteRow, Commit, RowsOk, TxnOwned, Ahead, High, TouchedOk, State, HighOk;
    var feed := Advance(sys.feed, c);
    var high := Raise(sys.high, feed);
    var s1 := if c.Upsert? then UpsertRow(sys.w, sys.s, c.key, c.ad.value, f.now) else DeleteRow(sys.w, sys.s, c.key);
    if c.Upsert? { UpsertStep(sys, c, f, logs); } else { DeleteStep(sys, c, f, logs); }
    RaiseOk(sys.high, feed, logs);
    LiveBatch(sys, logs);
    HealsHigher(IdOf(sys.s), sys.high, high, sys.w.rows, sys.s.cur, logs);
    RowBatch(sys, s1, c, feed, high, logs);
    AfterRowKeeps(sys.w, s1, c.cursor, f, high, logs);
    FinishRow(sys, s1, c, f, feed, high, sys.receipts + Receipts(sys.s, c, f.now), logs);
    assert ApplyInner(sys.w, sys.s, c, f) == AfterRow(sys.w, s1, c.cursor, f);
  }

  lemma {:induction false} FinishRow(sys: Sys, s1: Sink, c: Change, f: Faults, feed: Feed, high: map<nat, nat>,
                                     receipts: set<Receipt>, logs: Logs)
    requires Inv(sys, logs) && !sys.s.failed && RowStep(sys, s1, logs, feed, high) && HighOk(high, logs)
    requires StoreOk(sys.w, s1, high, logs) && BatchOk(sys.w, NoteCursor(s1, c.cursor), high, logs)
    requires if sys.feed.Live? then feed == Live(sys.feed.epoch, sys.feed.pos + 1) &&
             c.cursor == At(feed.epoch, feed.pos)
                                    && feed.pos <= High(high, feed.epoch)
             else sys.feed.Replay? && feed.Replay? && c.cursor == Empty
    ensures var r := AfterRow(sys.w, s1, c.cursor, f);
            && Inv(Sys(r.w, if r.ok then r.s else Fail(r.s), if r.ok then feed else sys.feed, high, receipts), logs)
            && MovedOk(sys.w, r.w, IdOf(s1), high, logs)
  {
    hide Commit, RowsOk, Ahead, High, State, HighOk, AfterRow, Heals;
    AfterRowKeeps(sys.w, s1, c.cursor, f, high, logs);
    var r := AfterRow(sys.w, s1, c.cursor, f);
    if r.ok {
      if feed.Replay? {
        forall k ensures TouchedOk(r.s, View(r.w.rows, r.s.tx), feed.acc, k) {
          assert TouchedOk(s1, View(sys.w.rows, s1.tx), feed.acc, k);
        }
      }
    } else {
      ViewNone(r.w.rows);
    }
  }

  lemma {:induction false} NoTxn(s: Sink)
    requires s.tx.None?
    ensures TxnOwned(s)
  {
  }

  lemma {:induction false} RowBatch(sys: Sys, s1: Sink, c: Change, feed: Feed, high: map<nat, nat>, logs: Logs)
    requires Inv(sys, logs) && !sys.s.failed && RowStep(sys, s1, logs, feed, high)
    requires HighOk(high, logs) && forall e :: High(sys.high, e) <= High(high, e)
    requires if sys.feed.Live? then feed == Live(sys.feed.epoch, sys.feed.pos + 1) &&
             c.cursor == At(feed.epoch, feed.pos)
                                    && feed.pos <= High(high, feed.epoch)
             else sys.feed.Replay? && feed.Replay? && c.cursor == Empty
    ensures BatchOk(sys.w, NoteCursor(s1, c.cursor), high, logs)
    ensures StoreOk(sys.w, s1, high, logs)
  {
    hide Commit, RowsOk, Ahead, HubKey.Key;
    HealsHigher(IdOf(sys.s), sys.high, high, sys.w.rows, sys.s.cur, logs);
    var v := View(sys.w.rows, s1.tx);
    if feed.Live? {
      AheadLower(IdOf(s1), v, logs(feed.epoch), feed.pos, High(high, feed.epoch), sys.s.cur.pos,
                 High(high, feed.epoch));
    }
  }

  // ---------------------------------------------------------------------------------------
  // Reset.

  /** After the flush and the clear: a replay with nothing in it yet. */
  lemma {:induction false} ResetStarts(w: World, s: Sink, f: Faults, high: map<nat, nat>, receipts: set<Receipt>,
                                       logs: Logs)
    requires StoreOk(w, s, high, logs) && HighOk(high, logs) && RowsOk(w.rows) && s.tx.None? && !s.failed &&
             s.cur == Empty
    requires w.durable == Empty && s.nextCur == Empty && s.resetting && s.touched == {}
    ensures var r := AfterRow(w, s, Empty, f);
            r.ok && Inv(Sys(r.w, r.s, Replay(map[]), high, receipts), logs) && r.w.durable == Empty
  {
    hide HubKey.Key, Commit, RowsOk, Ahead, High, State, HighOk, Have, WantIn;
    ViewNone(w.rows);
  }

  lemma {:induction false} ClearMoved(w0: World, w: World, s: Sink, o: Outcome, high: map<nat, nat>, logs: Logs)
    requires MovedOk(w0, w, IdOf(s), high, logs)
    ensures var r := ClearCursor(w, s, o);
            MovedOk(w0, r.w, IdOf(s), high, logs) && (r.w.durable == Empty ==> Stored(IdOf(s), r.w, high, logs))
  {
    hide Ahead, High;
  }

  lemma {:induction false} FailedInv(w: World, s: Sink, feed: Feed, high: map<nat, nat>, receipts: set<Receipt>,
                                     logs: Logs)
    requires StoreOk(w, s, high, logs) && HighOk(high, logs) && !feed.Idle?
    ensures Inv(Sys(w, Fail(s), feed, high, receipts), logs)
  {
    hide RowsOk, Ahead, High, Commit;
    ViewNone(w.rows);
  }

  /** The store after the clear, whatever it did. */
  lemma {:induction false} ClearKeeps(w: World, s: Sink, o: Outcome, high: map<nat, nat>, logs: Logs)
    requires StoreOk(w, s, high, logs)
    ensures var r := ClearCursor(w, s, o);
            && StoreOk(r.w, r.s, high, logs) && r.w.rows == w.rows && r.s == s.(cur := r.s.cur)
            && (r.ok ==> r.w.durable == Empty && r.s.cur == Empty)
  {
    hide RowsOk, Ahead, High;
  }

  lemma {:induction false} ResetInv(sys: Sys, c: Change, f: Faults, logs: Logs)
    requires Inv(sys, logs) && !sys.s.failed && Delivers(sys, c, f, logs) && c.Reset?
    ensures Inv(Next(sys, Recv(c, f)), logs) && Moved(sys, Recv(c, f), logs)
  {
    hide Flush, AfterRow, ClearCursor, UpsertRow, DeleteRow, ApplySynced, StoreOk, Stored, Receipts, HighOk;
    LiveBatch(sys, logs);
    FlushKeeps(sys.w, sys.s, f, sys.high, logs);
    var r := Flush(sys.w, sys.s, f);
    var receipts := sys.receipts + Receipts(sys.s, c, f.now);
    if !r.ok {
      ResetStops(sys, c, f, r, receipts, logs);
    } else {
      var r1 := ClearCursor(r.w, r.s, f.clear);
      ClearKeeps(r.w, r.s, f.clear, sys.high, logs);
      ClearMoved(sys.w, r.w, r.s, f.clear, sys.high, logs);
      if !r1.ok {
        ResetStops(sys, c, f, r1, receipts, logs);
      } else {
        var s2 := r1.s.(resetting := true, touched := {}, catchup := true);
        ResetReady(r1.w, r1.s, s2, sys.high, logs);
        ResetStarts(r1.w, s2, f, sys.high, receipts, logs);
        EmptyStored(sys, c, f, logs);
      }
    }
  }

  lemma {:induction false} ResetReady(w: World, s: Sink, s2: Sink, high: map<nat, nat>, logs: Logs)
    requires StoreOk(w, s, high, logs) && s2 == s.(resetting := true, touched := {}, catchup := true)
    ensures StoreOk(w, s2, high, logs) && RowsOk(w.rows)
  {
    hide RowsOk, Ahead, High;
  }

  lemma {:induction false} EmptyStored(sys: Sys, c: Change, f: Faults, logs: Logs)
    requires Next(sys, Recv(c, f)).w.durable == Empty
    ensures Moved(sys, Recv(c, f), logs)
  {
    hide Next, Ahead;
  }

  /** A Reset that failed on the way. */
  lemma {:induction false} ResetStops(sys: Sys, c: Change, f: Faults, r: Done, receipts: set<Receipt>, logs: Logs)
    requires !sys.s.failed && !sys.feed.Idle? && HighOk(sys.high, logs) && c.Reset?
    requires r == ApplyReset(sys.w, sys.s, f) && !r.ok && receipts == sys.receipts + Receipts(sys.s, c, f.now)
    requires StoreOk(r.w, r.s, sys.high, logs) && IdOf(r.s) == IdOf(sys.s)
    requires MovedOk(sys.w, r.w, IdOf(sys.s), sys.high, logs)
    ensures Inv(Next(sys, Recv(c, f)), logs) && Moved(sys, Recv(c, f), logs)
  {
    hide ApplyReset, StoreOk, HighOk, Inv, Stored, Receipts;
    FailedInv(r.w, r.s, sys.feed, sys.high, receipts, logs);
    assert Next(sys, Recv(c, f)) == Sys(r.w, Fail(r.s), sys.feed, sys.high, receipts);
  }

  // ---------------------------------------------------------------------------------------
  // Synced and the sweep.

  lemma {:induction false} StaleIs(scan: seq<string>, touched: set<string>)
    ensures forall k :: k in Stale(scan, touched) <==> k in scan && k !in touched
  {
    if scan != [] {
      StaleIs(scan[..|scan| - 1], touched);
      assert scan == scan[..|scan| - 1] + [scan[|scan| - 1]];
    }
  }

  /** A sweep only deletes stale rows, and one that succeeds deletes them all. */
  lemma {:induction false} SweepRemoves(rows: Rows, stale: seq<string>, i: nat, outcomes: seq<Outcome>)
    requires i <= |stale| || i > |stale|
    ensures var (out, ok) := SweepFrom(rows, stale, i, outcomes);
            && out.Keys <= rows.Keys && (forall k :: k in out ==> out[k] == rows[k])
            && (forall k :: k in rows && k !in stale ==> k in out)
            && (ok ==> forall j :: i <= j < |stale| ==> stale[j] !in out)
    decreases |stale| - i
  {
    if i < |stale| {
      var hi := Min(i + MAX_BATCH, |stale|);
      var batch := stale[i..hi];
      assert forall k :: k in batch ==> k in stale;
      var rows1 := Remove(rows, batch);
      forall j | i <= j < hi ensures stale[j] !in rows1 { assert batch[j - i] == stale[j]; }
      SweepRemoves(rows1, stale, i + MAX_BATCH, outcomes);
    }
  }

  lemma {:induction false} RowsOkSub(rows: Rows, sub: Rows)
    requires RowsOk(rows) && sub.Keys <= rows.Keys && forall k :: k in sub ==> sub[k] == rows[k]
    ensures RowsOk(sub)
  {
    hide NamedRow;
  }

  /** After a replay and its sweep the schedd's rows are exactly the replayed source rows. */
  lemma {:induction false} SweepMirrors(s: Sink, rows: Rows, acc: map<string, Ad>, scan: seq<string>,
                                        outcomes: seq<Outcome>)
    requires RowsOk(rows) && (forall k :: TouchedOk(s, rows, acc, k)) && ScanOk(rows, s.schedd, scan)
    ensures var (out, ok) := SweepFrom(rows, Stale(scan, s.touched), 0, outcomes);
            RowsOk(out) && (ok ==> Mirrors(IdOf(s), out, acc))
  {
    hide HubKey.Key, Selected, SweepFrom, Stale;
    var stale := Stale(scan, s.touched);
    StaleIs(scan, s.touched);
    SweepRemoves(rows, stale, 0, outcomes);
    var (out, ok) := SweepFrom(rows, stale, 0, outcomes);
    RowsOkSub(rows, out);
    if ok {
      forall k ensures Have(IdOf(s), out, k) == WantIn(IdOf(s), acc, k) {
        var hk := HubKey.Key(s.schedd, k);
        assert TouchedOk(s, rows, acc, k);
        if hk in rows {
          KeyOwned(s.schedd, k);
          SelectedOwned(rows, s.schedd, hk);
          assert hk in scan;
          if hk !in s.touched {
            assert hk in stale;
          }
        }
      }
    }
  }

  /** The last step of Synced: a committed table that heals from the Synced position, and the save
      of that position. */
  lemma {:induction false} SyncedSave(w: World, s: Sink, c: Cursor, f: Faults, e: nat, n: nat, high: map<nat, nat>,
                                      receipts: set<Receipt>, before: Feed, logs: Logs)
    requires HighOk(high, logs) && StoreOk(w, s, high, logs) && s.tx.None? && !s.failed && !s.resetting
    requires n <= High(high, e) && Ahead(IdOf(s), w.rows, logs(e), n, High(high, e)) && before != Idle
    requires (s.nextCur.At? ==> s.nextCur.epoch == e && s.nextCur.pos <= n)
    requires c == At(e, n) || (c == Empty && s.cur.At? && s.cur.epoch == e && s.cur.pos <= n)
    ensures var r := SaveCursor(w, NoteCursor(s, c), f.save);
            && Inv(Sys(r.w, if r.ok then r.s else Fail(r.s), if r.ok then Live(e, n) else before, high, receipts), logs)
            && r.w.rows == w.rows && MovedOk(w, r.w, IdOf(s), high, logs) && IdOf(r.s) == IdOf(s)
  {
    hide Commit, RowsOk, Ahead, State, HighOk, SaveCursor;
    ViewNone(w.rows);
    var s1 := NoteCursor(s, c);
    if s1.nextCur.At? {
      AheadLower(IdOf(s), w.rows, logs(e), n, High(high, e), s1.nextCur.pos, High(high, e));
    }
    SaveKeeps(w, s1, f.save, high, logs);
  }

  lemma {:induction false} RaiseSame(high: map<nat, nat>, e: nat, pos: nat)
    requires pos <= High(high, e)
    ensures Raise(high, Live(e, pos)) == high
  {
  }

  lemma {:induction false} SyncedLiveInv(sys: Sys, c: Change, f: Faults, logs: Logs)
    requires Inv(sys, logs) && !sys.s.failed && Delivers(sys, c, f, logs) && c.Synced? && sys.feed.Live?
    ensures var next := Next(sys, Recv(c, f));
            && Inv(next, logs) && Moved(sys, Recv(c, f), logs) && next.feed == sys.feed && next.high == sys.high
            && (Apply(sys.w, sys.s, c, f).ok ==> next.w.rows == TheView(sys))
  {
    hide HubKey.Key, Commit, RowsOk, Ahead, State, HighOk, CommitTxn, SaveCursor, Raise;
    LiveBatch(sys, logs);
    RaiseSame(sys.high, sys.feed.epoch, sys.feed.pos);
    CommitKeeps(sys.w, sys.s, f.commit, sys.high, logs);
    var r := CommitTxn(sys.w, sys.s, f.commit);
    if r.ok {
      SyncedSave(r.w, r.s.(catchup := false), c.cursor, f, sys.feed.epoch, sys.feed.pos, sys.high,
                 sys.receipts + Receipts(sys.s, c, f.now), sys.feed, logs);
    } else {
      ViewNone(r.w.rows);
    }
  }

  /** A replay's Synced that failed on the way. */
  lemma {:induction false} SyncedStops(sys: Sys, c: Change, f: Faults, r: Done, high: map<nat, nat>, logs: Logs)
    requires !sys.s.failed && sys.feed.Replay? && c.Synced? && c.cursor.At? && HighOk(high, logs)
    requires high == Raise(sys.high, Live(c.cursor.epoch, c.cursor.pos))
    requires r == ApplySynced(sys.w, sys.s, c.cursor, f) && !r.ok && StoreOk(r.w, r.s, high, logs)
    requires r.w.durable == sys.w.durable
    ensures Inv(Next(sys, Recv(c, f)), logs) && Moved(sys, Recv(c, f), logs)
    ensures !Apply(sys.w, sys.s, c, f).ok
  {
    hide ApplySynced, StoreOk, HighOk, Inv, Stored, Receipts, Raise;
    var receipts := sys.receipts + Receipts(sys.s, c, f.now);
    FailedInv(r.w, r.s, sys.feed, high, receipts, logs);
    assert Next(sys, Recv(c, f)) == Sys(r.w, Fail(r.s), sys.feed, high, receipts);
  }

  /** With no cursor, the store needs only its rows well named. */
  lemma {:induction false} NoCursorOk(w: World, s: Sink, high: map<nat, nat>, logs: Logs)
    requires RowsOk(w.rows) && s.cur == Empty
    ensures StoreOk(w, s, high, logs)
  {
    hide RowsOk, Ahead, High;
  }

  lemma {:induction false} SyncedReplayInv(sys: Sys, c: Change, f: Faults, logs: Logs)
    requires Inv(sys, logs) && !sys.s.failed && Delivers(sys, c, f, logs) && c.Synced? && sys.feed.Replay?
    ensures var next := Next(sys, Recv(c, f));
            && Inv(next, logs) && Moved(sys, Recv(c, f), logs)
            && (Apply(sys.w, sys.s, c, f).ok ==>
                next.feed == Live(c.cursor.epoch, c.cursor.pos) && High(next.high, c.cursor.epoch) == c.cursor.pos
                && Mirrors(IdOf(sys.s), next.w.rows, State(logs(c.cursor.epoch), c.cursor.pos)))
  {
    hide HubKey.Key, RowsOk, Ahead, State, CommitTxn, SaveCursor, SweepFrom, Stale, Mirrors, Raise, HighOk, StoreOk,
         Stored;
    var e, n := c.cursor.epoch, c.cursor.pos;
    var high := Raise(sys.high, Live(e, n));
    RaiseOk(sys.high, Live(e, n), logs);
    LiveBatch(sys, logs);
    CommitKeeps(sys.w, sys.s, f.commit, sys.high, logs);
    var r := CommitTxn(sys.w, sys.s, f.commit);
    CommitRows(r.w, r.s, sys.high, logs);
    NoCursorOk(r.w, r.s, high, logs);
    if !r.ok {
      SyncedStops(sys, c, f, r, high, logs);
    } else if f.scan.None? {
      SyncedStops(sys, c, f, Done(r.w, r.s, false), high, logs);
    } else {
      FlushTouched(sys, r, logs);
      ViewNone(r.w.rows);
      SweepMirrors(r.s, r.w.rows, sys.feed.acc, f.scan.value, f.sweep);
      var r1 := Sweep(r.w, r.s, f);
      NoCursorOk(r1.w, r1.s, high, logs);
      if !r1.ok {
        SyncedStops(sys, c, f, r1, high, logs);
      } else {
        SyncedEnds(sys, c, f, r1, high, logs);
      }
    }
  }

  lemma {:induction false} CommitRows(w: World, s: Sink, high: map<nat, nat>, logs: Logs)
    requires StoreOk(w, s, high, logs)
    ensures RowsOk(w.rows)
  {
    hide RowsOk;
  }

  /** After a sweep that left exactly the source's rows: the save. */
  lemma {:induction false} SyncedEnds(sys: Sys, c: Change, f: Faults, r1: Done, high: map<nat, nat>, logs: Logs)
    requires !sys.s.failed && sys.feed.Replay? && c.Synced? && c.cursor.At? && sys.s.resetting && HighOk(high, logs)
    requires var e, n := c.cursor.epoch, c.cursor.pos;
             && high == Raise(sys.high, Live(e, n)) && n <= |logs(e)| && High(high, e) == n
             && Mirrors(IdOf(sys.s), r1.w.rows, State(logs(e), n))
    requires var r := CommitTxn(sys.w, sys.s, f.commit);
             r.ok && r.s == sys.s.(tx := r.s.tx, pending := r.s.pending) && r1 == Sweep(r.w, r.s, f) && r1.ok
    requires StoreOk(r1.w, r1.s, high, logs) && r1.s.tx.None? && r1.s.nextCur == Empty && r1.w.durable == sys.w.durable
    ensures var next := Next(sys, Recv(c, f));
            && Inv(next, logs) && Moved(sys, Recv(c, f), logs)
            && (Apply(sys.w, sys.s, c, f).ok ==>
                next.feed == Live(c.cursor.epoch, c.cursor.pos) && High(next.high, c.cursor.epoch) == c.cursor.pos
                && Mirrors(IdOf(sys.s), next.w.rows, State(logs(c.cursor.epoch), c.cursor.pos)))
  {
    hide State, CommitTxn, SaveCursor, SweepFrom, Stale, Mirrors, Raise, HighOk, Stored, Inv, Ahead, High;
    var e, n := c.cursor.epoch, c.cursor.pos;
    MirrorsAhead(IdOf(sys.s), r1.w.rows, logs(e), n);
    var s1 := r1.s.(resetting := false, touched := {}, catchup := false);
    SameStore(r1.w, r1.s, s1, high, logs);
    SyncedSave(r1.w, s1, c.cursor, f, e, n, high, sys.receipts + Receipts(sys.s, c, f.now), sys.feed, logs);
  }

  lemma {:induction false} SameStore(w: World, s: Sink, s1: Sink, high: map<nat, nat>, logs: Logs)
    requires StoreOk(w, s, high, logs) && s1.cur == s.cur && IdOf(s1) == IdOf(s)
    ensures StoreOk(w, s1, high, logs)
  {
    hide RowsOk, Ahead, High;
  }

  // ---------------------------------------------------------------------------------------
  // Every action.

  lemma {:induction false} FlushInv(sys: Sys, f: Faults, logs: Logs)
    requires Inv(sys, logs) && Allowed(sys, FlushNow(f), logs)
    ensures Inv(Next(sys, FlushNow(f)), logs) && Moved(sys, FlushNow(f), logs)
    ensures FlushCall(sys.w, sys.s, f).ok ==> Next(sys, FlushNow(f)).w.rows == TheView(sys)
  {
    hide HubKey.Key, Commit, RowsOk, Ahead, State, HighOk, Flush, TouchedOk;
    if !sys.s.failed {
      LiveBatch(sys, logs);
      FlushKeeps(sys.w, sys.s, f, sys.high, logs);
      var r := Flush(sys.w, sys.s, f);
      ViewNone(r.w.rows);
      if r.ok && sys.feed.Replay? {
        FlushTouched(sys, r, logs);
      }
    }
  }

  lemma {:induction false} FlushTouched(sys: Sys, r: Done, logs: Logs)
    requires sys.feed.Replay? && FeedInv(sys, logs) && r.w.rows == TheView(sys) && r.s.tx.None?
    requires r.s.touched == sys.s.touched && IdOf(r.s) == IdOf(sys.s)
    ensures forall k :: TouchedOk(r.s, View(r.w.rows, r.s.tx), sys.feed.acc, k)
  {
    hide HubKey.Key, Commit;
    ViewNone(r.w.rows);
    forall k ensures TouchedOk(r.s, View(r.w.rows, r.s.tx), sys.feed.acc, k) {
      assert TouchedOk(sys.s, TheView(sys), sys.feed.acc, k);
    }
  }

  lemma {:induction false} SessionInv(sys: Sys, a: Action, logs: Logs)
    requires Inv(sys, logs) && Allowed(sys, a, logs) && (a.Begin? || a.End? || a.Crash?)
    requires a.Crash? ==> StoredOk(sys, logs)
    ensures Inv(Next(sys, a), logs)
  {
    hide HubKey.Key, Commit, RowsOk, Ahead, State, HighOk, TouchedOk;
    ViewNone(sys.w.rows);
  }

  lemma {:induction false} OthersInv(sys: Sys, rows: Rows, logs: Logs)
    requires Inv(sys, logs) && Allowed(sys, Others(rows), logs)
    ensures Inv(Next(sys, Others(rows)), logs)
  {
    hide HubKey.Key, State, HighOk, Selected, NamedRow, Lookup;
    var next := Next(sys, Others(rows));
    var id := IdOf(sys.s);
    forall k ensures Have(id, rows, k) == Have(id, sys.w.rows, k) { KeyOwned(sys.s.schedd, k); }
    OthersView(sys.s, sys.w.rows, rows);
    var v, v1 := TheView(sys), TheView(next);
    forall k ensures Have(id, v1, k) == Have(id, v, k) { KeyOwned(sys.s.schedd, k); }
    if sys.s.cur.At? {
      SameAhead(id, sys.w.rows, rows, logs(sys.s.cur.epoch), sys.s.cur.pos, High(sys.high, sys.s.cur.epoch));
    }
    if sys.feed.Live? && !sys.s.failed {
      SameAhead(id, v, v1, logs(sys.feed.epoch), sys.feed.pos, High(sys.high, sys.feed.epoch));
    }
    if sys.feed.Replay? && !sys.s.failed {
      forall k ensures TouchedOk(sys.s, v1, sys.feed.acc, k) { assert TouchedOk(sys.s, v, sys.feed.acc, k); }
    }
  }

  lemma {:induction false} OthersView(s: Sink, rows: Rows, rows1: Rows)
    requires RowsOk(View(rows, s.tx)) && RowsOk(rows1) && TxnOwned(s)
    requires forall hk :: Owned(s.schedd, hk) ==> (hk in rows1 <==> hk in rows)
    requires forall hk :: Owned(s.schedd, hk) && hk in rows1 ==> rows1[hk] == rows[hk]
    ensures var v, v1 := View(rows, s.tx), View(rows1, s.tx);
            && RowsOk(v1)
            && (forall hk :: Owned(s.schedd, hk) ==> (hk in v1 <==> hk in v))
            && (forall hk :: Owned(s.schedd, hk) && hk in v1 ==> v1[hk] == v[hk])
  {
    hide Owned, NamedRow;
    var v, v1 := View(rows, s.tx), View(rows1, s.tx);
    forall hk | hk in v1 ensures NamedRow(hk, v1[hk]) {
      if !Owned(s.schedd, hk) {
        assert hk !in Open(s.tx);
        assert v1[hk] == rows1[hk];
      } else {
        assert v1[hk] == v[hk];
      }
    }
  }

  lemma {:induction false} SameAhead(id: Id, rows: Rows, rows1: Rows, log: seq<Op>, p: nat, high: nat)
    requires Ahead(id, rows, log, p, high) && forall k :: Have(id, rows1, k) == Have(id, rows, k)
    ensures Ahead(id, rows1, log, p, high)
  {
    hide Have, WantIn, State;
    forall k ensures Seen(id, rows1, k, log, p, high) { assert Seen(id, rows, k, log, p, high); }
  }

  /** Every action keeps the invariant, whatever fails -- a crash, if the stored cursor heals -- and leaves
      the stored cursor where it was or healing. */
  lemma {:induction false} StepInv(sys: Sys, a: Action, logs: Logs)
    requires Inv(sys, logs) && Allowed(sys, a, logs) && (a.Crash? ==> StoredOk(sys, logs))
    ensures Inv(Next(sys, a), logs) && Moved(sys, a, logs)
  {
    hide Inv, Delivers, Apply, BeginSession, EndSession, FlushCall;
    match a {
      case Begin(_) => SessionInv(sys, a, logs);
      case End => SessionInv(sys, a, logs);
      case Crash => SessionInv(sys, a, logs);
      case FlushNow(f) => FlushInv(sys, f, logs);
      case Others(rows) => OthersInv(sys, rows, logs);
      case Recv(c, f) => RecvInv(sys, c, f, logs);
    }
  }

  lemma {:induction false} RecvInv(sys: Sys, c: Change, f: Faults, logs: Logs)
    requires Inv(sys, logs) && Allowed(sys, Recv(c, f), logs)
    ensures Inv(Next(sys, Recv(c, f)), logs) && Moved(sys, Recv(c, f), logs)
  {
    if sys.s.failed {
      FailedRecv(sys, c, f, logs);
    } else {
      match c {
        case Upsert(_, _, _) => RowInv(sys, c, f, logs);
        case Delete(_, _) => RowInv(sys, c, f, logs);
        case Reset(_) => ResetInv(sys, c, f, logs);
        case Synced(_) => if sys.feed.Live? { SyncedLiveInv(sys, c, f, logs); }
            else { SyncedReplayInv(sys, c, f, logs); }
        case Gap(_) =>
      }
    }
  }

  lemma {:induction false} FailedRecv(sys: Sys, c: Change, f: Faults, logs: Logs)
    requires Inv(sys, logs) && sys.s.failed
    ensures Inv(Next(sys, Recv(c, f)), logs) && Moved(sys, Recv(c, f), logs)
  {
    hide HubKey.Key, Commit, RowsOk, Ahead, State, TouchedOk;
  }
}
