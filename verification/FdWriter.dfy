/** Writing a response to the client's socket in the clear (capi/queuefd.go, capi/queue.go): the socket may
    take part of a write, be interrupted, be full, fail, or the writer may be told to stop. */
module FdWriter {
  import opened Text
  import opened Framing

  const WRITE_BUFFER: nat := 256 * 1024
  const CHUNK_TARGET: nat := 1024 * 1024

  /** What one turn of the write loop meets: the stop flag, or a result of write(2). */
  datatype Event =
    | Stop
    | Wrote(n: nat)                 // n > 0 bytes taken; Wrote(0) is a zero-length write
    | Interrupted
    | WouldBlock(pollFailed: bool)
    | Broken

  /** The socket: the bytes on it, and what the writer will meet. A script that has run out is an error. */
  datatype Socket = Socket(out: Bytes, script: seq<Event>)

  datatype Conn = Conn(buf: Bytes, dirty: bool)

  datatype Done = Done(conn: Conn, sock: Socket, ok: bool)

  // ---------------------------------------------------------------------------------------
  // One write.

  datatype Pushed = Pushed(sent: nat, script: seq<Event>, ok: bool)

  /** The loop of writeAll over p: how many bytes went out, and whether all did. */
  function Push(p: Bytes, script: seq<Event>): (r: Pushed)
    ensures r.sent <= |p| && (r.ok <==> r.sent == |p|)
    decreases |script|
  {
    if p == [] then Pushed(0, script, true)
    else if script == [] then Pushed(0, [], false)
    else
      var rest := script[1..];
      match script[0]
      case Stop => Pushed(0, rest, false)
      case Wrote(n) =>
        if n == 0 then Pushed(0, rest, false)
        else
          var k := if n < |p| then n else |p|;
          var more := Push(p[k..], rest);
          more.(sent := k + more.sent)
      case Interrupted => Push(p, rest)
      case WouldBlock(pollFailed) => if pollFailed then Pushed(0, rest, false) else Push(p, rest)
      case Broken => Pushed(0, rest, false)
  }

  function WriteAll(c: Conn, k: Socket, p: Bytes): Done {
    var r := Push(p, k.script);
    Done(c.(dirty := c.dirty || (!r.ok && r.sent > 0)), Socket(k.out + p[..r.sent], r.script), r.ok)
  }

  function Flush(c: Conn, k: Socket): Done {
    if c.buf == [] then Done(c, k, true)
    else
      var d := WriteAll(c, k, c.buf);
      d.(conn := d.conn.(buf := []))
  }

  function Write(c: Conn, k: Socket, p: Bytes): Done {
    var d := if |c.buf| + |p| > WRITE_BUFFER then Flush(c, k) else Done(c, k, true);
    if !d.ok then d
    else if |p| >= WRITE_BUFFER then WriteAll(d.conn, d.sock, p)
    else d.(conn := d.conn.(buf := d.conn.buf + p))
  }

  function WriteChunk(c: Conn, k: Socket, p: Bytes): Done {
    var d := Write(c, k, p);
    if !d.ok then d else Flush(d.conn, d.sock)
  }

  /** From an empty buffer a chunk goes out whole, or not at all, or (dirty) strictly in part. */
  lemma {:induction false} ChunkWritten(c: Conn, k: Socket, p: Bytes)
    requires c.buf == [] && p != []
    ensures var d := WriteChunk(c, k, p);
            && d.conn.buf == []
            && (d.ok ==> d.sock.out == k.out + p && d.conn.dirty == c.dirty)
            && (!d.ok ==>
                exists n :: 0 <= n < |p| && d.sock.out == k.out + p[..n] && d.conn.dirty == (c.dirty || n > 0))
  {
    hide Push;
    var n := Push(p, k.script).sent;
    assert [] + p == p;
    if n == |p| { assert p[..n] == p; }
  }

  // ---------------------------------------------------------------------------------------
  // A query's response.

  /** A matching row: an ad's expressions, or one that cannot be read. */
  type Row = Option<seq<Bytes>>

  datatype Stream = Stream(conn: Conn, sock: Socket, buf: Bytes, ads: nat, written: nat)

  datatype Ending = RowError | SendError | EndOfRows

  function FlushBuf(s: Stream): (Stream, bool) {
    if s.buf == [] then (s, true)
    else
      var d := WriteChunk(s.conn, s.sock, s.buf);
      if d.ok then (Stream(d.conn, d.sock, [], 0, s.written + s.ads), true)
      else (s.(conn := d.conn, sock := d.sock), false)
  }

  function TakeRow(s: Stream, ad: seq<Bytes>): (Stream, bool) {
    var s1 := s.(buf := s.buf + CedarRecord(ad), ads := s.ads + 1);
    if |s1.buf| >= CHUNK_TARGET then FlushBuf(s1) else (s1, true)
  }

  /** The rows until one is unreadable or the socket fails. */
  function TakeRows(s: Stream, rows: seq<Row>): (Stream, Ending)
    decreases |rows|
  {
    if rows == [] then (s, EndOfRows)
    else if rows[0].None? then (s, RowError)
    else
      var (s1, ok) := TakeRow(s, rows[0].value);
      if !ok then (s1, SendError) else TakeRows(s1, rows[1..])
  }

  function Opening(script: seq<Event>): Stream { Stream(Conn([], false), Socket([], script), [], 0, 0) }

  /** stream: the last flush is made after the errors were reported. */
  function Respond(script: seq<Event>, rows: seq<Row>): (Stream, Ending) {
    var (s, end) := TakeRows(Opening(script), rows);
    if end == EndOfRows then (FlushBuf(s).0, end) else (s, end)
  }

  // ---------------------------------------------------------------------------------------
  // What the socket holds.

  lemma {:induction false} ChunkSnoc(ads: seq<seq<Bytes>>, ad: seq<Bytes>)
    ensures Chunk(true, ads + [ad]) == Chunk(true, ads) + CedarRecord(ad)
  {
    hide CedarRecord;
    if ads == [] {
      assert ads + [ad] == [ad] && [ad][1..] == [];
      assert Chunk(true, []) == [];
    } else {
      ChunkSnoc(ads[1..], ad);
      assert (ads + [ad])[1..] == ads[1..] + [ad];
      Assoc(CedarRecord(ads[0]), Chunk(true, ads[1..]), CedarRecord(ad));
    }
  }

  lemma {:induction false} ChunkConcat(a: seq<seq<Bytes>>, b: seq<seq<Bytes>>)
    ensures Chunk(true, a + b) == Chunk(true, a) + Chunk(true, b)
  {
    hide CedarRecord;
    if a == [] {
      assert a + b == b;
    } else {
      ChunkConcat(a[1..], b);
      assert (a + b)[1..] == a[1..] + b;
      Assoc(CedarRecord(a[0]), Chunk(true, a[1..]), Chunk(true, b));
    }
  }

  /** While clean: the ads counted as written are on the socket, the rest taken are in the buffer. */
  ghost predicate Clean(s: Stream, sent: seq<seq<Bytes>>, held: seq<seq<Bytes>>) {
    && s.conn == Conn([], false) && s.sock.out == Chunk(true, sent) && s.written == |sent|
    && s.buf == Chunk(true, held) && s.ads == |held|
  }

  /** A failed send left the socket at a chunk boundary, or (dirty) strictly inside the next chunk. */
  ghost predicate Broke(s: Stream, sent: seq<seq<Bytes>>, held: seq<seq<Bytes>>) {
    && s.written == |sent| && s.conn.buf == []
    && exists n ::
         0 <= n < |Chunk(true, held)| && s.sock.out == Chunk(true, sent) + Chunk(true, held)[..n] &&
             s.conn.dirty == (n > 0)
  }

  /** The first `written` ads, whole; or those and a strict part of the chunk after them. */
  ghost predicate Ends(s: Stream, ads: seq<seq<Bytes>>) {
    && s.written <= |ads|
    && exists m :: s.written <= m <= |ads| && BrokeAt(s, ads, m)
  }

  ghost predicate BrokeAt(s: Stream, ads: seq<seq<Bytes>>, m: nat)
    requires s.written <= m <= |ads|
  {
    if s.conn.dirty then
      exists n :: 0 < n < |Chunk(true, ads[s.written..m])| &&
                  s.sock.out == Chunk(true, ads[..s.written]) + Chunk(true, ads[s.written..m])[..n]
    else s.sock.out == Chunk(true, ads[..s.written])
  }

  lemma {:induction false} FlushKeeps(s: Stream, sent: seq<seq<Bytes>>, held: seq<seq<Bytes>>)
    requires Clean(s, sent, held)
    ensures var (t, ok) := FlushBuf(s);
            if ok then (if s.buf == [] then t == s else Clean(t, sent + held, [])) else Broke(t, sent, held)
  {
    hide WriteChunk, Chunk;
    if s.buf != [] {
      ChunkWritten(s.conn, s.sock, s.buf);
      ChunkConcat(sent, held);
      NoAds();
    }
  }

  lemma {:induction false} NoAds()
    ensures Chunk(true, []) == []
  {
  }

  lemma {:induction false} RowKeeps(s: Stream, sent: seq<seq<Bytes>>, held: seq<seq<Bytes>>, ad: seq<Bytes>)
    requires Clean(s, sent, held)
    ensures var (t, ok) := TakeRow(s, ad);
            if !ok then Broke(t, sent, held + [ad])
            else Clean(t, sent, held + [ad]) || Clean(t, sent + (held + [ad]), [])
  {
    hide FlushBuf, Chunk, CedarRecord;
    ChunkSnoc(held, ad);
    var s1 := s.(buf := s.buf + CedarRecord(ad), ads := s.ads + 1);
    FlushKeeps(s1, sent, held + [ad]);
  }

  function Ads(rows: seq<Row>): seq<seq<Bytes>> {
    if rows == [] || rows[0].None? then [] else [rows[0].value] + Ads(rows[1..])
  }

  lemma {:induction false} RowsKeep(s: Stream, sent: seq<seq<Bytes>>, held: seq<seq<Bytes>>, rows: seq<Row>)
    requires Clean(s, sent, held)
    ensures var (t, end) := TakeRows(s, rows);
            && (end == SendError ==> Ends(t, sent + held + Ads(rows)))
            && (end != SendError ==> exists a, b :: Clean(t, a, b) && a + b == sent + held + Ads(rows))
            && (end == RowError <==> end != SendError && exists k :: 0 <= k < |rows| && rows[k].None?)
    decreases |rows|
  {
    hide TakeRow, Clean, Broke, Ends;
    if rows == [] {
      assert sent + held + Ads(rows) == sent + held;
    } else if rows[0].None? {
      assert sent + held + Ads(rows) == sent + held;
    } else {
      var ad := rows[0].value;
      RowKeeps(s, sent, held, ad);
      var (s1, ok) := TakeRow(s, ad);
      var all := sent + held + Ads(rows);
      assert all == sent + (held + [ad]) + Ads(rows[1..]);
      assert all == (sent + (held + [ad])) + [] + Ads(rows[1..]);
      if !ok {
        BrokeEnds(s1, sent, held + [ad], Ads(rows[1..]));
      } else {
        if Clean(s1, sent, held + [ad]) {
          RowsKeep(s1, sent, held + [ad], rows[1..]);
        } else {
          RowsKeep(s1, sent + (held + [ad]), [], rows[1..]);
        }
        assert forall k :: 0 < k < |rows| ==> rows[k] == rows[1..][k - 1];
        assert forall k :: 0 <= k < |rows[1..]| ==> rows[1..][k] == rows[k + 1];
      }
    }
  }

  lemma {:induction false} BrokeEnds(s: Stream, sent: seq<seq<Bytes>>, held: seq<seq<Bytes>>, rest: seq<seq<Bytes>>)
    requires Broke(s, sent, held)
    ensures Ends(s, sent + held + rest)
  {
    hide Chunk;
    var ads := sent + held + rest;
    var m := |sent| + |held|;
    assert ads[..s.written] == sent && ads[s.written..m] == held;
    var n :| 0 <= n < |Chunk(true, held)| && s.sock.out == Chunk(true, sent) + Chunk(true, held)[..n] &&
        s.conn.dirty == (n > 0);
    if n == 0 { assert Chunk(true, sent) + Chunk(true, held)[..0] == Chunk(true, sent); }
    assert BrokeAt(s, ads, m);
  }

  lemma {:induction false} CleanEnds(s: Stream, a: seq<seq<Bytes>>, b: seq<seq<Bytes>>)
    requires Clean(s, a, b)
    ensures Ends(s, a + b) && !s.conn.dirty
  {
    hide Chunk;
    assert (a + b)[..|a|] == a;
    assert BrokeAt(s, a + b, |a|);
  }

  /** Under any behaviour of the socket, a response reported clean left exactly the first `written` ads on
      the socket, whole; a dirty one stopped strictly inside the chunk after them. */
  lemma {:induction false} ResponseEnds(script: seq<Event>, rows: seq<Row>)
    ensures Ends(Respond(script, rows).0, Ads(rows))
  {
    hide TakeRows, FlushBuf, Ends, Clean, Broke;
    var s0 := Opening(script);
    StartsClean(script);
    RowsKeep(s0, [], [], rows);
    assert [] + [] + Ads(rows) == Ads(rows);
    var (s, end) := TakeRows(s0, rows);
    if end != SendError {
      var a, b :| Clean(s, a, b) && a + b == [] + [] + Ads(rows);
      CleanEnds(s, a, b);
      if end == EndOfRows {
        FlushKeeps(s, a, b);
        var (t, ok) := FlushBuf(s);
        if ok {
          if s.buf != [] {
            CleanEnds(t, a + b, []);
            assert a + b + [] == a + b;
          }
        } else {
          BrokeEnds(t, a, b, []);
          assert a + b + [] == a + b;
        }
      }
    }
  }

  /** Less than a mebibyte waits between rows, and an ad count with it. */
  predicate Waiting(s: Stream) { |s.buf| < 0x10_0000 && (s.buf == [] <==> s.ads == 0) }

  lemma {:induction false} RowWaits(s: Stream, ad: seq<Bytes>)
    requires Waiting(s)
    ensures TakeRow(s, ad).1 ==> Waiting(TakeRow(s, ad).0)
  {
    hide WriteChunk;
    RecordNotEmpty(ad);
  }

  lemma {:induction false} RecordNotEmpty(ad: seq<Bytes>)
    ensures CedarRecord(ad) != []
  {
    hide Payload;
    var fs := Split(Payload(ad));
    assert FramesBytes(fs) == FrameBytes(fs[0]) + FramesBytes(fs[1..]);
  }

  /** Chunks go out as they fill: after any rows taken without a failure, less than a mebibyte waits. */
  lemma {:induction false} RowsWait(s: Stream, rows: seq<Row>)
    requires Waiting(s)
    ensures TakeRows(s, rows).1 != SendError ==> Waiting(TakeRows(s, rows).0)
    decreases |rows|
  {
    hide TakeRow, Waiting;
    if rows != [] && rows[0].Some? {
      RowWaits(s, rows[0].value);
      if TakeRow(s, rows[0].value).1 { RowsWait(TakeRow(s, rows[0].value).0, rows[1..]); }
    }
  }

  lemma {:induction false} StartsClean(script: seq<Event>)
    ensures Clean(Opening(script), [], [])
  {
  }

  /** The client of a clean response reads one message per ad written, in order. */
  lemma {:induction false} CleanReadsBack(script: seq<Event>, rows: seq<Row>)
    ensures var (s, end) := Respond(script, rows);
            !s.conn.dirty ==>
              && s.written <= |Ads(rows)|
              && ParseFrames(s.sock.out) == Some(AllFrames(Ads(rows)[..s.written]))
              && Messages(AllFrames(Ads(rows)[..s.written]), None) == Some(Payloads(Ads(rows)[..s.written]))
  {
    hide Respond, Chunk, Ads, Messages, ParseFrames, AllFrames;
    ResponseEnds(script, rows);
    var (s, end) := Respond(script, rows);
    CedarRoundTrip(Ads(rows)[..s.written]);
  }

  /** The stream reports no error although the last chunk never left: its flush comes after the reports. */
  lemma {:induction false} LastFlushUnreported()
    ensures var (s, end) := Respond([Broken], [Some([])]);
            end == EndOfRows && !s.conn.dirty && s.written == 0 && Ads([Some([])]) == [[]]
  {
    var rows: seq<Row> := [Some([])];
    assert rows[1..] == [];
    var s0 := Opening([Broken]);
    var (s1, ok) := TakeRow(s0, []);
    SmallRecord();
    assert s1.buf == CedarRecord([]);
    assert TakeRows(s0, rows) == (s1, EndOfRows);
    ChunkWritten(s1.conn, s1.sock, s1.buf);
    assert Push(s1.buf, [Broken]) == Pushed(0, [], false);
  }

  lemma {:induction false} SmallRecord()
    ensures 0 < |CedarRecord([])| < 100
  {
    var p := Payload([]);
    assert |p| == 10;
    assert Split(p) == [Frame(END, p)];
    assert FramesBytes([Frame(END, p)]) == FrameBytes(Frame(END, p)) + FramesBytes([Frame(END, p)][1..]);
    assert [Frame(END, p)][1..] == [];
  }

  // ---------------------------------------------------------------------------------------
  // When a response that reports no error is complete.

  /** A turn of the write loop that does not end it. */
  predicate Harmless(e: Event) { (e.Wrote? && e.n > 0) || e.Interrupted? || (e.WouldBlock? && !e.pollFailed) }

  /** The bytes the socket offers to take over a run of turns. */
  function Offered(script: seq<Event>): nat {
    if script == [] then 0 else (if script[0].Wrote? then script[0].n else 0) + Offered(script[1..])
  }

  /** No stop, error, empty write or failed poll comes before n bytes have been taken. */
  ghost predicate Takes(script: seq<Event>, n: nat) {
    exists k :: 0 <= k <= |script| && (forall i :: 0 <= i < k ==> Harmless(script[i])) && Offered(script[..k]) >= n
  }

  /** A write goes out whole exactly when the socket takes its bytes before anything stops it. */
  lemma {:induction false} PushIff(p: Bytes, script: seq<Event>)
    ensures Push(p, script).ok <==> Takes(script, |p|)
    decreases |script|
  {
    if p == [] {
      assert Offered(script[..0]) >= 0;
    } else if script != [] {
      var e, rest := script[0], script[1..];
      if Harmless(e) {
        var taken := if e.Wrote? then e.n else 0;
        var k := if taken < |p| then taken else |p|;
        PushIff(p[k..], rest);
        assert p[0..] == p;
        TakesTail(script, |p|, |p| - k);
      } else {
        if Takes(script, |p|) { TakesFirst(script, |p|); }
      }
    }
  }

  lemma {:induction false} TakesFirst(script: seq<Event>, n: nat)
    requires Takes(script, n) && n > 0
    ensures script != [] && Harmless(script[0])
  {
    var k :| 0 <= k <= |script| && (forall i :: 0 <= i < k ==> Harmless(script[i])) && Offered(script[..k]) >= n;
  }

  /** One harmless turn on. */
  lemma {:induction false} TakesTail(script: seq<Event>, n: nat, left: nat)
    requires script != [] && Harmless(script[0]) && n > 0
    requires var taken := if script[0].Wrote? then script[0].n else 0; left == if taken < n then n - taken else 0
    ensures Takes(script, n) <==> Takes(script[1..], left)
  {
    var rest := script[1..];
    if Takes(script, n) {
      var k :| 0 <= k <= |script| && (forall i :: 0 <= i < k ==> Harmless(script[i])) && Offered(script[..k]) >= n;
      assert script[..k][1..] == rest[..k - 1];
      assert forall i :: 0 <= i < k - 1 ==> rest[i] == script[i + 1];
    }
    if Takes(rest, left) {
      var k :| 0 <= k <= |rest| && (forall i :: 0 <= i < k ==> Harmless(rest[i])) && Offered(rest[..k]) >= left;
      assert script[..k + 1][1..] == rest[..k];
      assert forall i :: 0 < i < k + 1 ==> script[i] == rest[i - 1];
    }
  }

  lemma {:induction false} FlushGuard(s: Stream)
    requires s.conn == Conn([], false)
    ensures FlushBuf(s).1 <==> s.buf == [] || Push(s.buf, s.sock.script).ok
  {
    hide Push;
    assert [] + s.buf == s.buf;
  }

  /** A response that reports no error is complete exactly when nothing was left to flush at its end, or
      the socket then took all of it. */
  lemma {:induction false} CompleteIff(script: seq<Event>, rows: seq<Row>)
    ensures var (s, end) := TakeRows(Opening(script), rows);
            var t := Respond(script, rows).0;
            end == EndOfRows ==>
              (!t.conn.dirty && t.sock.out == Chunk(true, Ads(rows)) <==>
               s.buf == [] || Takes(s.sock.script, |s.buf|))
  {
    hide TakeRows, FlushBuf, Ends, Broke, Chunk, Takes, Push;
    StartsClean(script);
    RowsKeep(Opening(script), [], [], rows);
    assert [] + [] + Ads(rows) == Ads(rows);
    var (s, end) := TakeRows(Opening(script), rows);
    if end == EndOfRows {
      var a, b :| Clean(s, a, b) && a + b == [] + [] + Ads(rows);
      LastFlush(s, a, b);
      FlushGuard(s);
      PushIff(s.buf, s.sock.script);
    }
  }

  lemma {:induction false} LastFlush(s: Stream, a: seq<seq<Bytes>>, b: seq<seq<Bytes>>)
    requires Clean(s, a, b)
    ensures var (t, ok) := FlushBuf(s); (!t.conn.dirty && t.sock.out == Chunk(true, a + b)) <==> ok
  {
    hide FlushBuf, Chunk;
    FlushKeeps(s, a, b);
    ChunkConcat(a, b);
    NoAds();
    BufferEmpty(b);
    var (t, ok) := FlushBuf(s);
    if ok && s.buf == [] {
      assert b == [];
      assert a + b == a;
    } else if ok {
      assert a + b + [] == a + b;
    } else {
      var n :| 0 <= n < |Chunk(true, b)| && t.sock.out == Chunk(true, a) + Chunk(true, b)[..n] &&
          t.conn.dirty == (n > 0);
      assert |t.sock.out| < |Chunk(true, a + b)|;
    }
  }

  lemma {:induction false} BufferEmpty(ads: seq<seq<Bytes>>)
    ensures Chunk(true, ads) == [] <==> ads == []
  {
    hide Payload;
    if ads != [] {
      var fs := Split(Payload(ads[0]));
      assert |FramesBytes(fs)| >= 5;
    }
  }
}
