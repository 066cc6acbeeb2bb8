/** The record builder, the socket connection and the streaming loop as they change their buffers. */
module ResponseWriter {
  import opened Text
  import opened Framing
  import F = FdWriter
  import opened FdWriter

  // ---------------------------------------------------------------------------------------
  // Building a record: headers are written as zeros and patched once the body is known.

  /** Overwrites bytes in place. */
  function Patch(dst: Bytes, at: nat, b: Bytes): (r: Bytes)
    requires at + |b| <= |dst|
    ensures |r| == |dst|
  {
    dst[..at] + b + dst[at + |b|..]
  }

  lemma {:induction false} PatchMiddle(a: Bytes, middle: Bytes, c: Bytes, b: Bytes)
    requires |middle| == |b|
    ensures Patch(a + middle + c, |a|, b) == a + b + c
  {
  }

  function Header(cedar: bool): (h: Bytes)
    ensures |h| == if cedar then 5 else 4
  {
    if cedar then [END, 0, 0, 0, 0] else [0, 0, 0, 0]
  }

  const ZERO8: Bytes := [0, 0, 0, 0, 0, 0, 0, 0]

  /** startRecord. */
  method StartRecord(cedar: bool, dst: Bytes) returns (r: Bytes)
    ensures r == dst + Header(cedar) + ZERO8
  {
    r := dst + Header(cedar);
    r := r + ZERO8;
  }

  /** reframeOversize: the one frame begun at start becomes a run of frames. */
  method ReframeOversize(dst: Bytes, start: nat) returns (out: Bytes)
    requires start + 5 < |dst|
    ensures out == dst[..start] + FramesBytes(Split(dst[start + 5..]))
  {
    hide FramesBytes, FrameBytes, Split, Big;
    var payload := dst[start + 5..];
    NoFrames();
    assert payload[0..] == payload;
    out := dst[..start];
    var off := 0;
    ghost var done: seq<Frame> := [];
    while off < |payload|
      invariant 0 <= off <= |payload|
      invariant out == dst[..start] + FramesBytes(done)
      invariant if off < |payload| then done + Split(payload[off..]) == Split(payload) else done == Split(payload)
    {
      var end := if off + MAX_BODY < |payload| then off + MAX_BODY else |payload|;
      var flag := if end == |payload| then END else PARTIAL;
      ghost var f := Frame(flag, payload[off..end]);
      SplitOff(payload, off, end, f);
      FramesConcat(done, [f]);
      OneFrame(f);
      FrameIs(f);
      Assoc(dst[..start], FramesBytes(done), FrameBytes(f));
      if end < |payload| {
        Assoc(done, [f], Split(payload[end..]));
      }
      done := done + [f];
      out := out + ([flag] + Big(end - off, 4) + payload[off..end]);
      off := end;
    }
  }

  lemma {:induction false} NoFrames()
    ensures FramesBytes([]) == []
  {
  }

  lemma {:induction false} FrameIs(f: Frame)
    ensures FrameBytes(f) == [f.flag] + Big(|f.body|, 4) + f.body
  {
  }

  lemma {:induction false} OneFrame(f: Frame)
    ensures FramesBytes([f]) == FrameBytes(f)
  {
    hide FrameBytes;
    assert [f][1..] == [];
    assert FramesBytes([]) == [];
  }

  lemma {:induction false} SplitOff(payload: Bytes, off: nat, end: nat, f: Frame)
    requires off < |payload| && end == (if off + MAX_BODY < |payload| then off + MAX_BODY else |payload|)
    requires f == Frame(if end == |payload| then END else PARTIAL, payload[off..end])
    ensures Split(payload[off..]) == if end == |payload| then [f] else [f] + Split(payload[end..])
  {
    var rest := payload[off..];
    if end == |payload| {
      assert payload[off..end] == rest;
    } else {
      assert rest[..MAX_BODY] == payload[off..end];
      assert rest[MAX_BODY..] == payload[end..];
    }
  }

  /** endRecord: the trailing types, the count, the length. The buffer holds `pre`, the open header, and
      the expressions. */
  method EndRecord(cedar: bool, dst: Bytes, start: nat, n: nat, ghost pre: Bytes, ghost exprs: Bytes) returns (r: Bytes)
    requires dst == pre + Header(cedar) + ZERO8 + exprs && start == |pre|
    ensures var body := Big(n, 8) + exprs + [0, 0];
            r == pre + if cedar then FramesBytes(Split(body)) else Little(|body|, 4) + body
  {
    hide Split, FramesBytes, Big, Little, Patch;
    var hdr := |Header(cedar)|;
    ghost var body := Big(n, 8) + exprs + [0, 0];
    r := dst + [0, 0];
    CountPatch(pre, Header(cedar), exprs, n);
    r := Patch(r, start + hdr, Big(n, 8));
    var payloadLen := |r| - start - hdr;
    if !cedar {
      PatchMiddle(pre, Header(cedar), body, Little(payloadLen, 4));
      r := Patch(r, start, Little(payloadLen, 4));
      Assoc(pre, Little(payloadLen, 4), body);
    } else if payloadLen > MAX_BODY {
      Cuts(pre, Header(cedar), body);
      r := ReframeOversize(r, start);
    } else {
      LengthPatch(pre, body, Big(payloadLen, 4));
      r := Patch(r, start + 1, Big(payloadLen, 4));
      SingleFrame(body);
    }
  }

  lemma {:induction false} CountPatch(pre: Bytes, h: Bytes, exprs: Bytes, n: nat)
    ensures |pre + h + ZERO8 + exprs + [0, 0]| >= |pre| + |h| + 8
    ensures Patch(pre + h + ZERO8 + exprs + [0, 0], |pre| + |h|, Big(n, 8)) == pre + h + (Big(n, 8) + exprs + [0, 0])
  {
    hide Big;
    var r := pre + h + ZERO8 + exprs + [0, 0];
    assert r == (pre + h) + ZERO8 + (exprs + [0, 0]);
    PatchMiddle(pre + h, ZERO8, exprs + [0, 0], Big(n, 8));
    assert Big(n, 8) + exprs + [0, 0] == Big(n, 8) + (exprs + [0, 0]);
    Assoc(pre + h, Big(n, 8), exprs + [0, 0]);
  }

  lemma {:induction false} Cuts(pre: Bytes, h: Bytes, body: Bytes)
    ensures (pre + h + body)[..|pre|] == pre && (pre + h + body)[|pre| + |h|..] == body
  {
  }

  lemma {:induction false} LengthPatch(pre: Bytes, body: Bytes, len: Bytes)
    requires |len| == 4
    ensures |pre + Header(true) + body| >= |pre| + 5
    ensures Patch(pre + Header(true) + body, |pre| + 1, len) == pre + ([END] + len + body)
  {
    var r := pre + Header(true) + body;
    assert r == (pre + [END]) + [0, 0, 0, 0] + body;
    PatchMiddle(pre + [END], [0, 0, 0, 0], body, len);
    assert (pre + [END]) + len + body == pre + ([END] + len + body);
  }

  lemma {:induction false} SingleFrame(body: Bytes)
    requires |body| <= MAX_BODY
    ensures FramesBytes(Split(body)) == [END] + Big(|body|, 4) + body
  {
    hide Big;
    OneFrame(Frame(END, body));
  }

  /** A whole record: what the two row forms do around their own loops. */
  method AppendRecord(cedar: bool, dst: Bytes, exprs: seq<Bytes>) returns (r: Bytes)
    ensures r == dst + Record(cedar, exprs)
  {
    hide Big, Little, Split, FramesBytes;
    r := StartRecord(cedar, dst);
    var n := 0;
    assert exprs[..0] == [];
    assert Strings([]) == [];
    for i := 0 to |exprs|
      invariant n == i && r == dst + Header(cedar) + ZERO8 + Strings(exprs[..i])
    {
      StringsSnoc(exprs, i);
      r := r + exprs[i];
      r := r + [0];
      n := n + 1;
    }
    assert exprs[..|exprs|] == exprs;
    r := EndRecord(cedar, r, |dst|, n, dst, Strings(exprs));
  }

  lemma {:induction false} StringsSnoc(exprs: seq<Bytes>, i: nat)
    requires i < |exprs|
    ensures Strings(exprs[..i + 1]) == Strings(exprs[..i]) + exprs[i] + [0]
  {
    StringsConcat(exprs[..i], exprs[i]);
    assert exprs[..i + 1] == exprs[..i] + [exprs[i]];
  }

  lemma {:induction false} StringsConcat(a: seq<Bytes>, e: Bytes)
    ensures Strings(a + [e]) == Strings(a) + e + [0]
  {
    if a == [] {
      assert a + [e] == [e] && [e][1..] == [];
    } else {
      StringsConcat(a[1..], e);
      assert (a + [e])[1..] == a[1..] + [e];
    }
  }

  // ---------------------------------------------------------------------------------------
  // The connection.

  class Wire {
    var out: Bytes
    var script: seq<Event>

    constructor (events: seq<Event>)
      ensures out == [] && script == events
    {
      out, script := [], events;
    }
  }

  function Ahead(wrote: nat, r: Pushed): Pushed { r.(sent := wrote + r.sent) }

  lemma {:induction false} PushNothing(script: seq<Event>)
    ensures Push([], script) == Pushed(0, script, true)
  {
  }

  /** One turn of the write loop. */
  lemma {:induction false} PushStep(p: Bytes, script: seq<Event>)
    requires p != []
    ensures script == [] ==> Push(p, script) == Pushed(0, [], false)
    ensures script != [] ==>
              Push(p, script) ==
              match script[0]
              case Wrote(n) =>
                if n == 0 then Pushed(0, script[1..], false)
                else var k := if n < |p| then n else |p|; Ahead(k, Push(p[k..], script[1..]))
              case Interrupted => Push(p, script[1..])
              case WouldBlock(pollFailed) => if pollFailed then Pushed(0, script[1..], false) else Push(p, script[1..])
              case _ => Pushed(0, script[1..], false)
  {
  }

  lemma {:induction false} Advance(bytes: Bytes, wrote: nat, k: nat)
    requires wrote + k <= |bytes|
    ensures bytes[..wrote] + bytes[wrote..][..k] == bytes[..wrote + k] && bytes[wrote..][k..] == bytes[wrote + k..]
  {
  }

  class FdConn {
    const wire: Wire
    var buf: Bytes
    var dirty: bool

    ghost function C(): Conn
      reads this
    {
      Conn(buf, dirty)
    }

    ghost function K(): Socket
      reads wire
    {
      Socket(wire.out, wire.script)
    }

    constructor (w: Wire)
      ensures C() == Conn([], false) && wire == w
    {
      wire, buf, dirty := w, [], false;
    }

    /** writeAll: p shrinks as the socket takes it. */
    method WriteAll(bytes: Bytes) returns (ok: bool)
      modifies this, wire
      ensures Done(C(), K(), ok) == F.WriteAll(old(C()), old(K()), bytes)
    {
      hide Push;
      var p, wrote, failed := bytes, 0, false;
      ghost var all := Push(bytes, wire.script);
      ghost var start := wire.out;
      while |p| > 0 && !failed
        invariant wrote <= |bytes| && p == bytes[wrote..] && wire.out == start + bytes[..wrote]
        invariant C() == old(C())
        invariant all == if failed then Pushed(wrote, wire.script, false) else Ahead(wrote, Push(p, wire.script))
        decreases |wire.script|, !failed
      {
        PushStep(p, wire.script);
        if wire.script == [] {
          failed := true;
        } else {
          var e := wire.script[0];
          wire.script := wire.script[1..];
          match e {
            case Wrote(n) =>
              if n == 0 {
                failed := true;
              } else {
                var k := if n < |p| then n else |p|;
                wire.out := wire.out + p[..k];
                Advance(bytes, wrote, k);
                wrote, p := wrote + k, p[k..];
              }
            case Interrupted =>
            case WouldBlock(pollFailed) => failed := pollFailed;
            case _ => failed := true;
          }
        }
      }
      if failed {
        dirty := dirty || wrote > 0;
        return false;
      }
      PushNothing(wire.script);
      assert bytes[..wrote] == bytes;
      ok := true;
    }

    method Flush() returns (ok: bool)
      modifies this, wire
      ensures Done(C(), K(), ok) == F.Flush(old(C()), old(K()))
    {
      hide F.WriteAll;
      if |buf| == 0 {
        return true;
      }
      ok := WriteAll(buf);
      buf := [];
    }

    method Write(p: Bytes) returns (ok: bool)
      modifies this, wire
      ensures Done(C(), K(), ok) == F.Write(old(C()), old(K()), p)
    {
      hide F.WriteAll, F.Flush;
      if |buf| + |p| > WRITE_BUFFER {
        ok := Flush();
        if !ok {
          return false;
        }
      }
      if |p| >= WRITE_BUFFER {
        ok := WriteAll(p);
        return;
      }
      buf := buf + p;
      ok := true;
    }

    method WriteChunk(p: Bytes) returns (ok: bool)
      modifies this, wire
      ensures Done(C(), K(), ok) == F.WriteChunk(old(C()), old(K()), p)
    {
      hide F.Write, F.Flush;
      ok := Write(p);
      if !ok {
        return;
      }
      ok := Flush();
    }
  }

  // ---------------------------------------------------------------------------------------
  // The stream.

  class QueueRequest {
    const conn: FdConn
    var buf: Bytes
    var ads: nat
    var written: nat

    ghost function S(): Stream
      reads this, conn, conn.wire
    {
      Stream(conn.C(), conn.K(), buf, ads, written)
    }

    constructor (c: FdConn)
      ensures conn == c && buf == [] && ads == 0 && written == 0
    {
      conn, buf, ads, written := c, [], 0, 0;
    }

    /** The flush closure of stream. */
    method FlushBuf() returns (ok: bool)
      modifies this, conn, conn.wire
      ensures (S(), ok) == F.FlushBuf(old(S()))
    {
      hide F.WriteChunk;
      if |buf| == 0 {
        return true;
      }
      ok := conn.WriteChunk(buf);
      if !ok {
        return;
      }
      written := written + ads;
      buf, ads := [], 0;
    }

    /** The row and tally closures. */
    method TakeRow(ad: seq<Bytes>) returns (ok: bool)
      modifies this, conn, conn.wire
      ensures (S(), ok) == F.TakeRow(old(S()), ad)
    {
      hide F.FlushBuf;
      buf := AppendRecord(true, buf, ad);
      ads := ads + 1;
      if |buf| >= CHUNK_TARGET {
        ok := FlushBuf();
      } else {
        ok := true;
      }
    }

    /** stream over the matching rows. */
    method Run(rows: seq<Row>) returns (end: Ending)
      requires S() == Opening(conn.wire.script)
      modifies this, conn, conn.wire
      ensures (S(), end) == Respond(old(conn.wire.script), rows)
    {
      hide F.FlushBuf, F.TakeRow;
      ghost var s0 := S();
      assert rows[0..] == rows;
      for i := 0 to |rows|
        invariant TakeRows(s0, rows) == TakeRows(S(), rows[i..])
      {
        assert rows[i..][1..] == rows[i + 1..];
        if rows[i].None? {
          return RowError;
        }
        var ok := TakeRow(rows[i].value);
        if !ok {
          return SendError;
        }
      }
      assert rows[|rows|..] == [];
      var _ := FlushBuf();
      end := EndOfRows;
    }
  }
}
