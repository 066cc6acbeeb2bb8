/** Ad records on the wire (capi/queuewire.go) and how they are read back (capi/queuefd.go). */
module Framing {
  import opened Text

  type Byte = x: int | 0 <= x < 256

  type Bytes = seq<Byte>

  const MAX_BODY: nat := 1024 * 1024
  const TWO32: nat := 0x1_0000_0000
  const TWO64: nat := 0x1_0000_0000_0000_0000
  const PARTIAL: Byte := 0
  const END: Byte := 1

  // ---------------------------------------------------------------------------------------
  // Integers as bytes: the low n bytes of a number, most significant last or first.

  function Little(v: nat, n: nat): (b: Bytes)
    ensures |b| == n
  {
    if n == 0 then [] else [v % 256] + Little(v / 256, n - 1)
  }

  function Big(v: nat, n: nat): (b: Bytes)
    ensures |b| == n
  {
    if n == 0 then [] else Big(v / 256, n - 1) + [v % 256]
  }

  function FromLittle(b: Bytes): nat { if b == [] then 0 else b[0] + 256 * FromLittle(b[1..]) }

  function FromBig(b: Bytes): nat { if b == [] then 0 else 256 * FromBig(b[..|b| - 1]) + b[|b| - 1] }

  function Pow256(n: nat): (p: nat)
    ensures p > 0
  {
    if n == 0 then 1 else 256 * Pow256(n - 1)
  }

  lemma {:induction false} ModStep(v: nat, p: nat)
    requires p > 0
    ensures 256 * p > 0 && v % (256 * p) == 256 * (v / 256 % p) + v % 256
  {
    var q, r := v / 256, v % 256;
    var k, m := q / p, q % p;
    assert q == k * p + m && 0 <= m < p;
    assert v == k * (256 * p) + (256 * m + r) by {
      assert 256 * (k * p) == k * (256 * p);
    }
    Remainder(v, 256 * p, k, 256 * m + r);
  }

  lemma {:induction false} Remainder(v: nat, d: nat, k: nat, r: nat)
    requires d > 0 && v == k * d + r && r < d
    ensures v % d == r
  {
    var q, m := v / d, v % d;
    assert q * d + m == k * d + r;
    Gap(q, k, d);
    Gap(k, q, d);
  }

  lemma {:induction false} Gap(a: nat, b: nat, d: nat)
    ensures a > b ==> a * d >= b * d + d
  {
    if a > b {
      assert a * d == (a - 1 - b) * d + (b + 1) * d;
      assert (b + 1) * d == b * d + d;
    }
  }

  lemma {:induction false} LittleBack(v: nat, n: nat)
    ensures FromLittle(Little(v, n)) == v % Pow256(n)
  {
    if n > 0 {
      LittleBack(v / 256, n - 1);
      ModStep(v, Pow256(n - 1));
      assert Little(v, n)[1..] == Little(v / 256, n - 1);
    }
  }

  lemma {:induction false} BigBack(v: nat, n: nat)
    ensures FromBig(Big(v, n)) == v % Pow256(n)
  {
    if n > 0 {
      BigBack(v / 256, n - 1);
      ModStep(v, Pow256(n - 1));
      assert Big(v, n)[..n - 1] == Big(v / 256, n - 1);
    }
  }

  lemma {:induction false} Powers()
    ensures Pow256(4) == TWO32 && Pow256(8) == TWO64
  {
    assert Pow256(0) == 1 && Pow256(1) == 256 && Pow256(2) == 65536 && Pow256(3) == 16777216 && Pow256(4) == TWO32;
    assert Pow256(5) == 256 * TWO32 && Pow256(6) == 65536 * TWO32 && Pow256(7) == 16777216 * TWO32;
  }

  // ---------------------------------------------------------------------------------------
  // One ad.

  function Strings(exprs: seq<Bytes>): Bytes {
    if exprs == [] then [] else exprs[0] + [0] + Strings(exprs[1..])
  }

  /** The expression count, the NUL-terminated expressions, and two empty type strings. */
  function Payload(exprs: seq<Bytes>): (p: Bytes)
    ensures |p| >= 10
  {
    Big(|exprs|, 8) + Strings(exprs) + [0, 0]
  }

  /** The length-delimited record; the length is a 32-bit one. */
  function PlainRecord(exprs: seq<Bytes>): Bytes { Little(|Payload(exprs)|, 4) + Payload(exprs) }

  datatype Frame = Frame(flag: Byte, body: Bytes)

  function FrameBytes(f: Frame): Bytes { [f.flag] + Big(|f.body|, 4) + f.body }

  function FramesBytes(fs: seq<Frame>): Bytes { if fs == [] then [] else FrameBytes(fs[0]) + FramesBytes(fs[1..]) }

  /** A payload as CEDAR frames: full partial ones, then the one that ends the message. */
  function Split(payload: Bytes): (fs: seq<Frame>)
    ensures fs != []
    decreases |payload|
  {
    if |payload| <= MAX_BODY then [Frame(END, payload)]
    else [Frame(PARTIAL, payload[..MAX_BODY])] + Split(payload[MAX_BODY..])
  }

  function CedarRecord(exprs: seq<Bytes>): Bytes { FramesBytes(Split(Payload(exprs))) }

  function Record(cedar: bool, exprs: seq<Bytes>): Bytes { if cedar then CedarRecord(exprs) else PlainRecord(exprs) }

  function Chunk(cedar: bool, ads: seq<seq<Bytes>>): Bytes {
    if ads == [] then [] else Record(cedar, ads[0]) + Chunk(cedar, ads[1..])
  }

  function Payloads(ads: seq<seq<Bytes>>): seq<Bytes> {
    if ads == [] then [] else [Payload(ads[0])] + Payloads(ads[1..])
  }

  // ---------------------------------------------------------------------------------------
  // Reading a chunk.

  /** nextChunkRecord: the record at the head of what is left, and the rest. */
  function NextRecord(buf: Bytes): Option<(Bytes, Bytes)> {
    if |buf| < 4 then None
    else
      var n := FromLittle(buf[..4]);
      if 4 + n > |buf| then None else Some((buf[4..4 + n], buf[4 + n..]))
  }

  /** Every record, if the walk ends exactly at the end of the buffer. */
  function WalkChunk(buf: Bytes): Option<seq<Bytes>>
    decreases |buf|
  {
    if buf == [] then Some([])
    else
      match NextRecord(buf)
      case None => None
      case Some((payload, rest)) =>
        var more := WalkChunk(rest);
        if more.None? then None else Some([payload] + more.value)
  }

  function IndexZero(b: Bytes): Option<nat> {
    if b == [] then None
    else if b[0] == 0 then Some(0)
    else
      var i := IndexZero(b[1..]);
      if i.None? then None else Some(i.value + 1)
  }

  function TakeStrings(body: Bytes, count: nat): Option<seq<Bytes>>
    decreases count
  {
    if count == 0 then Some([])
    else
      var i := IndexZero(body);
      if i.None? || i.value >= |body| then None
      else
        var more := TakeStrings(body[i.value + 1..], count - 1);
        if more.None? then None else Some([body[..i.value]] + more.value)
  }

  /** putEncryptedAd's reading of a payload. */
  function Expressions(payload: Bytes): Option<seq<Bytes>> {
    if |payload| < 8 then None else TakeStrings(payload[8..], FromBig(payload[..8]))
  }

  lemma {:induction false} RecordHead(exprs: seq<Bytes>, rest: Bytes)
    ensures |Payload(exprs)| < TWO32 ==> NextRecord(PlainRecord(exprs) + rest) == Some((Payload(exprs), rest))
    ensures |Payload(exprs)| >= TWO32 ==>
              var r := NextRecord(PlainRecord(exprs) + rest); r.None? || |r.value.0| != |Payload(exprs)|
  {
    hide Payload, Little, FromLittle;
    var p := Payload(exprs);
    var buf := PlainRecord(exprs) + rest;
    assert buf[..4] == Little(|p|, 4);
    LittleBack(|p|, 4);
    Powers();
    assert FromLittle(buf[..4]) == |p| % TWO32;
    assert buf == Little(|p|, 4) + (p + rest);
    if |p| < TWO32 {
      assert buf[4..4 + |p|] == p && buf[4 + |p|..] == rest;
    }
  }

  /** Walking a chunk recovers every payload in order and ends exactly at its end, if and only if every
      payload's length fits the 32-bit header. */
  lemma {:induction false} ChunkRoundTrip(ads: seq<seq<Bytes>>)
    ensures WalkChunk(Chunk(false, ads)) == Some(Payloads(ads)) <==> forall k :: 0 <= k < |ads| ==>
            |Payload(ads[k])| < TWO32
  {
    hide Payload, NextRecord, PlainRecord;
    if ads != [] {
      var buf := Chunk(false, ads);
      RecordHead(ads[0], Chunk(false, ads[1..]));
      assert buf != [] by { NonEmpty(ads[0]); }
      ChunkRoundTrip(ads[1..]);
      if |Payload(ads[0])| < TWO32 {
        var more := WalkChunk(Chunk(false, ads[1..]));
        assert WalkChunk(buf) == if more.None? then None else Some([Payload(ads[0])] + more.value);
        assert more.Some? ==> ([Payload(ads[0])] + more.value)[1..] == more.value;
        assert Payloads(ads)[1..] == Payloads(ads[1..]);
        assert forall k :: 0 < k < |ads| ==> ads[k] == ads[1..][k - 1];
        assert forall k :: 0 <= k < |ads[1..]| ==> ads[1..][k] == ads[k + 1];
      } else {
        var whole := WalkChunk(buf);
        assert whole.Some? ==> whole.value[0] == NextRecord(buf).value.0;
        assert Payloads(ads)[0] == Payload(ads[0]);
      }
    }
  }

  /** One ad of one 4 GiB expression: its length wraps in the header and the walk does not recover it. */
  lemma {:induction false} FourGiBLost()
    ensures var ad: seq<Bytes> := [seq(TWO32, i => 65)];
            WalkChunk(Chunk(false, [ad])) != Some(Payloads([ad]))
  {
    hide Payload, WalkChunk, Chunk, Payloads;
    var ad: seq<Bytes> := [seq(TWO32, i => 65)];
    ChunkRoundTrip([ad]);
    assert |Payload(ad)| >= TWO32 by { OneString(ad[0]); }
    assert |Payload([ad][0])| >= TWO32;
  }

  lemma {:induction false} OneString(e: Bytes)
    ensures |Payload([e])| >= |e|
  {
    hide Big;
  }

  lemma {:induction false} NonEmpty(exprs: seq<Bytes>)
    ensures PlainRecord(exprs) != []
  {
  }

  ghost predicate NulFree(e: Bytes) { forall i :: 0 <= i < |e| ==> e[i] != 0 }

  lemma {:induction false} FindsNul(e: Bytes, rest: Bytes)
    requires NulFree(e)
    ensures IndexZero(e + [0] + rest) == Some(|e|)
  {
    var s := e + [0] + rest;
    if e != [] {
      FindsNul(e[1..], rest);
      assert s[1..] == e[1..] + [0] + rest;
    }
  }

  lemma {:induction false} StringsBack(exprs: seq<Bytes>, rest: Bytes)
    requires forall k :: 0 <= k < |exprs| ==> NulFree(exprs[k])
    ensures TakeStrings(Strings(exprs) + rest, |exprs|) == Some(exprs)
  {
    if exprs != [] {
      var e := exprs[0];
      var tail := Strings(exprs[1..]) + rest;
      var body := Strings(exprs) + rest;
      assert body == e + [0] + tail;
      FindsNul(e, tail);
      assert body[|e| + 1..] == tail && body[..|e|] == e;
      StringsBack(exprs[1..], rest);
      Uncons(exprs);
    }
  }

  /** Decoding a payload gives back its expressions. */
  lemma {:induction false} PayloadRoundTrip(exprs: seq<Bytes>)
    requires |exprs| < TWO64 && forall k :: 0 <= k < |exprs| ==> NulFree(exprs[k])
    ensures Expressions(Payload(exprs)) == Some(exprs)
  {
    hide Big, FromBig, Strings, TakeStrings, NulFree;
    var p := Payload(exprs);
    assert p[..8] == Big(|exprs|, 8);
    BigBack(|exprs|, 8);
    Powers();
    assert p[8..] == Strings(exprs) + [0, 0];
    StringsBack(exprs, [0, 0]);
  }

  // ---------------------------------------------------------------------------------------
  // Reading CEDAR frames.

  function ParseFrames(buf: Bytes): Option<seq<Frame>>
    decreases |buf|
  {
    if buf == [] then Some([])
    else if |buf| < 5 then None
    else
      var n := FromBig(buf[1..5]);
      if 5 + n > |buf| then None
      else
        var more := ParseFrames(buf[5 + n..]);
        if more.None? then None else Some([Frame(buf[0], buf[5..5 + n])] + more.value)
  }

  /** The messages of a run of frames: bodies joined up to each end flag; None if the last is unfinished. */
  function Messages(fs: seq<Frame>, open: Option<Bytes>): Option<seq<Bytes>> {
    if fs == [] then (if open.Some? then None else Some([]))
    else
      var body := (if open.Some? then open.value else []) + fs[0].body;
      if fs[0].flag == END then
        var more := Messages(fs[1..], None);
        if more.None? then None else Some([body] + more.value)
      else Messages(fs[1..], Some(body))
  }

  function AllFrames(ads: seq<seq<Bytes>>): seq<Frame> {
    if ads == [] then [] else Split(Payload(ads[0])) + AllFrames(ads[1..])
  }

  ghost predicate Legal(f: Frame) { 1 <= |f.body| <= MAX_BODY && (f.flag == END || f.flag == PARTIAL) }

  /** Only the last frame of a split carries the end flag, no frame is empty or too long, and every other frame
      is full. */
  lemma {:induction false} SplitLegal(payload: Bytes, k: nat)
    requires payload != [] && k < |Split(payload)|
    ensures Legal(Split(payload)[k]) && (Split(payload)[k].flag == END <==> k == |Split(payload)| - 1)
    ensures k < |Split(payload)| - 1 ==> |Split(payload)[k].body| == 0x10_0000
    decreases |payload|
  {
    if |payload| > MAX_BODY && k > 0 {
      SplitLegal(payload[MAX_BODY..], k - 1);
    }
  }

  lemma {:induction false} FrameHead(f: Frame, rest: Bytes)
    requires |f.body| < TWO32
    ensures var buf := FrameBytes(f) + rest;
            && |buf| >= 5 + |f.body| && FromBig(buf[1..5]) == |f.body|
            && buf[0] == f.flag && buf[5..5 + |f.body|] == f.body && buf[5 + |f.body|..] == rest
  {
    hide Big, FromBig;
    var buf := FrameBytes(f) + rest;
    assert buf[1..5] == Big(|f.body|, 4);
    BigBack(|f.body|, 4);
    Powers();
    Small(|f.body|, TWO32);
  }

  lemma {:induction false} Small(n: nat, m: nat)
    requires n < m
    ensures n % m == n
  {
  }

  lemma {:induction false} ParseBack(fs: seq<Frame>)
    requires forall k :: 0 <= k < |fs| ==> |fs[k].body| < TWO32
    ensures ParseFrames(FramesBytes(fs)) == Some(fs)
  {
    hide FrameBytes, FromBig;
    if fs != [] {
      FrameHead(fs[0], FramesBytes(fs[1..]));
      ParseBack(fs[1..]);
      Uncons(fs);
    }
  }

  lemma {:induction false} FramesConcat(a: seq<Frame>, b: seq<Frame>)
    ensures FramesBytes(a + b) == FramesBytes(a) + FramesBytes(b)
  {
    hide FrameBytes;
    if a == [] {
      assert a + b == b;
    } else {
      FramesConcat(a[1..], b);
      assert (a + b)[1..] == a[1..] + b;
      Assoc(FrameBytes(a[0]), FramesBytes(a[1..]), FramesBytes(b));
    }
  }

  lemma {:induction false} ChunkIsFrames(ads: seq<seq<Bytes>>)
    ensures Chunk(true, ads) == FramesBytes(AllFrames(ads))
  {
    hide Payload, Split;
    if ads != [] {
      ChunkIsFrames(ads[1..]);
      FramesConcat(Split(Payload(ads[0])), AllFrames(ads[1..]));
    }
  }

  lemma {:induction false} AllLegal(ads: seq<seq<Bytes>>, k: nat)
    requires k < |AllFrames(ads)|
    ensures Legal(AllFrames(ads)[k])
  {
    hide Split, Payload, Legal;
    if ads != [] {
      var head := Split(Payload(ads[0]));
      if k < |head| { SplitLegal(Payload(ads[0]), k); } else { AllLegal(ads[1..], k - |head|); }
    }
  }

  lemma {:induction false} SplitJoins(payload: Bytes, open: Option<Bytes>, rest: seq<Frame>)
    ensures var more := Messages(rest, None);
            Messages(Split(payload) + rest, open) ==
            if more.None? then None else Some([(if open.Some? then open.value else []) + payload] + more.value)
    decreases |payload|
  {
    var fs := Split(payload) + rest;
    if |payload| <= MAX_BODY {
      assert fs[1..] == rest;
    } else {
      var before := (if open.Some? then open.value else []) + payload[..MAX_BODY];
      SplitJoins(payload[MAX_BODY..], Some(before), rest);
      assert fs[1..] == Split(payload[MAX_BODY..]) + rest;
      assert before + payload[MAX_BODY..] == (if open.Some? then open.value else []) + payload;
    }
  }

  lemma {:induction false} FramesJoin(ads: seq<seq<Bytes>>)
    ensures Messages(AllFrames(ads), None) == Some(Payloads(ads))
  {
    hide Payload, Split;
    if ads != [] {
      SplitJoins(Payload(ads[0]), None, AllFrames(ads[1..]));
      FramesJoin(ads[1..]);
      assert [] + Payload(ads[0]) == Payload(ads[0]);
    }
  }

  /** A CEDAR chunk of any ads, however large, reads back as one message per ad in order, through frames
      whose bodies are neither empty nor over the limit. */
  lemma {:induction false} CedarRoundTrip(ads: seq<seq<Bytes>>)
    ensures ParseFrames(Chunk(true, ads)) == Some(AllFrames(ads))
    ensures Messages(AllFrames(ads), None) == Some(Payloads(ads))
    ensures forall k :: 0 <= k < |AllFrames(ads)| ==> Legal(AllFrames(ads)[k])
  {
    forall k | 0 <= k < |AllFrames(ads)| ensures Legal(AllFrames(ads)[k]) { AllLegal(ads, k); }
    ChunkIsFrames(ads);
    ParseBack(AllFrames(ads));
    FramesJoin(ads);
  }
}
