/** The epoch importer (historyimport/epoch.go): a cursor at the newest write second and the keys seen there. */
module EpochImport {
  import opened Text

  /** A source record: its EpochWriteDate and its dedup key, and the rest. */
  datatype Rec = Rec(date: int, key: string, data: string)

  datatype Cursor = Cursor(date: int, keys: set<string>)

  const NO_CURSOR := Cursor(0, {})

  // ---------------------------------------------------------------------------------------
  // The source.

  /** Dates are positive and never go back, and no two records of one second share a key. */
  ghost predicate Monotone(src: seq<Rec>) {
    && (forall i :: 0 <= i < |src| ==> src[i].date > 0)
    && (forall i, j :: 0 <= i < j < |src| ==> src[i].date <= src[j].date)
    && (forall i, j :: 0 <= i < j < |src| && src[i].date == src[j].date ==> src[i].key != src[j].key)
  }

  /** What the since expression leaves in: the whole source, or the boundary second and after. */
  predicate InScan(r: Rec, c: Cursor) { c.date <= 0 || r.date >= c.date }

  function Scan(src: seq<Rec>, c: Cursor): seq<Rec> {
    if src == [] then []
    else Scan(src[..|src| - 1], c) + if InScan(src[|src| - 1], c) then [src[|src| - 1]] else []
  }

  // ---------------------------------------------------------------------------------------
  // A cycle.

  predicate Skipped(r: Rec, c: Cursor) { r.date == c.date && r.key in c.keys }

  function Wanted(stream: seq<Rec>, c: Cursor): seq<Rec> {
    if stream == [] then []
    else Wanted(stream[..|stream| - 1], c) + if Skipped(stream[|stream| - 1], c) then [] else [stream[|stream| - 1]]
  }

  /** The newest date at or after the cursor's, and the keys the stream has there. */
  function Boundary(stream: seq<Rec>, c: Cursor): Cursor {
    if stream == [] then Cursor(c.date, {})
    else
      var b := Boundary(stream[..|stream| - 1], c);
      var r := stream[|stream| - 1];
      if r.date > b.date then Cursor(r.date, {r.key})
      else if r.date == b.date then b.(keys := b.keys + {r.key})
      else b
  }

  /** How a cycle goes: complete, or cut short after so many appends, or at the flush or the cursor store. */
  datatype Fate = Completes | AppendFails(after: nat) | StoreFails

  datatype Importer = Importer(archive: seq<Rec>, cursor: Cursor)

  /** Nothing went wrong: no append was refused, and nothing had to be stored or it was. */
  predicate Finishes(stream: seq<Rec>, c: Cursor, fate: Fate) {
    match fate
    case Completes => true
    case AppendFails(n) => n >= |Wanted(stream, c)|
    case StoreFails => stream == []
  }

  function Cycle(im: Importer, stream: seq<Rec>, fate: Fate): Importer {
    var wanted := Wanted(stream, im.cursor);
    if Finishes(stream, im.cursor, fate) then
      Importer(im.archive + wanted, if stream == [] then im.cursor else Boundary(stream, im.cursor))
    else im.(archive := im.archive + if fate.AppendFails? then wanted[..fate.after] else wanted)
  }

  // ---------------------------------------------------------------------------------------
  // What a scan delivers.

  lemma {:induction false} ScanCount(src: seq<Rec>, c: Cursor, r: Rec)
    ensures multiset(Scan(src, c))[r] == if InScan(r, c) then multiset(src)[r] else 0
  {
    if src != [] {
      var n := |src| - 1;
      ScanCount(src[..n], c, r);
      assert src == src[..n] + [src[n]];
    }
  }

  lemma {:induction false} WantedCount(stream: seq<Rec>, c: Cursor, r: Rec)
    ensures multiset(Wanted(stream, c))[r] == if Skipped(r, c) then 0 else multiset(stream)[r]
  {
    if stream != [] {
      var n := |stream| - 1;
      WantedCount(stream[..n], c, r);
      assert stream == stream[..n] + [stream[n]];
    }
  }

  lemma {:induction false} BoundaryOf(stream: seq<Rec>, c: Cursor)
    ensures var b := Boundary(stream, c);
            && b.date >= c.date
            && (forall r :: r in stream ==> r.date <= b.date)
            && (forall k :: k in b.keys <==> exists r :: r in stream && r.date == b.date && r.key == k)
            && (b.date > c.date ==> exists r :: r in stream && r.date == b.date)
  {
    if stream != [] {
      var n := |stream| - 1;
      BoundaryOf(stream[..n], c);
      var b, b1 := Boundary(stream[..n], c), Boundary(stream, c);
      var last := stream[n];
      assert stream == stream[..n] + [last];
      forall k ensures k in b1.keys <==> exists r :: r in stream && r.date == b1.date && r.key == k {
        if k in b1.keys {
          if last.date >= b.date && k == last.key {
            assert last in stream;
          } else {
            var r :| r in stream[..n] && r.date == b.date && r.key == k;
            assert r in stream;
          }
        }
      }
      if b1.date > c.date && last.date <= b.date {
        var r :| r in stream[..n] && r.date == b.date;
        assert r in stream;
      } else {
        assert last in stream;
      }
    }
  }

  // ---------------------------------------------------------------------------------------
  // Over any interleaving of source appends and cycles.

  /** The cursor covers the first `seen` records of the source: its date is their newest, its keys are
      exactly theirs at that second. */
  ghost predicate Covers(c: Cursor, src: seq<Rec>, seen: nat) {
    && seen <= |src|
    && (seen == 0 ==> c == NO_CURSOR)
    && (seen > 0 ==> c.date == src[seen - 1].date)
    && (forall k :: k in c.keys <==> exists i :: 0 <= i < seen && src[i].date == c.date && src[i].key == k)
  }

  /** The archive holds the covered records once each, and beside them what unfinished cycles left. */
  ghost predicate Inv(im: Importer, src: seq<Rec>, seen: nat, waste: multiset<Rec>) {
    && Monotone(src) && Covers(im.cursor, src, seen)
    && multiset(im.archive) == multiset(src[..seen]) + waste
  }

  /** A stream is what a scan of the source gives, in any order. */
  ghost predicate Streams(stream: seq<Rec>, src: seq<Rec>, c: Cursor) { multiset(stream) == multiset(Scan(src, c)) }

  /** Skipped or before the scan: exactly the covered records. */
  lemma {:induction false} CoveredOrWanted(src: seq<Rec>, c: Cursor, seen: nat, i: nat)
    requires Monotone(src) && Covers(c, src, seen) && i < |src|
    ensures InScan(src[i], c) && !Skipped(src[i], c) <==> i >= seen
  {
    if i < seen {
      assert src[i].date <= src[seen - 1].date;
      if src[i].date == c.date { assert src[i].key in c.keys; }
    } else if seen > 0 {
      assert src[seen - 1].date <= src[i].date;
    }
  }

  lemma {:induction false} NewRecords(src: seq<Rec>, c: Cursor, seen: nat, stream: seq<Rec>)
    requires Monotone(src) && Covers(c, src, seen) && Streams(stream, src, c)
    ensures multiset(Wanted(stream, c)) == multiset(src[seen..])
  {
    hide Monotone, Covers;
    Bound(c, src, seen);
    forall r ensures multiset(Wanted(stream, c))[r] == multiset(src[seen..])[r] { NewCount(src, c, seen, stream, r); }
  }

  lemma {:induction false} NewCount(src: seq<Rec>, c: Cursor, seen: nat, stream: seq<Rec>, r: Rec)
    requires Monotone(src) && Covers(c, src, seen) && Streams(stream, src, c)
    ensures seen <= |src| && multiset(Wanted(stream, c))[r] == multiset(src[seen..])[r]
  {
    hide Monotone, Covers, InScan, Skipped, Wanted, Scan;
    WantedCount(stream, c, r);
    ScanCount(src, c, r);
    Side(src, c, seen, r);
    assert src == src[..seen] + src[seen..];
    assert multiset(src)[r] == multiset(src[..seen])[r] + multiset(src[seen..])[r];
  }

  lemma {:induction false} Bound(c: Cursor, src: seq<Rec>, seen: nat)
    requires Covers(c, src, seen)
    ensures seen <= |src|
  {
  }

  lemma {:induction false} Side(src: seq<Rec>, c: Cursor, seen: nat, r: Rec)
    requires Monotone(src) && Covers(c, src, seen)
    ensures seen <= |src|
    ensures InScan(r, c) && !Skipped(r, c) ==> r !in src[..seen]
    ensures !(InScan(r, c) && !Skipped(r, c)) ==> r !in src[seen..]
  {
    hide InScan, Skipped;
    if r in src[..seen] {
      var i :| 0 <= i < seen && src[i] == r;
      CoveredOrWanted(src, c, seen, i);
    }
    if r in src[seen..] {
      var i :| 0 <= i < |src[seen..]| && src[seen..][i] == r;
      CoveredOrWanted(src, c, seen, seen + i);
    }
  }

  lemma {:induction false} NewCursor(src: seq<Rec>, c: Cursor, seen: nat, stream: seq<Rec>)
    requires Monotone(src) && Covers(c, src, seen) && Streams(stream, src, c) && stream != []
    ensures Covers(Boundary(stream, c), src, |src|)
  {
    var b := Boundary(stream, c);
    BoundaryOf(stream, c);
    forall r ensures r in stream <==> r in src && InScan(r, c) {
      ScanCount(src, c, r);
      assert r in stream <==> multiset(stream)[r] > 0;
      assert r in src <==> multiset(src)[r] > 0;
    }
    var any := stream[0];
    assert any in stream;
    assert any in src;
    var n := |src| - 1;
    assert src[n] in src;
    assert InScan(src[n], c) by {
      var i :| 0 <= i < |src| && src[i] == any;
      assert src[i].date <= src[n].date;
    }
    assert src[n] in stream;
    assert b.date == src[n].date by {
      if b.date > c.date {
        var r :| r in stream && r.date == b.date;
        var i :| 0 <= i < |src| && src[i] == r;
        assert src[i].date <= src[n].date;
      }
    }
    forall k ensures k in b.keys <==> exists i :: 0 <= i < |src| && src[i].date == b.date && src[i].key == k {
      if k in b.keys {
        var r :| r in stream && r.date == b.date && r.key == k;
        var i :| 0 <= i < |src| && src[i] == r;
      }
      if i :| 0 <= i < |src| && src[i].date == b.date && src[i].key == k {
        assert src[i] in src;
        assert src[i] in stream;
      }
    }
  }

  /** A completed cycle brings the archive level with the source. */
  lemma {:induction false} CycleCompletes(im: Importer, src: seq<Rec>, seen: nat, waste: multiset<Rec>,
                                          stream: seq<Rec>,
                                          fate: Fate)
    requires Inv(im, src, seen, waste) && Streams(stream, src, im.cursor) && Finishes(stream, im.cursor, fate)
    ensures Inv(Cycle(im, stream, fate), src, |src|, waste)
  {
    hide Monotone, Covers, Boundary, Wanted;
    Bound(im.cursor, src, seen);
    NewRecords(src, im.cursor, seen, stream);
    assert src[..|src|] == src && src == src[..seen] + src[seen..];
    if stream == [] {
      EmptyScan(src, im.cursor, seen);
    } else {
      NewCursor(src, im.cursor, seen, stream);
    }
  }

  lemma {:induction false} EmptyScan(src: seq<Rec>, c: Cursor, seen: nat)
    requires Monotone(src) && Covers(c, src, seen) && Streams([], src, c)
    ensures Covers(c, src, |src|)
  {
    if src != [] {
      ScanHasLast(src, c, seen);
    }
  }

  lemma {:induction false} ScanHasLast(src: seq<Rec>, c: Cursor, seen: nat)
    requires Monotone(src) && Covers(c, src, seen) && src != []
    ensures Scan(src, c) != []
  {
    if seen > 0 { assert src[seen - 1].date <= src[|src| - 1].date; }
  }

  /** The records a cycle adds to the archive. */
  function Appended(im: Importer, stream: seq<Rec>, fate: Fate): seq<Rec> {
    Cycle(im, stream, fate).archive[|im.archive|..]
  }

  /** One that does not finish leaves the cursor, and what it appended is waste: the next will append it again. */
  lemma {:induction false} CycleFails(im: Importer, src: seq<Rec>, seen: nat, waste: multiset<Rec>, stream: seq<Rec>,
                                      fate: Fate)
    requires Inv(im, src, seen, waste) && !Finishes(stream, im.cursor, fate)
    ensures Inv(Cycle(im, stream, fate), src, seen, waste + multiset(Appended(im, stream, fate)))
  {
    hide Wanted;
    var next := Cycle(im, stream, fate);
    assert next.archive == im.archive + Appended(im, stream, fate);
  }

  lemma {:induction false} SourceGrows(im: Importer, src: seq<Rec>, seen: nat, waste: multiset<Rec>, more: seq<Rec>)
    requires Inv(im, src, seen, waste) && Monotone(src + more)
    ensures Inv(im, src + more, seen, waste)
  {
    assert (src + more)[..seen] == src[..seen];
    forall k ensures k in im.cursor.keys <==>
        exists i :: 0 <= i < seen && (src + more)[i].date == im.cursor.date && (src + more)[i].key == k {
      if i :| 0 <= i < seen && src[i].date == im.cursor.date && src[i].key == k { assert (src + more)[i] == src[i]; }
      if i :| 0 <= i < seen && (src + more)[i].date == im.cursor.date && (src + more)[i].key == k {
        assert (src + more)[i] == src[i];
      }
    }
  }

  datatype Event = Grows(more: seq<Rec>) | Runs(stream: seq<Rec>, fate: Fate)

  datatype Sys = Sys(im: Importer, src: seq<Rec>, seen: nat)

  function Next(sys: Sys, e: Event): Sys {
    match e
    case Grows(more) => sys.(src := sys.src + more)
    case Runs(stream, fate) =>
      var im := Cycle(sys.im, stream, fate);
      if Finishes(stream, sys.im.cursor, fate) then sys.(im := im, seen := |sys.src|) else sys.(im := im)
  }

  ghost predicate Allowed(sys: Sys, e: Event) {
    match e
    case Grows(more) => Monotone(sys.src + more)
    case Runs(stream, _) => Streams(stream, sys.src, sys.im.cursor)
  }

  ghost predicate ValidRun(sys: Sys, es: seq<Event>)
    decreases |es|
  {
    es == [] || (Allowed(sys, es[0]) && ValidRun(Next(sys, es[0]), es[1..]))
  }

  function Run(sys: Sys, es: seq<Event>): Sys
    decreases |es|
  {
    if es == [] then sys else Run(Next(sys, es[0]), es[1..])
  }

  /** What one event adds to the archive for nothing. */
  function WasteOf(sys: Sys, e: Event): multiset<Rec> {
    if e.Runs? && !Finishes(e.stream, sys.im.cursor, e.fate) then multiset(Appended(sys.im, e.stream, e.fate))
        else multiset{}
  }

  /** Everything the unfinished cycles of a run appended. */
  function Waste(sys: Sys, es: seq<Event>): multiset<Rec>
    decreases |es|
  {
    if es == [] then multiset{} else WasteOf(sys, es[0]) + Waste(Next(sys, es[0]), es[1..])
  }

  lemma {:induction false} RunInv(sys: Sys, es: seq<Event>, waste: multiset<Rec>)
    requires Inv(sys.im, sys.src, sys.seen, waste) && ValidRun(sys, es)
    ensures var t := Run(sys, es); Inv(t.im, t.src, t.seen, waste + Waste(sys, es))
    decreases |es|
  {
    hide Inv, Cycle, Finishes, Appended;
    if es != [] {
      match es[0] {
        case Grows(more) => SourceGrows(sys.im, sys.src, sys.seen, waste, more);
        case Runs(stream, fate) =>
          if Finishes(stream, sys.im.cursor, fate) {
            CycleCompletes(sys.im, sys.src, sys.seen, waste, stream, fate);
          } else {
            CycleFails(sys.im, sys.src, sys.seen, waste, stream, fate);
          }
      }
      var w := WasteOf(sys, es[0]);
      assert waste + multiset{} == waste;
      RunInv(Next(sys, es[0]), es[1..], waste + w);
      assert (waste + w) + Waste(Next(sys, es[0]), es[1..]) == waste + Waste(sys, es);
    } else {
      assert waste + multiset{} == waste;
    }
  }

  /** Every unfinished cycle of the run reported that it imported nothing. */
  predicate NothingWasted(sys: Sys, es: seq<Event>)
    decreases |es|
  {
    es == [] ||
    ((es[0].Runs? && !Finishes(es[0].stream, sys.im.cursor, es[0].fate) ==>
      Appended(sys.im, es[0].stream, es[0].fate) == [])
     && NothingWasted(Next(sys, es[0]), es[1..]))
  }

  lemma {:induction false} WasteNone(sys: Sys, es: seq<Event>)
    ensures Waste(sys, es) == multiset{} <==> NothingWasted(sys, es)
    decreases |es|
  {
    hide Next, Finishes, Appended;
    if es != [] {
      WasteNone(Next(sys, es[0]), es[1..]);
      if es[0].Runs? {
        var added := Appended(sys.im, es[0].stream, es[0].fate);
        assert added != [] ==> added[0] in multiset(added);
      }
      var w, rest := WasteOf(sys, es[0]), Waste(Next(sys, es[0]), es[1..]);
      assert forall r :: r in w ==> r in w + rest;
      assert forall r :: r in rest ==> r in w + rest;
    }
  }

  lemma {:induction false} RunSplit(sys: Sys, es: seq<Event>, e: Event)
    ensures Run(sys, es + [e]) == Next(Run(sys, es), e)
    ensures ValidRun(sys, es + [e]) <==> ValidRun(sys, es) && Allowed(Run(sys, es), e)
    decreases |es|
  {
    hide Next, Allowed;
    if es == [] {
      assert (es + [e])[1..] == [];
    } else {
      RunSplit(Next(sys, es[0]), es[1..], e);
      assert (es + [e])[1..] == es[1..] + [e];
    }
  }

  function Start(): Sys { Sys(Importer([], NO_CURSOR), [], 0) }

  /** After any interleaving of source appends and cycles, a cycle that finishes leaves in the archive each
      source record once, and beside them exactly what the unfinished cycles before it appended; so each is
      there exactly once if and only if none of those imported anything. */
  lemma {:induction false} ExactlyOnce(es: seq<Event>, stream: seq<Rec>, fate: Fate)
    requires ValidRun(Start(), es + [Runs(stream, fate)]) && Finishes(stream, Run(Start(), es).im.cursor, fate)
    ensures var t := Run(Start(), es + [Runs(stream, fate)]);
            && multiset(t.im.archive) == multiset(t.src) + Waste(Start(), es)
            && (multiset(t.im.archive) == multiset(t.src) <==> NothingWasted(Start(), es))
  {
    hide ValidRun, Run, Monotone, Covers, Finishes, Cycle, NothingWasted;
    var sys := Run(Start(), es);
    StartInv();
    RunSplit(Start(), es, Runs(stream, fate));
    RunInv(Start(), es, multiset{});
    var w := Waste(Start(), es);
    assert multiset{} + w == w;
    CycleCompletes(sys.im, sys.src, sys.seen, w, stream, fate);
    assert sys.src[..|sys.src|] == sys.src;
    WasteNone(Start(), es);
    Cancel(multiset(sys.src), w);
  }

  lemma {:induction false} Cancel(a: multiset<Rec>, w: multiset<Rec>)
    ensures a + w == a <==> w == multiset{}
  {
    if w != multiset{} {
      var r :| r in w;
      assert (a + w)[r] > a[r];
    }
  }

  lemma {:induction false} StartInv()
    ensures Inv(Start().im, [], 0, multiset{})
  {
  }

  /** A cycle that appended and then failed to store its cursor imports the record again. */
  lemma {:induction false} FailedStoreRepeats(r: Rec)
    requires r.date > 0
    ensures var once := Cycle(Importer([], NO_CURSOR), [r], StoreFails);
            Cycle(once, [r], Completes).archive == [r, r]
  {
    assert [r][..0] == [];
    assert Wanted([r], NO_CURSOR) == [r];
    assert [] + [r] + [r] == [r, r];
  }

  // ---------------------------------------------------------------------------------------
  // The callback.

  class Store {
    var archive: seq<Rec>
    var cursor: Cursor

    ghost function Im(): Importer
      reads this
    {
      Importer(archive, cursor)
    }

    constructor ()
      ensures Im() == Importer([], NO_CURSOR)
    {
      archive, cursor := [], NO_CURSOR;
    }

    /** importEpochSchedd over the stream the source delivers. */
    method Import(stream: seq<Rec>, fate: Fate) returns (imported: nat, ok: bool)
      modifies this
      ensures Im() == Cycle(old(Im()), stream, fate) && ok == Finishes(stream, old(cursor), fate)
      ensures imported == |archive| - |old(archive)|
    {
      var prev := cursor;
      var boundary := Cursor(prev.date, {});
      imported := 0;
      ghost var wanted := Wanted(stream, prev);
      for i := 0 to |stream|
        invariant boundary == Boundary(stream[..i], prev) && imported == |Wanted(stream[..i], prev)|
        invariant archive == old(archive) + Wanted(stream[..i], prev) && cursor == prev
        invariant imported <= |wanted| && Wanted(stream[..i], prev) == wanted[..imported]
        invariant fate.AppendFails? ==> imported <= fate.after
      {
        var r := stream[i];
        assert stream[..i + 1][..i] == stream[..i];
        WantedPrefix(stream, prev, i + 1);
        if r.date > boundary.date {
          boundary := Cursor(r.date, {r.key});
        } else if r.date == boundary.date {
          boundary := boundary.(keys := boundary.keys + {r.key});
        }
        if !(r.date == prev.date && r.key in prev.keys) {
          if fate.AppendFails? && imported == fate.after {
            return imported, false;
          }
          archive := archive + [r];
          imported := imported + 1;
        }
      }
      assert stream[..|stream|] == stream;
      if stream != [] {
        if fate.StoreFails? {
          return imported, false;
        }
        cursor := boundary;
      }
      ok := true;
    }
  }

  lemma {:induction false} WantedPrefix(stream: seq<Rec>, c: Cursor, i: nat)
    requires i <= |stream|
    ensures |Wanted(stream[..i], c)| <= |Wanted(stream, c)| &&
            Wanted(stream[..i], c) == Wanted(stream, c)[..|Wanted(stream[..i], c)|]
    decreases |stream|
  {
    if i < |stream| {
      WantedPrefix(stream[..|stream| - 1], c, i);
      assert stream[..|stream| - 1][..i] == stream[..i];
    } else {
      assert stream[..i] == stream;
    }
  }
}
