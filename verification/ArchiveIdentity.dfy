/** Archive identities (federate/identity.go): the exact probe and the digest that replaces it in a large
    catch-up must pick out the same records. */
module ArchiveIdentity {
  import opened Text
  import F = Framing

  /** An attribute's value, as far as identities read them. */
  datatype Value = Undefined | Error | IntV(i: int) | StrV(s: string)

  datatype Part = Part(attr: string, integer: bool, required: bool)

  datatype IdVal = Unset | IntId(i: int) | StrId(s: string)

  /** A record by its attributes; one it lacks evaluates to undefined. */
  type Record = map<string, Value>

  function Get(r: Record, attr: string): Value { if attr in r then r[attr] else Undefined }

  const HISTORY: seq<Part> := [Part("GlobalJobId", false, true)]
  const EPOCH: seq<Part> := [Part("GlobalJobId", false, true), Part("RunInstanceID", true, true),
                             Part("EpochAdType", false, false)]
  const METRICS: seq<Part> := [Part("Key", false, true), Part("RunInstanceID", true, true),
                               Part("SampleTime", true, true), Part("SampleTrigger", false, false),
                               Part("LogSeq", true, false), Part("LogOffset", true, false)]

  // ---------------------------------------------------------------------------------------
  // Extraction.

  function PartValue(p: Part, v: Value): IdVal {
    if p.integer then (if v.IntV? then IntId(v.i) else Unset)
    else if v.StrV? && v.s != "" then StrId(v.s) else Unset
  }

  predicate HasRequired(spec: seq<Part>, r: Record) {
    forall k :: 0 <= k < |spec| && spec[k].required ==> PartValue(spec[k], Get(r, spec[k].attr)) != Unset
  }

  function PartValues(spec: seq<Part>, r: Record): (vals: seq<IdVal>)
    ensures |vals| == |spec|
  {
    seq(|spec|, k requires 0 <= k < |spec| => PartValue(spec[k], Get(r, spec[k].attr)))
  }

  /** archiveIdentity: None when the record lacks a part it needs, or the table has no identity. */
  function Identity(spec: seq<Part>, r: Record): Option<seq<IdVal>> {
    if HasRequired(spec, r) && spec != [] then Some(PartValues(spec, r)) else None
  }

  method ExtractIdentity(spec: seq<Part>, r: Record) returns (id: Option<seq<IdVal>>)
    ensures id == Identity(spec, r)
  {
    var vals := [];
    for k := 0 to |spec|
      invariant |vals| == k
      invariant forall j :: 0 <= j < k ==> vals[j] == PartValue(spec[j], Get(r, spec[j].attr))
      invariant forall j :: 0 <= j < k && spec[j].required ==> vals[j] != Unset
    {
      var v := PartValue(spec[k], Get(r, spec[k].attr));
      if v == Unset && spec[k].required {
        return None;
      }
      vals := vals + [v];
    }
    assert vals == PartValues(spec, r);
    id := if |spec| > 0 then Some(vals) else None;
  }

  /** What extraction can yield: a kind per part, and every required part set. */
  predicate IsIdentity(spec: seq<Part>, id: seq<IdVal>) {
    && |id| == |spec| > 0
    && forall k :: 0 <= k < |spec| ==>
         && (spec[k].required ==> id[k] != Unset)
         && (spec[k].integer ==> !id[k].StrId?)
         && (!spec[k].integer ==> !id[k].IntId? && (id[k].StrId? ==> id[k].s != ""))
  }

  lemma {:induction false} ExtractedIsIdentity(spec: seq<Part>, r: Record)
    requires Identity(spec, r).Some?
    ensures IsIdentity(spec, Identity(spec, r).value)
  {
  }

  // ---------------------------------------------------------------------------------------
  // The probe: the constraint's conjunct for one part, on one held record.

  predicate PartAdmits(id: IdVal, p: Part, held: Value) {
    match id
    case IntId(i) => held == IntV(i)
    case StrId(s) => held.StrV? && EqualFold(held.s, s)
    case Unset => if p.integer then held == Undefined else held == Undefined || held == StrV("")
  }

  predicate ProbeAdmits(spec: seq<Part>, id: seq<IdVal>, held: Record)
    requires |id| == |spec|
  {
    forall k :: 0 <= k < |spec| ==> PartAdmits(id[k], spec[k], Get(held, spec[k].attr))
  }

  // ---------------------------------------------------------------------------------------
  // The digest: what is hashed.

  const TWO63: int := 0x8000_0000_0000_0000

  function Eight(n: nat): (b: seq<int>)
    ensures |b| == 8
  {
    F.Little(n, 8)
  }

  function Chars(s: string): (b: seq<int>)
    ensures |b| == |s|
  {
    seq(|s|, k requires 0 <= k < |s| => s[k] as int)
  }

  function PartBytes(p: Part, v: IdVal): seq<int> {
    match v
    case IntId(i) => [1] + Eight(i % F.TWO64)
    case StrId(s) => Eight(|s|) + Chars(Fold(s))
    case Unset => if p.integer then [0] else Eight(0)
  }

  function DigestBytes(spec: seq<Part>, id: seq<IdVal>): seq<int>
    requires |id| == |spec|
  {
    if spec == [] then [] else PartBytes(spec[0], id[0]) + DigestBytes(spec[1..], id[1..])
  }

  /** Machine values: 64-bit integers, and strings whose length a machine can hold. */
  predicate Machine(v: IdVal) {
    match v
    case IntId(i) => -TWO63 <= i < TWO63
    case StrId(s) => |s| < F.TWO64
    case Unset => true
  }

  predicate Same(a: IdVal, b: IdVal) {
    match a
    case StrId(s) => b.StrId? && EqualFold(s, b.s)
    case _ => a == b
  }

  lemma {:induction false} EightInjective(m: nat, n: nat)
    requires m < F.TWO64 && n < F.TWO64 && Eight(m) == Eight(n)
    ensures m == n
  {
    hide F.Little;
    F.LittleBack(m, 8);
    F.LittleBack(n, 8);
    F.Powers();
  }

  lemma {:induction false} IntInjective(i: int, j: int)
    requires -TWO63 <= i < TWO63 && -TWO63 <= j < TWO63 && i % F.TWO64 == j % F.TWO64
    ensures i == j
  {
  }

  lemma {:induction false} CharsInjective(a: string, b: string)
    requires Chars(a) == Chars(b)
    ensures a == b
  {
    forall k | 0 <= k < |a| ensures a[k] == b[k] { assert Chars(a)[k] == Chars(b)[k]; }
  }

  /** Two parts' bytes, each followed by anything, are equal only if the parts are the same. */
  lemma {:induction false} PartInjective(p: Part, a: IdVal, b: IdVal, x: seq<int>, y: seq<int>)
    requires Machine(a) && Machine(b)
    requires if p.integer then !a.StrId? && !b.StrId? else !a.IntId? && !b.IntId?
    requires (a.StrId? ==> a.s != "") && (b.StrId? ==> b.s != "")
    requires PartBytes(p, a) + x == PartBytes(p, b) + y
    ensures Same(a, b) && x == y
  {
    hide F.Little, Fold, Chars, Eight;
    var l, r := PartBytes(p, a) + x, PartBytes(p, b) + y;
    if p.integer {
      assert l[0] == r[0];
      if a.IntId? {
        assert l[1..9] == Eight(a.i % F.TWO64) && r[1..9] == Eight(b.i % F.TWO64);
        EightInjective(a.i % F.TWO64, b.i % F.TWO64);
        IntInjective(a.i, b.i);
        assert l[9..] == x && r[9..] == y;
      } else {
        assert l[1..] == x && r[1..] == y;
      }
    } else {
      StringParts(a, b, x, y, l, r);
    }
  }

  function TextOf(v: IdVal): string { if v.StrId? then v.s else "" }

  lemma {:induction false} StringParts(a: IdVal, b: IdVal, x: seq<int>, y: seq<int>, l: seq<int>, r: seq<int>)
    requires Machine(a) && Machine(b) && !a.IntId? && !b.IntId? && (a.StrId? ==> a.s != "") && (b.StrId? ==> b.s != "")
    requires l == Eight(|TextOf(a)|) + (if a.StrId? then Chars(Fold(a.s)) else []) + x
    requires r == Eight(|TextOf(b)|) + (if b.StrId? then Chars(Fold(b.s)) else []) + y
    requires l == r
    ensures Same(a, b) && x == y
  {
    hide F.Little, Fold, Chars, Eight;
    assert l[..8] == Eight(|TextOf(a)|) && r[..8] == Eight(|TextOf(b)|);
    EightInjective(|TextOf(a)|, |TextOf(b)|);
    var n := |TextOf(a)|;
    assert l[8 + n..] == x && r[8 + n..] == y;
    if n > 0 {
      assert l[8..8 + n] == Chars(Fold(a.s)) && r[8..8 + n] == Chars(Fold(b.s));
      CharsInjective(Fold(a.s), Fold(b.s));
    }
  }

  predicate SameIdentity(a: seq<IdVal>, b: seq<IdVal>) { |a| == |b| && forall k :: 0 <= k < |a| ==> Same(a[k], b[k]) }

  predicate MachineId(id: seq<IdVal>) { forall k :: 0 <= k < |id| ==> Machine(id[k]) }

  lemma {:induction false} BytesInjective(spec: seq<Part>, a: seq<IdVal>, b: seq<IdVal>)
    requires |a| == |b| == |spec| && MachineId(a) && MachineId(b)
    requires spec != [] ==> IsIdentity(spec, a) && IsIdentity(spec, b)
    requires DigestBytes(spec, a) == DigestBytes(spec, b)
    ensures SameIdentity(a, b)
  {
    hide PartBytes, Machine, Same;
    if spec != [] {
      PartInjective(spec[0], a[0], b[0], DigestBytes(spec[1..], a[1..]), DigestBytes(spec[1..], b[1..]));
      BytesInjective(spec[1..], a[1..], b[1..]);
      assert forall k :: 0 < k < |a| ==> a[k] == a[1..][k - 1] && b[k] == b[1..][k - 1];
    }
  }

  lemma {:induction false} SameBytes(spec: seq<Part>, a: seq<IdVal>, b: seq<IdVal>)
    requires |a| == |b| == |spec| && SameIdentity(a, b)
    ensures DigestBytes(spec, a) == DigestBytes(spec, b)
  {
    hide Eight, Chars, Fold;
    if spec != [] {
      assert SameIdentity(a[1..], b[1..]);
      SameBytes(spec[1..], a[1..], b[1..]);
      assert Same(a[0], b[0]);
      PartSame(spec[0], a[0], b[0]);
    }
  }

  lemma {:induction false} PartSame(p: Part, a: IdVal, b: IdVal)
    requires Same(a, b)
    ensures PartBytes(p, a) == PartBytes(p, b)
  {
    hide Eight, Chars, Fold;
    if a.StrId? {
      assert |Fold(a.s)| == |Fold(b.s)|;
    }
  }

  /** What is hashed decides the identity up to case, and the other way round: parts cannot run together. */
  lemma {:induction false} DigestExact(spec: seq<Part>, a: seq<IdVal>, b: seq<IdVal>)
    requires IsIdentity(spec, a) && IsIdentity(spec, b) && MachineId(a) && MachineId(b)
    ensures DigestBytes(spec, a) == DigestBytes(spec, b) <==> SameIdentity(a, b)
  {
    hide DigestBytes, MachineId;
    if SameIdentity(a, b) {
      SameBytes(spec, a, b);
    } else if DigestBytes(spec, a) == DigestBytes(spec, b) {
      BytesInjective(spec, a, b);
    }
  }

  // ---------------------------------------------------------------------------------------
  // Probe against digest.

  /** The loaded set counts the held record under this identity. */
  predicate SetCounts(spec: seq<Part>, id: seq<IdVal>, held: Record) {
    Identity(spec, held).Some? && SameIdentity(Identity(spec, held).value, id)
  }

  /** An optional part holding neither nothing nor a value of its own type. */
  predicate Odd(p: Part, v: Value) {
    !p.required && (if p.integer then v == Error || v.StrV? else v == Error || v.IntV?)
  }

  predicate HasOdd(spec: seq<Part>, held: Record) {
    exists k :: 0 <= k < |spec| && Odd(spec[k], Get(held, spec[k].attr))
  }

  lemma {:induction false} PartAgrees(p: Part, id: IdVal, held: Value)
    requires (p.integer ==> !id.StrId?) && (!p.integer ==> !id.IntId? && (id.StrId? ==> id.s != ""))
    requires p.required ==> id != Unset
    requires !Odd(p, held) || (p.required && PartValue(p, held) == Unset)
    ensures PartAdmits(id, p, held) <==> Same(PartValue(p, held), id) && (p.required ==> PartValue(p, held) != Unset)
  {
    hide Fold;
    FoldEmpty(id);
  }

  lemma {:induction false} FoldEmpty(id: IdVal)
    ensures id.StrId? && id.s != "" ==> Fold(id.s) != Fold("")
  {
    if id.StrId? { assert |Fold(id.s)| == |id.s|; }
  }

  lemma {:induction false} RecordAgrees(spec: seq<Part>, id: seq<IdVal>, held: Record)
    requires IsIdentity(spec, id) && !HasOdd(spec, held)
    ensures ProbeAdmits(spec, id, held) <==> SetCounts(spec, id, held)
  {
    hide Fold, PartAdmits, PartValue, Odd, Same;
    forall k | 0 <= k < |spec|
      ensures var p, v := spec[k], Get(held, spec[k].attr);
              PartAdmits(id[k], p, v) <==> Same(PartValue(p, v), id[k]) && (p.required ==> PartValue(p, v) != Unset)
    {
      PartAgrees(spec[k], id[k], Get(held, spec[k].attr));
    }
    var vals := PartValues(spec, held);
    if ProbeAdmits(spec, id, held) {
      assert HasRequired(spec, held);
      assert SameIdentity(vals, id);
    }
    if SetCounts(spec, id, held) {
      forall k | 0 <= k < |spec| ensures PartAdmits(id[k], spec[k], Get(held, spec[k].attr)) {
        assert Same(vals[k], id[k]);
      }
    }
  }

  lemma {:induction false} SameSelf(id: seq<IdVal>)
    ensures SameIdentity(id, id)
  {
  }

  /** The probe and the loaded set agree on a held record, for every identity, exactly when the record
      lacks a required part or every optional part it holds is of its own type. */
  lemma {:induction false} ProbeIsSetIff(spec: seq<Part>, held: Record)
    requires spec != []
    ensures (forall id :: IsIdentity(spec, id) ==> (ProbeAdmits(spec, id, held) <==> SetCounts(spec, id, held)))
            <==> !(HasRequired(spec, held) && HasOdd(spec, held))
  {
    hide Fold, PartAdmits, PartValue, Odd, Same;
    if HasRequired(spec, held) && HasOdd(spec, held) {
      var id := PartValues(spec, held);
      ExtractedIsIdentity(spec, held);
      SameSelf(id);
      assert SetCounts(spec, id, held);
      var k :| 0 <= k < |spec| && Odd(spec[k], Get(held, spec[k].attr));
      OddSplits(spec[k], Get(held, spec[k].attr));
      assert !ProbeAdmits(spec, id, held);
    } else {
      forall id | IsIdentity(spec, id) ensures ProbeAdmits(spec, id, held) <==> SetCounts(spec, id, held) {
        if !HasOdd(spec, held) {
          RecordAgrees(spec, id, held);
        } else {
          MissingAgrees(spec, id, held);
        }
      }
    }
  }

  lemma {:induction false} OddSplits(p: Part, v: Value)
    requires Odd(p, v)
    ensures !PartAdmits(PartValue(p, v), p, v)
  {
  }

  lemma {:induction false} MissingAgrees(spec: seq<Part>, id: seq<IdVal>, held: Record)
    requires IsIdentity(spec, id) && !HasRequired(spec, held)
    ensures !ProbeAdmits(spec, id, held) && !SetCounts(spec, id, held)
  {
    hide Fold, PartAdmits, PartValue, Odd;
    var k :| 0 <= k < |spec| && spec[k].required && PartValue(spec[k], Get(held, spec[k].attr)) == Unset;
    NoOddRequired(spec[k], Get(held, spec[k].attr));
    PartAgrees(spec[k], id[k], Get(held, spec[k].attr));
  }

  lemma {:induction false} NoOddRequired(p: Part, v: Value)
    requires p.required
    ensures !Odd(p, v)
  {
  }

  /** A job epoch whose EpochAdType is a number is in the loaded set but not in the probe's answer. */
  lemma {:induction false} EpochDiffers()
    ensures var held: Record := map["GlobalJobId" := StrV("ap#1.0"), "RunInstanceID" := IntV(1),
                                    "EpochAdType" := IntV(5)];
            var id := [StrId("ap#1.0"), IntId(1), Unset];
            Identity(EPOCH, held) == Some(id) && SetCounts(EPOCH, id, held) && !ProbeAdmits(EPOCH, id, held)
  {
    hide Fold;
    var held: Record := map["GlobalJobId" := StrV("ap#1.0"), "RunInstanceID" := IntV(1), "EpochAdType" := IntV(5)];
    var id := [StrId("ap#1.0"), IntId(1), Unset];
    assert PartValues(EPOCH, held) == id;
    SameSelf(id);
    assert !PartAdmits(id[2], EPOCH[2], Get(held, EPOCH[2].attr));
  }

  /** A history record has no optional part, so its probe and its set never disagree. */
  lemma {:induction false} HistoryAgrees(id: seq<IdVal>, held: Record)
    requires IsIdentity(HISTORY, id)
    ensures ProbeAdmits(HISTORY, id, held) <==> SetCounts(HISTORY, id, held)
  {
    ProbeIsSetIff(HISTORY, held);
  }

  /** A job metrics sample whose LogSeq is text is in the loaded set but not in the probe's answer. */
  lemma {:induction false} MetricsDiffers()
    ensures var held: Record := map["Key" := StrV("1.0"), "RunInstanceID" := IntV(1), "SampleTime" := IntV(9),
                                    "LogSeq" := StrV("a")];
            var id := [StrId("1.0"), IntId(1), IntId(9), Unset, Unset, Unset];
            Identity(METRICS, held) == Some(id) && SetCounts(METRICS, id, held) && !ProbeAdmits(METRICS, id, held)
  {
    hide Fold;
    var held: Record := map["Key" := StrV("1.0"), "RunInstanceID" := IntV(1), "SampleTime" := IntV(9),
                            "LogSeq" := StrV("a")];
    var id := [StrId("1.0"), IntId(1), IntId(9), Unset, Unset, Unset];
    assert PartValues(METRICS, held) == id;
    SameSelf(id);
    assert !PartAdmits(id[4], METRICS[4], Get(held, METRICS[4].attr));
  }
}
