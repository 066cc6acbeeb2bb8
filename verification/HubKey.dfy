/** Storage keys of the hub's mutable tables (federate/identity.go). */
module HubKey {
  import opened Text

  /** The key of source key k from schedd s: the folded name's length, the name, the key. */
  function Key(schedd: string, sourceKey: string): string {
    Itoa(|Fold(schedd)|) + ":" + Fold(schedd) + ":" + sourceKey
  }

  /** Two strings with a colon after a digits-only part have the same digits and the same rest. */
  lemma {:induction false} ColonSplit(d1: string, r1: string, d2: string, r2: string)
    requires forall i :: 0 <= i < |d1| ==> IsDigit(d1[i])
    requires forall i :: 0 <= i < |d2| ==> IsDigit(d2[i])
    requires d1 + ":" + r1 == d2 + ":" + r2
    ensures d1 == d2 && r1 == r2
  {
    var a, b := d1 + ":" + r1, d2 + ":" + r2;
    assert a[|d1|] == ':' && b[|d2|] == ':';
    assert forall i :: 0 <= i < |d1| ==> a[i] == d1[i] && a[i] != ':';
    assert forall i :: 0 <= i < |d2| ==> b[i] == d2[i] && b[i] != ':';
    assert |d1| == |d2|;
    assert a[..|d1|] == d1 && b[..|d2|] == d2;
    assert a[|d1| + 1..] == r1 && b[|d2| + 1..] == r2;
  }

  /** Keys collide only for one schedd (in any spelling) and one source key. */
  lemma {:induction false} Injective(s1: string, k1: string, s2: string, k2: string)
    ensures Key(s1, k1) == Key(s2, k2) <==> EqualFold(s1, s2) && k1 == k2
  {
    if Key(s1, k1) == Key(s2, k2) {
      hide Fold;
      var f1, f2 := Fold(s1), Fold(s2);
      var r1, r2 := f1 + ":" + k1, f2 + ":" + k2;
      assert Key(s1, k1) == Itoa(|f1|) + ":" + r1 && Key(s2, k2) == Itoa(|f2|) + ":" + r2;
      ColonSplit(Itoa(|f1|), r1, Itoa(|f2|), r2);
      AtoiItoa(|f1|);
      AtoiItoa(|f2|);
      assert r1[..|f1|] == f1 && r2[..|f2|] == f2;
      assert r1[|f1| + 1..] == k1 && r2[|f2| + 1..] == k2;
    }
  }
}
