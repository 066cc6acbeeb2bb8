/** appendWireRecord with a projector (capi/queuerow.go): the ad is walked until no emitted expression
    names anything new. */
module WireRecord {
  import opened Text
  import opened WireProjection

  function AttrKeys(ad: seq<Attribute>): set<string> { set a | a in ad :: Fold(a.name) }

  /** Every name some expression of the ad refers to. */
  function AllRefs(ad: seq<Attribute>): set<string> { set a, r | a in ad && r in a.node.refs :: Fold(r) }

  // ---------------------------------------------------------------------------------------
  // What each step keeps. `wanted` is the projector's set.

  /** Sent attributes are usable, rendered, sent once, and their references are wanted. */
  ghost predicate Sent(ad: seq<Attribute>, priv: Keys, usable: set<string>, wanted: set<string>, out: seq<Attribute>) {
    && CaseDistinct(out)
    && (forall k :: 0 <= k < |out| ==> out[k] in ad && out[k].node.text.Some? && Fold(out[k].name) in usable)
    && (forall k, r :: 0 <= k < |out| && r in KeysOf(out[k].node.refs) ==> priv(r) || r in wanted)
  }

  /** Whatever is wanted and usable has to be sent. */
  ghost predicate Needed(ad: seq<Attribute>, names: seq<string>, usable: set<string>, wanted: set<string>) {
    InEveryClosed(ad, names, usable, wanted * usable)
  }

  lemma {:induction false} NeededFirst(ad: seq<Attribute>, names: seq<string>, usable: set<string>)
    ensures Needed(ad, names, usable, Roots(names))
  {
    hide Fold, KeysOf, Roots;
  }

  lemma {:induction false} NeededRefs(ad: seq<Attribute>, names: seq<string>, usable: set<string>, wanted: set<string>,
                                      a: Attribute,
                                      more: set<string>)
    requires Needed(ad, names, usable, wanted) && a in ad && Fold(a.name) in wanted * usable &&
             more <= KeysOf(a.node.refs)
    ensures Needed(ad, names, usable, wanted + more)
  {
    hide Fold, KeysOf, Roots;
    forall C: set<string> | Closed(ad, names, usable, C) ensures (wanted + more) * usable <= C {
      assert wanted * usable <= C;
    }
  }

  lemma {:induction false} SentMore(ad: seq<Attribute>, priv: Keys, usable: set<string>, wanted: set<string>,
                                    out: seq<Attribute>, a: Attribute,
                                    more: set<string>)
    requires Sent(ad, priv, usable, wanted, out) && a in ad && a.node.text.Some? && Fold(a.name) in usable &&
             Fold(a.name) !in AttrKeys(out)
    requires forall r :: r in KeysOf(a.node.refs) ==> priv(r) || r in wanted + more
    ensures Sent(ad, priv, usable, wanted + more, out + [a]) && AttrKeys(out + [a]) == AttrKeys(out) + {Fold(a.name)}
  {
    hide Fold, KeysOf;
    forall k | 0 <= k < |out| ensures Fold(out[k].name) in AttrKeys(out) { assert out[k] in out; }
  }

  /** A pass that wanted nothing new leaves the least closed set sent. */
  lemma {:induction false} PassCloses(ad: seq<Attribute>, names: seq<string>, priv: Keys, suppress: seq<string>,
                                      wanted: set<string>, out: seq<Attribute>)
    requires CaseDistinct(ad) && Roots(names) <= wanted
    requires var usable := Usable(ad, priv, suppress);
             Sent(ad, priv, usable, wanted, out) && Needed(ad, names, usable, wanted)
    requires AttrKeys(out) <= wanted
    requires forall i ::
               0 <= i < |ad| && Fold(ad[i].name) in Usable(ad, priv, suppress) && Fold(ad[i].name) in wanted ==>
                 Fold(ad[i].name) in AttrKeys(out)
    ensures LeastClosed(ad, names, Usable(ad, priv, suppress), AttrKeys(out)) &&
            AttrKeys(out) <= Usable(ad, priv, suppress)
  {
    hide Fold, KeysOf, Roots;
    var usable := Usable(ad, priv, suppress);
    var S := AttrKeys(out);
    forall key | key in usable && key in wanted ensures key in S {
      var a :| a in ad && Fold(a.name) == key;
      var i :| 0 <= i < |ad| && ad[i] == a;
    }
    assert Closed(ad, names, usable, S) by {
      forall a, r | a in ad && Fold(a.name) in usable && Fold(a.name) in S && r in KeysOf(a.node.refs) &&
          r in usable ensures r in S {
        var b :| b in out && Fold(b.name) == Fold(a.name);
        SameAttribute(ad, a, b);
        var k :| 0 <= k < |out| && out[k] == b;
        UsablePublic(ad, priv, suppress, r);
      }
    }
    assert S <= wanted * usable;
  }

  lemma {:induction false} SameAttribute(ad: seq<Attribute>, a: Attribute, b: Attribute)
    requires CaseDistinct(ad) && a in ad && b in ad && Fold(a.name) == Fold(b.name)
    ensures a == b
  {
    hide Fold;
    var i :| 0 <= i < |ad| && ad[i] == a;
    var j :| 0 <= j < |ad| && ad[j] == b;
  }

  lemma {:induction false} UsablePublic(ad: seq<Attribute>, priv: Keys, suppress: seq<string>, r: string)
    requires r in Usable(ad, priv, suppress)
    ensures !priv(r)
  {
    hide Fold;
  }

  lemma {:induction false} RefsOfAd(ad: seq<Attribute>, a: Attribute)
    requires a in ad
    ensures KeysOf(a.node.refs) <= AllRefs(ad)
  {
    hide Fold;
  }

  lemma {:induction false} InUsable(ad: seq<Attribute>, priv: Keys, suppress: seq<string>, i: nat)
    requires i < |ad| && CaseDistinct(ad)
    ensures Fold(ad[i].name) in Usable(ad, priv, suppress) <==> !Hidden(Fold(ad[i].name), priv, suppress)
  {
    hide Fold, KeysOf;
    assert ad[i] in ad;
  }

  // ---------------------------------------------------------------------------------------
  // The walk.

  function Public(keys: set<string>, priv: Keys): set<string> { set k | k in keys && !priv(k) }

  /** The references of one emitted expression; says whether any was new. */
  method NoteRefs(p: WireProjector, refs: seq<string>, priv: Keys) returns (again: bool)
    requires p.Valid()
    modifies p
    ensures p.Valid() && p.emitted == old(p.emitted)
    ensures p.Wanted() == old(p.Wanted()) + Public(KeysOf(refs), priv)
    ensures KeysOf(p.refNames) <= old(KeysOf(p.refNames)) + KeysOf(refs)
    ensures old(KeysOf(p.refNames)) <= KeysOf(p.refNames)
    ensures again == (KeysOf(p.refNames) != old(KeysOf(p.refNames))) && (!again ==> p.Wanted() == old(p.Wanted()))
  {
    hide Fold, KeysOf, p.Valid, Public;
    again := false;
    assert refs[..0] == [];
    NoKeys();
    for i := 0 to |refs|
      invariant p.Valid() && p.emitted == old(p.emitted)
      invariant p.Wanted() == old(p.Wanted()) + Public(KeysOf(refs[..i]), priv)
      invariant KeysOf(p.refNames) <= old(KeysOf(p.refNames)) + KeysOf(refs[..i])
      invariant old(KeysOf(p.refNames)) <= KeysOf(p.refNames)
      invariant again == (KeysOf(p.refNames) != old(KeysOf(p.refNames)))
    {
      assert refs[..i + 1] == refs[..i] + [refs[i]];
      KeysSnoc(refs[..i], refs[i]);
      KeysSnoc(p.refNames, refs[i]);
      PublicSnoc(KeysOf(refs[..i]), Fold(refs[i]), priv);
      assert p.refNames + [] == p.refNames;
      var isNew := p.NoteRef(refs[i], priv);
      if isNew {
        again := true;
      }
    }
    assert refs[..|refs|] == refs;
  }

  lemma {:induction false} NoKeys()
    ensures KeysOf([]) == {} && forall priv: Keys :: Public({}, priv) == {}
  {
  }

  lemma {:induction false} PublicSnoc(keys: set<string>, k: string, priv: Keys)
    ensures Public(keys + {k}, priv) == Public(keys, priv) + if priv(k) then {} else {k}
  {
  }

  /** One pass of appendWireRecord over the ad; good is false if a wanted expression did not render. */
  method Walk(p: WireProjector, ad: seq<Attribute>, priv: Keys, suppress: seq<string>, sofar: seq<Attribute>)
    returns (out: seq<Attribute>, again: bool, good: bool)
    requires p.Valid() && CaseDistinct(ad) && p.emitted == AttrKeys(sofar)
    requires var usable := Usable(ad, priv, suppress);
             Sent(ad, priv, usable, p.Wanted(), sofar) && Needed(ad, p.names, usable, p.Wanted())
    requires KeysOf(p.refNames) <= AllRefs(ad)
    modifies p
    ensures p.Valid() && KeysOf(p.refNames) <= AllRefs(ad) && old(KeysOf(p.refNames)) <= KeysOf(p.refNames)
    ensures again <==> KeysOf(p.refNames) != old(KeysOf(p.refNames))
    ensures good ==>
              var usable := Usable(ad, priv, suppress);
              p.emitted == AttrKeys(out) && Sent(ad, priv, usable, p.Wanted(), out) &&
                  Needed(ad, p.names, usable, p.Wanted())
    ensures good && !again ==>
              forall i ::
                0 <= i < |ad| && Fold(ad[i].name) in Usable(ad, priv, suppress) && Fold(ad[i].name) in p.Wanted() ==>
                  Fold(ad[i].name) in AttrKeys(out)
    ensures !good ==> Unrenderable(ad, p.names, Usable(ad, priv, suppress))
  {
    hide Fold, KeysOf, Usable, Needed, Sent, p.Valid, Roots, AttrKeys, CaseDistinct, Hidden, AllRefs;
    ghost var usable := Usable(ad, priv, suppress);
    ghost var wanted := p.Wanted();
    out, again, good := sofar, false, true;
    for i := 0 to |ad|
      invariant p.Valid() && p.emitted == AttrKeys(out) && wanted <= p.Wanted()
      invariant Sent(ad, priv, usable, p.Wanted(), out) && Needed(ad, p.names, usable, p.Wanted())
      invariant KeysOf(p.refNames) <= AllRefs(ad) && old(KeysOf(p.refNames)) <= KeysOf(p.refNames)
      invariant again <==> KeysOf(p.refNames) != old(KeysOf(p.refNames))
      invariant !again ==> p.Wanted() == wanted
      invariant forall j :: 0 <= j < i && Fold(ad[j].name) in usable && Fold(ad[j].name) in wanted ==>
                Fold(ad[j].name) in AttrKeys(out)
    {
      var a := ad[i];
      InUsable(ad, priv, suppress, i);
      var key := Fold(a.name);
      if !Hidden(key, priv, suppress) {
        var w := p.Want(a.name);
        if w {
          if a.node.text.None? {
            WantedFails(ad, p.names, usable, p.Wanted(), a);
            return out, again, false;
          }
          ghost var before := p.Wanted();
          var grew := NoteRefs(p, a.node.refs, priv);
          again := again || grew;
          PublicRefs(a.node.refs, priv);
          ghost var more := Public(KeysOf(a.node.refs), priv);
          SentMore(ad, priv, usable, before, out, a, more);
          NeededRefs(ad, p.names, usable, before, a, more);
          RefsOfAd(ad, a);
          out := out + [a];
        }
      }
    }
  }

  /** Some expression that has to be sent does not render. */
  ghost predicate Unrenderable(ad: seq<Attribute>, names: seq<string>, usable: set<string>) {
    exists a :: a in ad && a.node.text.None? && Fold(a.name) in usable &&
        InEveryClosed(ad, names, usable, {Fold(a.name)})
  }

  lemma {:induction false} WantedFails(ad: seq<Attribute>, names: seq<string>, usable: set<string>, wanted: set<string>,
                                       a: Attribute)
    requires Needed(ad, names, usable, wanted) && a in ad && a.node.text.None? && Fold(a.name) in wanted * usable
    ensures Unrenderable(ad, names, usable)
  {
    hide Fold, Closed;
    assert InEveryClosed(ad, names, usable, {Fold(a.name)});
  }

  lemma {:induction false} PublicRefs(refs: seq<string>, priv: Keys)
    ensures forall r :: r in KeysOf(refs) ==> priv(r) || r in Public(KeysOf(refs), priv)
    ensures Public(KeysOf(refs), priv) <= KeysOf(refs)
  {
    hide KeysOf;
  }

  /** The passes of appendWireRecord: what is sent is, once each, exactly the attributes of the least set
      that holds the projected names and the types and is closed under reference, never through a hidden
      name; and it fails only if one of those does not render. */
  method EmitProjected(p: WireProjector, ad: seq<Attribute>, priv: Keys,
                       suppress: seq<string>) returns (sent: Option<seq<Attribute>>)
    requires p.Valid() && CaseDistinct(ad)
    modifies p
    ensures p.Valid()
    ensures sent.Some? ==>
              && CaseDistinct(sent.value)
              && (forall k :: 0 <= k < |sent.value| ==> sent.value[k] in ad && sent.value[k].node.text.Some?)
              && LeastClosed(ad, p.names, Usable(ad, priv, suppress), AttrKeys(sent.value))
              && AttrKeys(sent.value) <= Usable(ad, priv, suppress)
    ensures sent.None? ==> Unrenderable(ad, p.names, Usable(ad, priv, suppress))
  {
    hide Fold, KeysOf, Usable, Needed, p.Valid, Roots, AllRefs, LeastClosed, AttrKeys;
    p.Reset();
    NothingSent(ad, priv, Usable(ad, priv, suppress), p.Wanted());
    ghost var usable := Usable(ad, priv, suppress);
    NeededFirst(ad, p.names, usable);
    NoKeys();
    var out, again := [], true;
    while again
      invariant p.Valid() && p.emitted == AttrKeys(out) && KeysOf(p.refNames) <= AllRefs(ad)
      invariant Sent(ad, priv, usable, p.Wanted(), out) && Needed(ad, p.names, usable, p.Wanted())
      invariant !again ==> LeastClosed(ad, p.names, usable, AttrKeys(out)) && AttrKeys(out) <= usable
      decreases |AllRefs(ad) - KeysOf(p.refNames)| + if again then 1 else 0
    {
      ghost var before := KeysOf(p.refNames);
      var good;
      out, again, good := Walk(p, ad, priv, suppress, out);
      if !good {
        return None;
      }
      if again {
        SmallerSet(AllRefs(ad) - KeysOf(p.refNames), AllRefs(ad) - before);
      } else {
        EmittedWanted(p);
        PassCloses(ad, p.names, priv, suppress, p.Wanted(), out);
      }
    }
    sent := Some(out);
  }

  lemma {:induction false} NothingSent(ad: seq<Attribute>, priv: Keys, usable: set<string>, wanted: set<string>)
    ensures Sent(ad, priv, usable, wanted, []) && AttrKeys([]) == {}
  {
    hide Fold, KeysOf;
  }

  lemma {:induction false} EmittedWanted(p: WireProjector)
    requires p.Valid()
    ensures p.emitted <= p.Wanted() && Roots(p.names) <= p.Wanted()
  {
    hide Fold, KeysOf, Roots;
  }

  /** A failed record is one that had no honest answer: no closed set avoids the attribute. */
  lemma {:induction false} FailsOnlyWhenNeeded(ad: seq<Attribute>, names: seq<string>, usable: set<string>,
                                               S: set<string>)
    requires Unrenderable(ad, names, usable) && Closed(ad, names, usable, S)
    ensures exists a :: a in ad && a.node.text.None? && Fold(a.name) in S
  {
    hide Fold, Closed;
    var a :| a in ad && a.node.text.None? && Fold(a.name) in usable && InEveryClosed(ad, names, usable, {Fold(a.name)});
    assert {Fold(a.name)} <= S;
  }

  // ---------------------------------------------------------------------------------------
  // The record's expressions.

  function Expression(a: Attribute): string
    requires a.node.text.Some?
  {
    a.name + " = " + a.node.text.value
  }

  function NameLength(s: string): (n: nat)
    ensures n <= |s|
  {
    if s == "" || s[0] == ' ' then 0 else 1 + NameLength(s[1..])
  }

  /** A client's reading of an old-syntax expression: the name up to the first blank, " = ", and the rest. */
  function ReadExpression(s: string): Option<(string, string)> {
    var n := NameLength(s);
    if n + 3 <= |s| && s[n..n + 3] == " = " then Some((s[..n], s[n + 3..])) else None
  }

  lemma {:induction false} NameLengthIs(name: string, rest: string)
    requires ' ' !in name && rest != "" && rest[0] == ' '
    ensures NameLength(name + rest) == |name|
  {
    if name == "" {
      assert name + rest == rest;
    } else {
      assert (name + rest)[1..] == name[1..] + rest;
      NameLengthIs(name[1..], rest);
    }
  }

  /** The client reads back the attribute's name and its text, whatever the text holds. */
  lemma {:induction false} ExpressionBack(a: Attribute)
    requires a.node.text.Some? && ' ' !in a.name
    ensures ReadExpression(Expression(a)) == Some((a.name, a.node.text.value))
  {
    var rest := " = " + a.node.text.value;
    Assoc(a.name, " = ", a.node.text.value);
    NameLengthIs(a.name, rest);
    var s := a.name + rest;
    assert s[|a.name|..|a.name| + 3] == rest[..3] == " = ";
    assert s[|a.name| + 3..] == rest[3..] == a.node.text.value;
    assert s[..|a.name|] == a.name;
  }

  /** The one pass of a query without a projection: every attribute that is not hidden, in the ad's order. */
  method EmitEvery(ad: seq<Attribute>, priv: Keys, suppress: seq<string>) returns (sent: Option<seq<Attribute>>)
    requires CaseDistinct(ad)
    ensures sent.Some? ==>
              && CaseDistinct(sent.value)
              && (forall k :: 0 <= k < |sent.value| ==> sent.value[k] in ad && sent.value[k].node.text.Some?)
              && AttrKeys(sent.value) == Usable(ad, priv, suppress)
    ensures sent.None? ==> exists a :: a in ad && a.node.text.None? && Fold(a.name) in Usable(ad, priv, suppress)
  {
    hide Fold, KeysOf, Usable, AttrKeys, Hidden;
    var out := [];
    NoneSent();
    for i := 0 to |ad|
      invariant forall k :: 0 <= k < |out| ==> out[k] in ad[..i] && out[k].node.text.Some?
      invariant CaseDistinct(out) && AttrKeys(out) == UsableUpto(ad, priv, suppress, i)
    {
      var a := ad[i];
      InUsable(ad, priv, suppress, i);
      UsableStep(ad, priv, suppress, i);
      if !Hidden(Fold(a.name), priv, suppress) {
        if a.node.text.None? {
          return None;
        }
        AttrKeysSnoc(out, a);
        forall k | 0 <= k < |out| ensures Fold(out[k].name) != Fold(a.name) { Earlier(ad, i, out[k]); }
        out := out + [a];
      }
    }
    UsableAll(ad, priv, suppress);
    sent := Some(out);
  }

  function UsableUpto(ad: seq<Attribute>, priv: Keys, suppress: seq<string>, i: nat): set<string>
    requires i <= |ad|
  {
    Usable(ad[..i], priv, suppress)
  }

  lemma {:induction false} UsableStep(ad: seq<Attribute>, priv: Keys, suppress: seq<string>, i: nat)
    requires i < |ad|
    ensures UsableUpto(ad, priv, suppress, i + 1) ==
            UsableUpto(ad, priv, suppress, i) +
            if Hidden(Fold(ad[i].name), priv, suppress) then {} else {Fold(ad[i].name)}
  {
    hide Fold, KeysOf, Hidden;
    assert ad[..i + 1] == ad[..i] + [ad[i]];
  }

  lemma {:induction false} UsableAll(ad: seq<Attribute>, priv: Keys, suppress: seq<string>)
    ensures UsableUpto(ad, priv, suppress, |ad|) == Usable(ad, priv, suppress)
  {
    hide Usable;
    assert ad[..|ad|] == ad;
  }

  lemma {:induction false} Earlier(ad: seq<Attribute>, i: nat, a: Attribute)
    requires CaseDistinct(ad) && i < |ad| && a in ad[..i]
    ensures Fold(a.name) != Fold(ad[i].name)
  {
    hide Fold;
    var j :| 0 <= j < i && ad[j] == a;
  }

  lemma {:induction false} NoneSent()
    ensures AttrKeys([]) == {} && forall ad, priv, suppress :: UsableUpto(ad, priv, suppress, 0) == {}
  {
    forall ad: seq<Attribute>, priv, suppress ensures UsableUpto(ad, priv, suppress, 0) == {} { assert ad[..0] == []; }
  }

  lemma {:induction false} AttrKeysSnoc(out: seq<Attribute>, a: Attribute)
    ensures AttrKeys(out + [a]) == AttrKeys(out) + {Fold(a.name)}
  {
    hide Fold;
  }

  /** What a projection asks for; without one, everything that is not hidden. */
  ghost predicate Asked(ad: seq<Attribute>, p: WireProjector?, usable: set<string>, S: set<string>) {
    if p == null then S == usable else LeastClosed(ad, p.names, usable, S)
  }

  /** appendWireRecord's body: the expressions in emission order, then the server's time; the count the
      record carries is how many there are. */
  method WireExpressions(p: WireProjector?, ad: seq<Attribute>, priv: Keys, suppress: seq<string>, serverTime: string)
    returns (sent: Option<seq<Attribute>>, exprs: seq<string>, n: nat)
    requires (p != null ==> p.Valid()) && CaseDistinct(ad)
    modifies p
    ensures (p != null ==> p.Valid()) && n == |exprs|
    ensures sent.Some? ==>
              && Asked(ad, p, Usable(ad, priv, suppress), AttrKeys(sent.value))
              && CaseDistinct(sent.value)
              && |exprs| == |sent.value| + (if serverTime == "" then 0 else 1)
              && (serverTime != "" ==> exprs[|sent.value|] == serverTime)
              && forall k :: 0 <= k < |sent.value| ==>
                   && sent.value[k] in ad && sent.value[k].node.text.Some?
                   && exprs[k] == Expression(sent.value[k])
    ensures sent.None? ==>
              && exprs == []
              && (p == null ==>
                  exists a :: a in ad && a.node.text.None? && Fold(a.name) in Usable(ad, priv, suppress))
              && (p != null ==> Unrenderable(ad, p.names, Usable(ad, priv, suppress)))
  {
    hide Fold, LeastClosed, Unrenderable, CaseDistinct, Usable, AttrKeys;
    if p == null {
      sent := EmitEvery(ad, priv, suppress);
    } else {
      sent := EmitProjected(p, ad, priv, suppress);
    }
    exprs, n := [], 0;
    if sent.None? {
      return;
    }
    var out := sent.value;
    for k := 0 to |out|
      invariant |exprs| == k == n && (p != null ==> p.Valid())
      invariant forall j :: 0 <= j < k ==> out[j].node.text.Some? && exprs[j] == Expression(out[j])
    {
      exprs := exprs + [Expression(out[k])];
      n := n + 1;
    }
    if serverTime != "" {
      exprs := exprs + [serverTime];
      n := n + 1;
    }
  }
}
