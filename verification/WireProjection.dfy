/** The per-ad reference closure of a projected query (capi/queuerow.go).

    Names ignore case, so a name is known by its folded form, its key; the name hashes, which only save
    comparisons, are left out. `priv` says which keys are private. */
module WireProjection {
  import opened Text

  /** An expression: its old-ClassAd text, None if it cannot be rendered, and the names it refers to. */
  datatype Node = Node(text: Option<string>, refs: seq<string>)

  datatype Attribute = Attribute(name: string, node: Node)

  type Keys = string -> bool

  const MY_TYPE := "mytype"
  const TARGET_TYPE := "targettype"

  function KeysOf(names: seq<string>): set<string> { set n | n in names :: Fold(n) }

  predicate Distinct(names: seq<string>) { forall i, j :: 0 <= i < j < |names| ==> Fold(names[i]) != Fold(names[j]) }

  predicate CaseDistinct(ad: seq<Attribute>)
  {
    forall i, j :: 0 <= i < j < |ad| ==> Fold(ad[i].name) != Fold(ad[j].name)
  }

  /** What a query leaves out of every ad. */
  predicate Hidden(key: string, priv: Keys, suppress: seq<string>) { priv(key) || key in KeysOf(suppress) }

  function Usable(ad: seq<Attribute>, priv: Keys, suppress: seq<string>): set<string> {
    set a | a in ad && !Hidden(Fold(a.name), priv, suppress) :: Fold(a.name)
  }

  // ---------------------------------------------------------------------------------------
  // What should be sent.

  function Roots(names: seq<string>): set<string> { KeysOf(names) + {MY_TYPE, TARGET_TYPE} }

  ghost predicate Refers(ad: seq<Attribute>, key: string, target: string) {
    exists a :: a in ad && Fold(a.name) == key && target in KeysOf(a.node.refs)
  }

  /** S holds the usable projected names and the types, and what its usable expressions refer to. */
  ghost predicate Closed(ad: seq<Attribute>, names: seq<string>, usable: set<string>, S: set<string>) {
    && (forall key :: key in usable && key in Roots(names) ==> key in S)
    && (forall a, r ::
          a in ad && Fold(a.name) in usable && Fold(a.name) in S && r in KeysOf(a.node.refs) && r in usable ==> r in S)
  }

  ghost predicate InEveryClosed(ad: seq<Attribute>, names: seq<string>, usable: set<string>, S: set<string>) {
    forall C: set<string> :: Closed(ad, names, usable, C) ==> S <= C
  }

  ghost predicate LeastClosed(ad: seq<Attribute>, names: seq<string>, usable: set<string>, S: set<string>) {
    Closed(ad, names, usable, S) && InEveryClosed(ad, names, usable, S)
  }

  // ---------------------------------------------------------------------------------------
  // The same set by chains of references.

  /** A chain of references from a projected name, through usable names only. */
  ghost predicate Chain(ad: seq<Attribute>, names: seq<string>, usable: set<string>, path: seq<string>) {
    && path != [] && path[0] in Roots(names)
    && (forall i :: 0 <= i < |path| ==> path[i] in usable)
    && (forall i :: 0 < i < |path| ==> Refers(ad, path[i - 1], path[i]))
  }

  ghost predicate Reached(ad: seq<Attribute>, names: seq<string>, usable: set<string>, key: string) {
    exists path :: Chain(ad, names, usable, path) && path[|path| - 1] == key
  }

  lemma {:induction false} ChainStaysInside(ad: seq<Attribute>, names: seq<string>, usable: set<string>, S: set<string>,
                                            path: seq<string>)
    requires Closed(ad, names, usable, S) && Chain(ad, names, usable, path)
    ensures path[|path| - 1] in S
    decreases |path|
  {
    hide Fold, KeysOf, Roots;
    var n := |path| - 1;
    if n > 0 {
      ChainStaysInside(ad, names, usable, S, path[..n]);
      assert Refers(ad, path[n - 1], path[n]);
      var a :| a in ad && Fold(a.name) == path[n - 1] && path[n] in KeysOf(a.node.refs);
    }
  }

  lemma {:induction false} ChainGrows(ad: seq<Attribute>, names: seq<string>, usable: set<string>, key: string,
                                      target: string)
    requires Reached(ad, names, usable, key) && Refers(ad, key, target) && target in usable
    ensures Reached(ad, names, usable, target)
  {
    hide Fold, KeysOf, Roots, Refers;
    var path :| Chain(ad, names, usable, path) && path[|path| - 1] == key;
    var longer := path + [target];
    assert Chain(ad, names, usable, longer) by {
      forall i | 0 < i < |longer| ensures Refers(ad, longer[i - 1], longer[i]) {
        if i < |path| { assert longer[i - 1] == path[i - 1] && longer[i] == path[i]; }
      }
    }
  }

  /** The least closed set is exactly what chains of references reach. */
  lemma {:induction false} LeastIsReached(ad: seq<Attribute>, names: seq<string>, usable: set<string>, S: set<string>)
    requires LeastClosed(ad, names, usable, S) && S <= usable
    ensures forall key :: key in S <==> Reached(ad, names, usable, key)
  {
    hide Fold, KeysOf, Roots, Refers, Reached;
    var R := set key | key in usable && Reached(ad, names, usable, key);
    assert Closed(ad, names, usable, R) by {
      forall key | key in usable && key in Roots(names) ensures Reached(ad, names, usable, key) {
        ChainOfOne(ad, names, usable, key);
      }
      forall a, r | a in ad && Fold(a.name) in usable && Fold(a.name) in R && r in KeysOf(a.node.refs) && r in usable
        ensures Reached(ad, names, usable, r)
      {
        NamesRefer(ad, a, r);
        ChainGrows(ad, names, usable, Fold(a.name), r);
      }
    }
    forall key | Reached(ad, names, usable, key) ensures key in S { ReachedInside(ad, names, usable, S, key); }
  }

  lemma {:induction false} NamesRefer(ad: seq<Attribute>, a: Attribute, r: string)
    requires a in ad && r in KeysOf(a.node.refs)
    ensures Refers(ad, Fold(a.name), r)
  {
    hide Fold;
  }

  lemma {:induction false} ChainOfOne(ad: seq<Attribute>, names: seq<string>, usable: set<string>, key: string)
    requires key in usable && key in Roots(names)
    ensures Reached(ad, names, usable, key)
  {
    hide Fold, KeysOf, Roots;
    assert Chain(ad, names, usable, [key]);
  }

  lemma {:induction false} ReachedInside(ad: seq<Attribute>, names: seq<string>, usable: set<string>, S: set<string>,
                                         key: string)
    requires Closed(ad, names, usable, S) && Reached(ad, names, usable, key)
    ensures key in S
  {
    hide Fold, KeysOf, Roots, Closed;
    var path :| Chain(ad, names, usable, path) && path[|path| - 1] == key;
    ChainStaysInside(ad, names, usable, S, path);
  }

  // ---------------------------------------------------------------------------------------
  // The projector.

  lemma {:induction false} SmallerSet(a: set<string>, b: set<string>)
    requires a < b
    ensures |a| < |b|
  {
    var x :| x in b && x !in a;
    if a != {} {
      var y :| y in a;
      SmallerSet(a - {y}, b - {y});
    }
  }

  lemma {:induction false} KeysSnoc(names: seq<string>, n: string)
    ensures KeysOf(names + [n]) == KeysOf(names) + {Fold(n)}
  {
    hide Fold;
  }

  lemma {:induction false} KeyAt(names: seq<string>, i: nat)
    requires i < |names|
    ensures Fold(names[i]) in KeysOf(names)
  {
    hide Fold;
    assert names[i] in names;
  }

  lemma {:induction false} KeyIndex(names: seq<string>, key: string) returns (i: nat)
    requires key in KeysOf(names)
    ensures i < |names| && Fold(names[i]) == key
  {
    hide Fold;
    var n :| n in names && Fold(n) == key;
    i :| 0 <= i < |names| && names[i] == n;
  }

  /** The first name equal to the key whose mark is not set. */
  method Unmarked(names: seq<string>, marks: seq<bool>, key: string) returns (at: Option<nat>)
    requires |marks| == |names|
    ensures at.Some? ==> at.value < |names| && !marks[at.value] && Fold(names[at.value]) == key
    ensures at.None? ==> forall j :: 0 <= j < |names| ==> marks[j] || Fold(names[j]) != key
  {
    hide Fold;
    for i := 0 to |names|
      invariant forall j :: 0 <= j < i ==> marks[j] || Fold(names[j]) != key
    {
      if !marks[i] && key == Fold(names[i]) {
        return Some(i);
      }
    }
    at := None;
  }

  /** Whether a name equal to the key is listed. */
  method Listed(names: seq<string>, key: string) returns (yes: bool)
    ensures yes == (key in KeysOf(names))
  {
    hide Fold;
    for i := 0 to |names|
      invariant forall j :: 0 <= j < i ==> key != Fold(names[j])
    {
      if key == Fold(names[i]) {
        return true;
      }
    }
    yes := false;
  }

  class WireProjector {
    const names: seq<string>
    var done: seq<bool>
    var refNames: seq<string>
    var refDone: seq<bool>
    var myTypeDone: bool
    var targetTypeDone: bool
    /** The keys want has said yes to since the reset. */
    ghost var emitted: set<string>

    ghost predicate Valid()
      reads this
    {
      && |done| == |names| && |refDone| == |refNames|
      && Distinct(names) && Distinct(refNames) && KeysOf(names) !! KeysOf(refNames)
      && (myTypeDone <==> MY_TYPE in emitted) && (targetTypeDone <==> TARGET_TYPE in emitted)
      && (forall i :: 0 <= i < |names| && !IsType(Fold(names[i])) ==> (done[i] <==> Fold(names[i]) in emitted))
      && (forall i :: 0 <= i < |refNames| && !IsType(Fold(refNames[i])) ==>
          (refDone[i] <==> Fold(refNames[i]) in emitted))
      && emitted <= Wanted()
    }

    static predicate IsType(key: string) { key == MY_TYPE || key == TARGET_TYPE }

    ghost function Wanted(): set<string>
      reads this
    {
      Roots(names) + KeysOf(refNames)
    }

    /** A repeated projected name is taken once. */
    constructor (attrs: seq<string>)
      requires attrs != []
      ensures Valid() && emitted == {} && refNames == [] && KeysOf(names) == KeysOf(attrs)
    {
      hide Fold;
      var kept := [];
      for i := 0 to |attrs|
        invariant Distinct(kept) && KeysOf(kept) == KeysOf(attrs[..i])
      {
        assert attrs[..i + 1] == attrs[..i] + [attrs[i]];
        KeysSnoc(attrs[..i], attrs[i]);
        if Fold(attrs[i]) !in KeysOf(kept) {
          KeysSnoc(kept, attrs[i]);
          kept := kept + [attrs[i]];
        }
      }
      assert attrs[..|attrs|] == attrs;
      names, done := kept, seq(|kept|, _ => false);
      refNames, refDone, myTypeDone, targetTypeDone, emitted := [], [], false, false, {};
    }

    method Reset()
      requires Valid()
      modifies this
      ensures Valid() && emitted == {} && refNames == []
    {
      done := seq(|names|, _ => false);
      refNames, refDone, myTypeDone, targetTypeDone, emitted := [], [], false, false, {};
    }

    /** want: yes once for each wanted name. */
    method Want(name: string) returns (w: bool)
      requires Valid()
      modifies this
      ensures Valid() && refNames == old(refNames)
      ensures w == (Fold(name) in old(Wanted()) && Fold(name) !in old(emitted))
      ensures emitted == old(emitted) + (if w then {Fold(name)} else {})
    {
      hide Fold, KeysOf;
      var key := Fold(name);
      if key == MY_TYPE {
        w := !myTypeDone;
        myTypeDone, emitted := true, emitted + {key};
        return;
      }
      if key == TARGET_TYPE {
        w := !targetTypeDone;
        targetTypeDone, emitted := true, emitted + {key};
        return;
      }
      var i := Unmarked(names, done, key);
      if i.Some? {
        MarkName(i.value);
        return true;
      }
      i := Unmarked(refNames, refDone, key);
      if i.Some? {
        MarkRef(i.value);
        return true;
      }
      if key in KeysOf(names) { ghost var j := KeyIndex(names, key); }
      if key in KeysOf(refNames) { ghost var j := KeyIndex(refNames, key); }
      w := false;
    }

    method MarkName(i: nat)
      requires Valid() && i < |names| && !IsType(Fold(names[i]))
      modifies this
      ensures Valid() && refNames == old(refNames) && emitted == old(emitted) + {Fold(names[i])}
    {
      hide Fold, KeysOf;
      KeyAt(names, i);
      forall j | 0 <= j < |refNames| ensures Fold(refNames[j]) in KeysOf(refNames) { KeyAt(refNames, j); }
      done, emitted := done[i := true], emitted + {Fold(names[i])};
    }

    method MarkRef(i: nat)
      requires Valid() && i < |refNames| && !IsType(Fold(refNames[i]))
      modifies this
      ensures Valid() && refNames == old(refNames) && emitted == old(emitted) + {Fold(refNames[i])}
    {
      hide Fold, KeysOf;
      KeyAt(refNames, i);
      forall j | 0 <= j < |names| ensures Fold(names[j]) in KeysOf(names) { KeyAt(names, j); }
      refDone, emitted := refDone[i := true], emitted + {Fold(refNames[i])};
    }

    /** noteRef: a new, public name joins the wanted ones. */
    method NoteRef(name: string, priv: Keys) returns (isNew: bool)
      requires Valid()
      modifies this
      ensures Valid() && emitted == old(emitted)
      ensures isNew == (Fold(name) !in KeysOf(names) && Fold(name) !in old(KeysOf(refNames)) && !priv(Fold(name)))
      ensures refNames == old(refNames) + if isNew then [name] else []
    {
      hide Fold, KeysOf;
      var key := Fold(name);
      var listed := Listed(names, key);
      if listed {
        return false;
      }
      listed := Listed(refNames, key);
      if listed {
        return false;
      }
      if priv(key) {
        return false;
      }
      KeysSnoc(refNames, name);
      forall j | 0 <= j < |refNames| ensures Fold(refNames[j]) in KeysOf(refNames) { KeyAt(refNames, j); }
      refNames, refDone := refNames + [name], refDone + [false];
      isNew := true;
    }
  }

  /** newWireProjector: an empty projection needs none, since every attribute ships. */
  method NewWireProjector(attrs: seq<string>) returns (p: WireProjector?)
    ensures p == null <==> attrs == []
    ensures p != null ==> fresh(p) && p.Valid() && KeysOf(p.names) == KeysOf(attrs)
  {
    if |attrs| == 0 {
      return null;
    }
    p := new WireProjector(attrs);
  }
}
