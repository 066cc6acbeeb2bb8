/** The memory object: every table's settled columns, changed in place by each derivation. */
module TypeMemory {
  import opened Text
  import M = SchemaMemory
  import opened SchemaMemory

  class TypeMemory {
    const limit: nat
    var tables: map<string, TableTypes>

    constructor (columnLimit: nat)
      ensures limit == columnLimit && tables == map[]
    {
      limit, tables := columnLimit, map[];
    }

    function Of(table: string): TableTypes
      reads this
    {
      if Fold(table) in tables then tables[Fold(table)] else TableTypes(0, [], [])
    }

    /** The index of the last decision for a name. */
    method FindLast(measured: seq<Decision>, key: string) returns (m: Option<Decision>)
      ensures m == ByName(measured, key)
    {
      hide Fold;
      m := None;
      for i := 0 to |measured|
        invariant m == ByName(measured[..i], key)
      {
        assert measured[..i + 1][..i] == measured[..i];
        if !measured[i].tail && Fold(measured[i].name) == key {
          m := Some(measured[i]);
        }
      }
      assert measured[..|measured|] == measured;
    }

    /** The loop over the settled columns: each is shown its measurement and published. */
    method ObserveColumns(cols: seq<ColumnType>, measured: seq<Decision>)
      returns (after: seq<ColumnType>, out: seq<Decision>, adopted: seq<string>)
      ensures var obs := ObserveAll(cols, measured);
              after == M.Columns(obs) && out == Publishes(obs) && adopted == AdoptedNames(obs)
    {
      hide Fold, Observe, ByName;
      ghost var obs := ObserveAll(cols, measured);
      after, out, adopted := [], [], [];
      for i := 0 to |cols|
        invariant |after| == i && (forall j :: 0 <= j < i ==> after[j] == obs[j].col)
        invariant out == Publishes(obs[..i]) && adopted == AdoptedNames(obs[..i])
      {
        assert obs[..i + 1][..i] == obs[..i];
        var m := FindLast(measured, Fold(cols[i].name));
        var o := Observe(cols[i], m);
        after := after + [o.col];
        if o.publish.Some? {
          out := out + [o.publish.value];
        }
        if o.adopted {
          adopted := adopted + [o.col.name];
        }
      }
      assert obs[..|cols|] == obs;
    }

    /** The loop over what the measurement found that is not remembered. */
    method GrowColumns(g0: Growing, measured: seq<Decision>, private: bool) returns (g: Growing)
      ensures g == TakeAllNew(g0, measured, limit, private)
    {
      hide Fold, ColumnOf;
      g := g0;
      for i := 0 to |measured|
        invariant g == TakeAllNew(g0, measured[..i], limit, private)
      {
        assert measured[..i + 1][..i] == measured[..i];
        var m := measured[i];
        if !m.tail && Fold(m.name) !in g.met {
          g := g.(out := g.out + [m], met := g.met + {Fold(m.name)});
          if !private && |g.cols| < limit && ColumnOf(m).Some? {
            g := g.(cols := g.cols + [ColumnType(m.name, ColumnOf(m).value, None)], added := g.added + [m.name]);
          }
        }
      }
      assert measured[..|measured|] == measured;
    }

    method FindTail(measured: seq<Decision>) returns (tail: seq<Decision>)
      ensures tail == Tail(measured)
    {
      tail := [];
      for i := 0 to |measured|
        invariant tail == Tail(measured[..i])
      {
        assert measured[..i + 1][..i] == measured[..i];
        if measured[i].tail {
          tail := [measured[i]];
        }
      }
      assert measured[..|measured|] == measured;
    }

    /** reconcile: this table's memory moves as Reconcile says, and no other table's does. */
    method Derive(table: string, measured: seq<Decision>, private: bool) returns (out: seq<Decision>)
      modifies this
      ensures (Of(table), out) == Reconcile(old(Of(table)), limit, measured, private)
      ensures tables == old(tables)[Fold(table) := Of(table)]
    {
      hide Fold, ObserveAll, TakeAllNew, Tail, AdoptedNames, Publishes, NameSet;
      var t := Of(table);
      var cols, shown, adopted := ObserveColumns(t.columns, measured);
      var g := GrowColumns(Growing(cols, shown, NameSet(t.columns), []), measured, private);
      tables := tables[Fold(table) := RecordChange(t.(columns := g.cols), g.added, adopted)];
      var tail := FindTail(measured);
      out := g.out + tail;
    }
  }
}
