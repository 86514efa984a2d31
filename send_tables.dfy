/**
 * The walk `cosmo_dump` uses to gather every send table nested under a
 * server class's table. A table holds properties; a property of type
 * DPT_DataTable may point to a nested table. The walk records each nested
 * table it reaches in a name-keyed map, overwriting an earlier table of the
 * same name, and recurses into it. The host hands out finite acyclic trees
 * here, so tables are an inductive datatype; the walk itself has no guard
 * against revisiting a table.
 */
module SendTables {
  import opened Wrappers

  /** The host's SendPropType. */
  datatype PropType =
    | DptInt | DptFloat | DptVector | DptVectorXY | DptString | DptArray | DptDataTable | DptInt64

  datatype SendProp = SendProp(name: string, kind: PropType, dataTable: Option<SendTable>)

  datatype SendTable = SendTable(name: string, props: seq<SendProp>)

  /** The nested table a property leads the walk into, if any. */
  function Child(p: SendProp): (c: Option<SendTable>)
    ensures c.Some? <==> p.kind == DptDataTable && p.dataTable.Some?
    ensures c.Some? ==> c.value < p
  {
    if p.kind == DptDataTable then p.dataTable else None
  }

  /** The map after the walk has handled props[i..] of `t`, starting from `tables`. */
  function Collect(tables: map<string, SendTable>, t: SendTable, i: nat): map<string, SendTable>
    requires i <= |t.props|
    decreases t, |t.props| - i
  {
    if i == |t.props| then tables
    else
      match Child(t.props[i])
      case None => Collect(tables, t, i + 1)
      case Some(d) => Collect(Collect(tables[d.name := d], d, 0), t, i + 1)
  }

  /** Every table reachable from props[i..] of `t` through DPT_DataTable properties. */
  ghost function Reachable(t: SendTable, i: nat): set<SendTable>
    requires i <= |t.props|
    decreases t, |t.props| - i
  {
    if i == |t.props| then {}
    else
      match Child(t.props[i])
      case None => Reachable(t, i + 1)
      case Some(d) => {d} + Reachable(d, 0) + Reachable(t, i + 1)
  }

  ghost function Names(ts: set<SendTable>): set<string> {
    set d | d in ts :: d.name
  }

  /**
   * find_and_add_children: walks the properties of `t` in order and records
   * every nested table in `tables`, recursing into each.
   */
  method FindAndAddChildren(tables: map<string, SendTable>, t: SendTable) returns (found: map<string, SendTable>)
    ensures found == Collect(tables, t, 0)
    decreases t
  {
    found := tables;
    for i := 0 to |t.props|
      invariant Collect(found, t, i) == Collect(tables, t, 0)
    {
      var prop := t.props[i];
      if prop.kind == DptDataTable {
        var dataTable := prop.dataTable;
        if dataTable.Some? {
          var d := dataTable.value;
          assert Child(prop) == Some(d);
          found := found[d.name := d];
          found := FindAndAddChildren(found, d);
        }
      }
    }
  }

  /**
   * What the walk leaves in the map: the keys already there plus the name of
   * every reachable nested table; each entry is either the entry that was
   * there before, untouched because no reachable table has its name, or a
   * reachable table filed under its own name.
   */
  lemma {:induction false} CollectContents(tables: map<string, SendTable>, t: SendTable, i: nat)
    requires i <= |t.props|
    ensures Collect(tables, t, i).Keys == tables.Keys + Names(Reachable(t, i))
    ensures forall k | k in Collect(tables, t, i) ::
              || (k in tables && k !in Names(Reachable(t, i)) && Collect(tables, t, i)[k] == tables[k])
              || (Collect(tables, t, i)[k] in Reachable(t, i) && Collect(tables, t, i)[k].name == k)
    decreases t, |t.props| - i
  {
    if i < |t.props| {
      match Child(t.props[i])
      case None =>
        CollectContents(tables, t, i + 1);
      case Some(d) =>
        var inner := Collect(tables[d.name := d], d, 0);
        CollectContents(tables[d.name := d], d, 0);
        CollectContents(inner, t, i + 1);
        assert Reachable(t, i) == {d} + Reachable(d, 0) + Reachable(t, i + 1);
        assert Names(Reachable(t, i)) == {d.name} + Names(Reachable(d, 0)) + Names(Reachable(t, i + 1));
    }
  }

  /** Every nested table the walk can reach is in the map under its name. */
  lemma ReachableRecorded(tables: map<string, SendTable>, t: SendTable, d: SendTable)
    requires d in Reachable(t, 0)
    ensures d.name in Collect(tables, t, 0)
  {
    CollectContents(tables, t, 0);
  }

  /**
   * A reachable table that no other reachable table shares a name with is
   * the map's entry for its name afterwards, whatever the map held there before.
   */
  lemma UniqueNameRecorded(tables: map<string, SendTable>, t: SendTable, d: SendTable)
    requires d in Reachable(t, 0)
    requires forall e | e in Reachable(t, 0) && e.name == d.name :: e == d
    ensures d.name in Collect(tables, t, 0) && Collect(tables, t, 0)[d.name] == d
  {
    CollectContents(tables, t, 0);
    assert d.name in Names(Reachable(t, 0));
  }

  /** The walk never removes a key and never shrinks the map. */
  lemma CollectGrows(tables: map<string, SendTable>, t: SendTable)
    ensures tables.Keys <= Collect(tables, t, 0).Keys
    ensures |tables| <= |Collect(tables, t, 0)|
  {
    CollectContents(tables, t, 0);
    var after := Collect(tables, t, 0);
    assert |tables.Keys| <= |after.Keys| by {
      SubsetCard(tables.Keys, after.Keys);
    }
  }

  lemma {:induction false} SubsetCard<T>(a: set<T>, b: set<T>)
    requires a <= b
    ensures |a| <= |b|
  {
    if a != {} {
      var x :| x in a;
      SubsetCard(a - {x}, b - {x});
    }
  }

  /** A table whose properties lead nowhere adds nothing. */
  lemma LeafAddsNothing(tables: map<string, SendTable>, t: SendTable)
    requires forall j :: 0 <= j < |t.props| ==> Child(t.props[j]).None?
    ensures Collect(tables, t, 0) == tables
  {
    CollectContents(tables, t, 0);
    assert Reachable(t, 0) == {} by {
      NoChildNoReach(t, 0);
    }
    var after := Collect(tables, t, 0);
    assert forall k | k in after :: after[k] == tables[k];
  }

  lemma {:induction false} NoChildNoReach(t: SendTable, i: nat)
    requires i <= |t.props|
    requires forall j :: 0 <= j < |t.props| ==> Child(t.props[j]).None?
    ensures Reachable(t, i) == {}
    decreases |t.props| - i
  {
    if i < |t.props| {
      NoChildNoReach(t, i + 1);
    }
  }
}
