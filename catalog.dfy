/** The catalog store: records with string attributes and a `Variations`
    list, attribute-equality filters, the scan that takes the first match,
    and the store whose `put_item` overwrites one record. */
module Catalog {
  import opened Wrappers

  /** One DynamoDB item: its attributes and its list of variation URLs. */
  datatype Item = Item(attributes: map<string, string>, variations: seq<string>)

  /** `Attr(name).eq(value)`. */
  datatype Condition = Condition(name: string, value: string)

  /** A conjunction of conditions, as built with `&`. */
  type Filter = seq<Condition>

  predicate HasAttr(item: Item, name: string, value: string) {
    name in item.attributes && item.attributes[name] == value
  }

  predicate Satisfies(item: Item, filter: Filter) {
    filter == [] || (HasAttr(item, filter[0].name, filter[0].value) && Satisfies(item, filter[1..]))
  }

  /** A one-condition filter selects the items with that attribute value. */
  lemma SatisfiesSingle(c: Condition)
    ensures forall item :: Satisfies(item, [c]) <==> HasAttr(item, c.name, c.value)
  {
    forall item ensures Satisfies(item, [c]) <==> HasAttr(item, c.name, c.value) {
      assert [c][1..] == [];
    }
  }

  /** A two-condition filter selects the items with both attribute values. */
  lemma SatisfiesPair(a: Condition, b: Condition)
    ensures forall item :: Satisfies(item, [a, b]) <==>
                             HasAttr(item, a.name, a.value) && HasAttr(item, b.name, b.value)
  {
    forall item
      ensures Satisfies(item, [a, b]) <==> HasAttr(item, a.name, a.value) && HasAttr(item, b.name, b.value)
    {
      assert [a, b][1..] == [b];
      assert [b][1..] == [];
      assert Satisfies(item, [b]) <==> HasAttr(item, b.name, b.value);
    }
  }

  /** `table.scan(FilterExpression=...)['Items'][0]`, as a position: the first
      item satisfying the filter, or None when no item does. */
  function FirstMatch(items: seq<Item>, filter: Filter): (r: Option<nat>)
    ensures r.Some? ==> r.value < |items| && Satisfies(items[r.value], filter)
    ensures r.Some? ==> forall j :: 0 <= j < r.value ==> !Satisfies(items[j], filter)
    ensures r.None? <==> forall j :: 0 <= j < |items| ==> !Satisfies(items[j], filter)
  {
    if items == [] then None
    else if Satisfies(items[0], filter) then Some(0)
    else match FirstMatch(items[1..], filter)
      case None => None
      case Some(k) => Some(k + 1)
  }

  /** A filter only reads attributes: items with the same attributes are
      selected alike, whatever their variations. */
  lemma {:induction false} SatisfiesReadsAttributes(a: Item, b: Item, filter: Filter)
    requires a.attributes == b.attributes
    ensures Satisfies(a, filter) == Satisfies(b, filter)
  {
    if filter != [] {
      SatisfiesReadsAttributes(a, b, filter[1..]);
    }
  }

  /** The scan finds the same position in two tables whose records have the
      same attributes position by position. */
  lemma {:induction false} FirstMatchReadsAttributes(xs: seq<Item>, ys: seq<Item>, filter: Filter)
    requires |xs| == |ys|
    requires forall i :: 0 <= i < |xs| ==> xs[i].attributes == ys[i].attributes
    ensures FirstMatch(xs, filter) == FirstMatch(ys, filter)
  {
    if xs != [] {
      SatisfiesReadsAttributes(xs[0], ys[0], filter);
      FirstMatchReadsAttributes(xs[1..], ys[1..], filter);
    }
  }

  /** The DynamoDB service: the contents of every table, by table name. A
      record's primary key is modelled by its position in its table. */
  class Store {
    var tables: map<string, seq<Item>>
    /** How many `put_item` calls the store has received. */
    var putCount: nat

    constructor (tables: map<string, seq<Item>>)
      ensures this.tables == tables && putCount == 0
    {
      this.tables := tables;
      putCount := 0;
    }

    /** `Table(name).put_item(Item=item)` for the record stored at `slot`:
        that record is overwritten, every other record of every table is
        left as it was. */
    method PutItem(name: string, slot: nat, item: Item)
      requires name in tables && slot < |tables[name]|
      modifies this
      ensures tables == old(tables)[name := old(tables)[name][slot := item]]
      ensures putCount == old(putCount) + 1
    {
      tables := tables[name := tables[name][slot := item]];
      putCount := putCount + 1;
    }
  }
}
