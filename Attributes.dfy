/** The attribute table of a tag-helper output and the way generated attributes
    are copied into it: a dictionary from attribute name to value, keyed by
    exact string equality, to which a generated attribute is added only when
    the table does not already hold that name. */
module Attributes {

  type AttributeTable = map<string, string>

  /** The names an enumeration visits. */
  function Visited(order: seq<string>): set<string> {
    set i | 0 <= i < |order| :: order[i]
  }

  lemma VisitedSnoc(order: seq<string>, key: string)
    ensures Visited(order + [key]) == Visited(order) + {key}
  {
    var longer := order + [key];
    assert longer[|order|] == key;
    forall k | k in Visited(order) ensures k in Visited(longer) {
      var i :| 0 <= i < |order| && order[i] == k;
      assert longer[i] == k;
    }
  }

  /** The entries of `m` whose names are in `names`. */
  function Restrict(m: AttributeTable, names: set<string>): (r: AttributeTable)
    ensures r.Keys == m.Keys * names
    ensures forall k :: k in r ==> r[k] == m[k]
  {
    map k | k in m && k in names :: m[k]
  }

  /** One pass of the copy loop: `Add` the attribute only when the name is
      not yet in the table, so `Add` never meets a duplicate name. */
  function AddIfAbsent(attrs: AttributeTable, key: string, value: string): (r: AttributeTable)
    ensures r.Keys == attrs.Keys + {key}
    ensures key in attrs ==> r == attrs
    ensures key !in attrs ==> r[key] == value
    ensures forall k :: k in attrs ==> r[k] == attrs[k]
  {
    if key in attrs then attrs else attrs[key := value]
  }

  /** The copy loop run over the generated attributes in the enumeration
      order `order` (names of `generated`, in the order the dictionary yields
      them). */
  function AddAll(attrs: AttributeTable, generated: AttributeTable, order: seq<string>): (r: AttributeTable)
    requires forall i :: 0 <= i < |order| ==> order[i] in generated
    ensures r.Keys == attrs.Keys + Visited(order)
    ensures forall k :: k in attrs ==> r[k] == attrs[k]
    decreases |order|
  {
    if order == [] then attrs
    else
      var prefix, last := order[..|order| - 1], order[|order| - 1];
      assert Visited(order) == Visited(prefix) + {last} by {
        assert order == prefix + [last];
      }
      AddIfAbsent(AddAll(attrs, generated, prefix), last, generated[last])
  }

  /** The order-free meaning of the copy: every attribute already in
      `existing` keeps its value, every other generated attribute is added
      with its generated value, and nothing is removed. */
  function Merge(existing: AttributeTable, generated: AttributeTable): (r: AttributeTable)
    ensures r.Keys == existing.Keys + generated.Keys
    ensures forall k :: k in existing ==> r[k] == existing[k]
    ensures forall k :: k in generated && k !in existing ==> r[k] == generated[k]
  {
    generated + existing
  }

  /** The three properties of Merge determine it: any table with them is Merge. */
  lemma MergeIsUnique(existing: AttributeTable, generated: AttributeTable, r: AttributeTable)
    requires r.Keys == existing.Keys + generated.Keys
    requires forall k :: k in existing ==> r[k] == existing[k]
    requires forall k :: k in generated && k !in existing ==> r[k] == generated[k]
    ensures r == Merge(existing, generated)
  {
  }

  /** After copying the names of `order`, the table is the original one
      merged with exactly the generated attributes visited so far, whatever
      the order and even when a name is visited twice. */
  lemma {:induction false} AddAllIsMerge(attrs: AttributeTable, generated: AttributeTable, order: seq<string>)
    requires forall i :: 0 <= i < |order| ==> order[i] in generated
    ensures AddAll(attrs, generated, order) == Merge(attrs, Restrict(generated, Visited(order)))
    decreases |order|
  {
    if order == [] {
      assert Restrict(generated, Visited(order)) == map[];
    } else {
      var prefix, last := order[..|order| - 1], order[|order| - 1];
      assert order == prefix + [last];
      assert Visited(order) == Visited(prefix) + {last};
      AddAllIsMerge(attrs, generated, prefix);
      var before := Merge(attrs, Restrict(generated, Visited(prefix)));
      var after := AddIfAbsent(before, last, generated[last]);
      assert after.Keys == attrs.Keys + Restrict(generated, Visited(order)).Keys;
      MergeIsUnique(attrs, Restrict(generated, Visited(order)), after);
    }
  }

  /** A loop that visits every generated name yields Merge, so the result
      does not depend on the dictionary's enumeration order. */
  lemma EveryEnumerationGivesMerge(attrs: AttributeTable, generated: AttributeTable, order: seq<string>)
    requires forall i :: 0 <= i < |order| ==> order[i] in generated
    requires generated.Keys <= Visited(order)
    ensures AddAll(attrs, generated, order) == Merge(attrs, generated)
  {
    AddAllIsMerge(attrs, generated, order);
    assert Restrict(generated, Visited(order)) == generated;
  }

  /** Copying the same generated attributes a second time changes nothing. */
  lemma MergeIsIdempotent(existing: AttributeTable, generated: AttributeTable)
    ensures Merge(Merge(existing, generated), generated) == Merge(existing, generated)
  {
  }
}
