// The dashboard builder and the reference collector that checks what it built.
module DashboardTree {
  import opened JsonTree
  import opened GridLayout

  // ---------------------------------------------------------------- layout_refs

  function Field(fields: seq<Entry>, key: string): seq<Json> {
    if fields == [] then []
    else if fields[0].key == key then [fields[0].value]
    else Field(fields[1..], key)
  }

  function OwnRef(fields: seq<Entry>): seq<string> {
    var name := Field(fields, "name");
    if Field(fields, "kind") == [Str("ElementReference")] && |name| == 1 && name[0].Str? then [name[0].s] else []
  }

  function Refs(j: Json): seq<string> {
    match j
    case Obj(fields) => OwnRef(fields) + RefsOfFields(fields)
    case Arr(items) => RefsOfItems(items)
    case _ => []
  }

  function RefsOfFields(fields: seq<Entry>): seq<string> {
    if fields == [] then [] else Refs(fields[0].value) + RefsOfFields(fields[1..])
  }

  function RefsOfItems(items: seq<Json>): seq<string> {
    if items == [] then [] else Refs(items[0]) + RefsOfItems(items[1..])
  }

  // ---------------------------------------------------------------- the tree that is built

  function Kind(kind: string, second: string, j: Json): Json {
    Obj([Entry("kind", Str(kind)), Entry(second, j)])
  }

  // An object whose last field holds the nested part and whose other fields are leaves.
  function Nest(leaves: seq<Entry>, key: string, j: Json): Json {
    Obj(leaves + [Entry(key, j)])
  }

  function ItemJson(p: Placed): Json {
    var element := Kind("ElementReference", "name", Str(p.name));
    var leaves := [Entry("x", Int(p.x)), Entry("y", Int(p.y)), Entry("width", Int(p.width)), Entry("height", Int(p.height))];
    Kind("GridLayoutItem", "spec", Nest(leaves, "element", element))
  }

  function ItemsJson(items: seq<Placed>): seq<Json> {
    if items == [] then [] else [ItemJson(items[0])] + ItemsJson(items[1..])
  }

  function GridJson(items: seq<Placed>): Json {
    Kind("GridLayout", "spec", Nest([], "items", Arr(ItemsJson(items))))
  }

  function RowJson(title: string, grid: Json): Json {
    var leaves := [Entry("title", Str(title)), Entry("collapse", Bool(false)), Entry("hideHeader", Bool(true))];
    Kind("RowsLayoutRow", "spec", Nest(leaves, "layout", grid))
  }

  function TabJson(title: string, items: seq<Placed>): Json {
    var rows := Kind("RowsLayout", "spec", Nest([], "rows", Arr([RowJson(title, GridJson(items))])));
    Kind("TabsLayoutTab", "spec", Nest([Entry("title", Str(title))], "layout", rows))
  }

  datatype Tab = Tab(title: string, items: seq<Placed>)

  function TabsJson(tabs: seq<Tab>): seq<Json> {
    if tabs == [] then [] else [TabJson(tabs[0].title, tabs[0].items)] + TabsJson(tabs[1..])
  }

  function LayoutJson(tabs: seq<Tab>): Json {
    Kind("TabsLayout", "spec", Nest([], "tabs", Arr(TabsJson(tabs))))
  }

  function Names(items: seq<Placed>): seq<string> {
    if items == [] then [] else [items[0].name] + Names(items[1..])
  }

  function AllNames(lists: seq<seq<Placed>>): seq<string> {
    if lists == [] then [] else Names(lists[0]) + AllNames(lists[1..])
  }

  function ItemsOf(tabs: seq<Tab>): seq<seq<Placed>> {
    if tabs == [] then [] else [tabs[0].items] + ItemsOf(tabs[1..])
  }

  // ---------------------------------------------------------------- collecting references

  lemma RefsOfOne(fields: seq<Entry>, key: string, j: Json)
    requires fields == [Entry(key, j)]
    ensures RefsOfFields(fields) == Refs(j)
  {
    assert fields[1..] == [];
    assert Refs(j) + [] == Refs(j);
  }

  lemma RefsOfFieldsCons(f: Entry, rest: seq<Entry>)
    ensures RefsOfFields([f] + rest) == Refs(f.value) + RefsOfFields(rest)
  {
    assert ([f] + rest)[1..] == rest;
  }

  // A two-field object {"kind": k, second: j} that is not itself a reference.
  lemma RefsOfKind(k: string, second: string, j: Json)
    requires k != "ElementReference"
    ensures Refs(Kind(k, second, j)) == Refs(j)
  {
    var fields := [Entry("kind", Str(k)), Entry(second, j)];
    assert Field(fields, "kind") == [Str(k)];
    assert fields == [Entry("kind", Str(k))] + [Entry(second, j)];
    RefsOfFieldsCons(Entry("kind", Str(k)), [Entry(second, j)]);
    RefsOfOne([Entry(second, j)], second, j);
    assert [] + Refs(j) == Refs(j);
  }

  lemma RefsOfReference(name: string)
    ensures Refs(Kind("ElementReference", "name", Str(name))) == [name]
  {
    var fields := [Entry("kind", Str("ElementReference")), Entry("name", Str(name))];
    assert fields[1..] == [Entry("name", Str(name))];
    assert Field(fields, "name") == Field(fields[1..], "name") == [Str(name)];
    RefsOfFieldsCons(Entry("kind", Str("ElementReference")), [Entry("name", Str(name))]);
    RefsOfOne([Entry("name", Str(name))], "name", Str(name));
    assert fields == [Entry("kind", Str("ElementReference"))] + [Entry("name", Str(name))];
  }

  lemma FieldAbsent(fields: seq<Entry>, key: string)
    requires forall f | f in fields :: f.key != key
    ensures Field(fields, key) == []
  {
    if fields != [] {
      assert forall f | f in fields[1..] :: f in fields;
      FieldAbsent(fields[1..], key);
    }
  }

  // An object without a "kind" field collects the references of its fields; leaves add none.
  lemma RefsOfPlain(leaves: seq<Entry>, key: string, j: Json)
    requires forall f | f in leaves :: f.key != "kind" && !f.value.Obj? && !f.value.Arr?
    requires key != "kind"
    ensures Refs(Nest(leaves, key, j)) == Refs(j)
  {
    var fields := leaves + [Entry(key, j)];
    FieldAbsent(fields, "kind");
    LeavesAddNothing(leaves, key, j);
    assert [] + RefsOfFields(fields) == RefsOfFields(fields);
  }

  lemma {:induction false} LeavesAddNothing(leaves: seq<Entry>, key: string, j: Json)
    requires forall f | f in leaves :: !f.value.Obj? && !f.value.Arr?
    ensures RefsOfFields(leaves + [Entry(key, j)]) == Refs(j)
    decreases |leaves|
  {
    if leaves == [] {
      assert leaves + [Entry(key, j)] == [Entry(key, j)];
      RefsOfOne([Entry(key, j)], key, j);
    } else {
      assert leaves[0] in leaves && forall f | f in leaves[1..] :: f in leaves;
      LeavesAddNothing(leaves[1..], key, j);
      assert leaves + [Entry(key, j)] == [leaves[0]] + (leaves[1..] + [Entry(key, j)]);
      RefsOfFieldsCons(leaves[0], leaves[1..] + [Entry(key, j)]);
      assert [] + Refs(j) == Refs(j);
    }
  }

  lemma RefsOfItem(p: Placed)
    ensures Refs(ItemJson(p)) == [p.name]
  {
    var element := Kind("ElementReference", "name", Str(p.name));
    var leaves := [Entry("x", Int(p.x)), Entry("y", Int(p.y)), Entry("width", Int(p.width)), Entry("height", Int(p.height))];
    RefsOfReference(p.name);
    RefsOfPlain(leaves, "element", element);
    RefsOfKind("GridLayoutItem", "spec", Nest(leaves, "element", element));
  }

  lemma {:induction false} RefsOfGrid(items: seq<Placed>)
    ensures RefsOfItems(ItemsJson(items)) == Names(items)
    decreases |items|
  {
    if items != [] {
      RefsOfItem(items[0]);
      RefsOfGrid(items[1..]);
      assert ItemsJson(items)[1..] == ItemsJson(items[1..]);
    }
  }

  lemma RefsOfSingle(j: Json)
    ensures RefsOfItems([j]) == Refs(j)
  {
    assert [j][1..] == [];
    assert Refs(j) + [] == Refs(j);
  }

  lemma RefsOfNested(kind: string, leaves: seq<Entry>, key: string, j: Json)
    requires kind != "ElementReference" && key != "kind"
    requires forall f | f in leaves :: f.key != "kind" && !f.value.Obj? && !f.value.Arr?
    ensures Refs(Kind(kind, "spec", Nest(leaves, key, j))) == Refs(j)
  {
    RefsOfPlain(leaves, key, j);
    RefsOfKind(kind, "spec", Nest(leaves, key, j));
  }

  lemma RefsOfRow(title: string, grid: Json)
    ensures Refs(RowJson(title, grid)) == Refs(grid)
  {
    var leaves := [Entry("title", Str(title)), Entry("collapse", Bool(false)), Entry("hideHeader", Bool(true))];
    RefsOfNested("RowsLayoutRow", leaves, "layout", grid);
  }

  lemma RefsOfRows(title: string, row: Json)
    ensures Refs(Kind("TabsLayoutTab", "spec",
                      Nest([Entry("title", Str(title))], "layout", Kind("RowsLayout", "spec", Nest([], "rows", Arr([row]))))))
            == Refs(row)
  {
    RefsOfSingle(row);
    RefsOfNested("RowsLayout", [], "rows", Arr([row]));
    RefsOfNested("TabsLayoutTab", [Entry("title", Str(title))], "layout", Kind("RowsLayout", "spec", Nest([], "rows", Arr([row]))));
  }

  lemma RefsOfGridJson(items: seq<Placed>)
    ensures Refs(GridJson(items)) == Names(items)
  {
    RefsOfGrid(items);
    RefsOfNested("GridLayout", [], "items", Arr(ItemsJson(items)));
  }

  lemma RefsOfTab(title: string, items: seq<Placed>)
    ensures Refs(TabJson(title, items)) == Names(items)
  {
    RefsOfGridJson(items);
    RefsOfRow(title, GridJson(items));
    RefsOfRows(title, RowJson(title, GridJson(items)));
  }

  lemma {:induction false} RefsOfTabs(tabs: seq<Tab>)
    ensures RefsOfItems(TabsJson(tabs)) == AllNames(ItemsOf(tabs))
    decreases |tabs|
  {
    if tabs != [] {
      RefsOfTab(tabs[0].title, tabs[0].items);
      RefsOfTabs(tabs[1..]);
      assert TabsJson(tabs)[1..] == TabsJson(tabs[1..]);
      assert ItemsOf(tabs)[1..] == ItemsOf(tabs[1..]);
    }
  }

  // The collector finds exactly the placed names, in tab order, whatever the titles are.
  lemma RefsOfLayout(tabs: seq<Tab>)
    ensures Refs(LayoutJson(tabs)) == AllNames(ItemsOf(tabs))
  {
    RefsOfTabs(tabs);
    RefsOfNested("TabsLayout", [], "tabs", Arr(TabsJson(tabs)));
  }

  // ---------------------------------------------------------------- the builder

  class ItemList {
    var items: seq<Placed>

    constructor ()
      ensures items == []
    {
      items := [];
    }
  }

  ghost function Contents(lists: seq<ItemList>): seq<seq<Placed>>
    reads lists
  {
    if lists == [] then [] else [lists[0].items] + Contents(lists[1..])
  }

  ghost predicate Distinct(lists: seq<ItemList>) {
    forall i, j | 0 <= i < j < |lists| :: lists[i] != lists[j]
  }

  lemma {:induction false} NamesAppend(items: seq<Placed>, p: Placed)
    ensures Names(items + [p]) == Names(items) + [p.name]
    decreases |items|
  {
    if items == [] {
      assert items + [p] == [p] && [p][1..] == [];
    } else {
      NamesAppend(items[1..], p);
      assert (items + [p])[1..] == items[1..] + [p];
    }
  }

  lemma {:induction false} AllNamesAppend(before: seq<seq<Placed>>, after: seq<seq<Placed>>, i: nat, p: Placed)
    requires |before| == |after| && i < |before|
    requires forall j | 0 <= j < |before| && j != i :: after[j] == before[j]
    requires after[i] == before[i] + [p]
    ensures multiset(AllNames(after)) == multiset(AllNames(before)) + multiset{p.name}
    decreases |before|
  {
    if i == 0 {
      assert after[1..] == before[1..];
      NamesAppend(before[0], p);
    } else {
      AllNamesAppend(before[1..], after[1..], i - 1, p);
    }
  }

  lemma KeysGrow(before: seq<seq<Placed>>, after: seq<seq<Placed>>, keys: set<string>, i: nat, p: Placed)
    requires |before| == |after| && i < |before|
    requires forall j | 0 <= j < |before| && j != i :: after[j] == before[j]
    requires after[i] == before[i] + [p]
    requires multiset(AllNames(before)) == multiset(keys) && p.name !in keys
    ensures multiset(AllNames(after)) == multiset(keys + {p.name})
  {
    AllNamesAppend(before, after, i, p);
    assert multiset(keys + {p.name}) == multiset(keys) + multiset{p.name};
  }

  class DashboardBuilder<Element(!new)> {
    var elements: map<string, Element>

    constructor ()
      ensures elements == map[]
    {
      elements := map[];
    }

    // Every key of the builder is placed exactly once in the item lists, and nothing else is.
    ghost predicate Tracks(lists: seq<ItemList>)
      reads this, lists
    {
      Distinct(lists) && multiset(AllNames(Contents(lists))) == multiset(elements.Keys)
    }

    // False stands for the AssertionError on a duplicate key.
    method Add(tab: ItemList, key: string, element: Element, x: int, y: int, width: int, height: int, ghost lists: seq<ItemList>)
      returns (added: bool)
      requires tab in lists && Tracks(lists)
      modifies this, tab
      ensures added <==> key !in old(elements)
      ensures elements == if added then old(elements)[key := element] else old(elements)
      ensures added ==> elements.Keys == old(elements.Keys) + {key}
      ensures tab.items == if added then old(tab.items) + [Placed(x, y, width, height, key)] else old(tab.items)
      ensures Tracks(lists)
    {
      if key in elements {
        return false;
      }
      ghost var i :| 0 <= i < |lists| && lists[i] == tab;
      ghost var before := Contents(lists);
      ContentsAt(lists);
      assert forall j | 0 <= j < |lists| :: before[j] == lists[j].items;
      elements := elements[key := element];
      tab.items := tab.items + [Placed(x, y, width, height, key)];
      added := true;
      ContentsAt(lists);
      assert forall j | 0 <= j < |lists| && j != i :: lists[j] != tab;
      KeysGrow(before, Contents(lists), old(elements.Keys), i, Placed(x, y, width, height, key));
      assert elements.Keys == old(elements.Keys) + {key};
    }
  }

  lemma {:induction false} ContentsAt(lists: seq<ItemList>)
    ensures |Contents(lists)| == |lists|
    ensures forall j | 0 <= j < |lists| :: Contents(lists)[j] == lists[j].items
    decreases |lists|
  {
    if lists != [] {
      ContentsAt(lists[1..]);
    }
  }

  ghost predicate NoRepeats(names: seq<string>) {
    forall i, j | 0 <= i < j < |names| :: names[i] != names[j]
  }

  lemma RepeatCountsTwice(names: seq<string>, i: nat, j: nat)
    requires i < j < |names|
    ensures names[i] == names[j] ==> multiset(names)[names[i]] >= 2
  {
    assert names == names[..i] + [names[i]] + names[i + 1..j] + [names[j]] + names[j + 1..];
  }

  lemma OncePerKey(names: seq<string>, keys: set<string>)
    requires multiset(names) == multiset(keys)
    ensures NoRepeats(names) && (set n | n in names) == keys
  {
    forall i, j | 0 <= i < j < |names| ensures names[i] != names[j] {
      RepeatCountsTwice(names, i, j);
    }
    forall n ensures n in names <==> n in keys {
      assert n in names <==> n in multiset(names);
    }
  }

  // Wrapping each tracked list in one tab gives a layout whose references are the builder's keys,
  // each once: what validate_dashboard asserts of refs and elements.
  lemma BuilderAndCollectorAgree(tabs: seq<Tab>, keys: set<string>)
    requires multiset(AllNames(ItemsOf(tabs))) == multiset(keys)
    ensures NoRepeats(Refs(LayoutJson(tabs))) && (set n | n in Refs(LayoutJson(tabs))) == keys
  {
    RefsOfLayout(tabs);
    OncePerKey(AllNames(ItemsOf(tabs)), keys);
  }
}
