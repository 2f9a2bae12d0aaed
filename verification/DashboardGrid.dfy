// The layout that was built, as the overlap check reads it back.
module DashboardGrid {
  import opened Wrappers
  import opened JsonTree
  import opened GridLayout
  import opened DashboardTree

  // ---------------------------------------------------------------- reading

  // j[key], where it is there.
  function Member(j: Json, key: string): Option<Json> {
    if j.Obj? && Field(j.fields, key) != [] then Some(Field(j.fields, key)[0]) else None
  }

  // j[keys[0]][keys[1]] and so on.
  function Path(j: Json, keys: seq<string>): Option<Json>
    decreases |keys|
  {
    if keys == [] then Some(j)
    else if Member(j, keys[0]).None? then None
    else Path(Member(j, keys[0]).value, keys[1..])
  }

  function IntAt(j: Json, keys: seq<string>): Option<int> {
    var found := Path(j, keys);
    if found.Some? && found.value.Int? then Some(found.value.n) else None
  }

  function TextAt(j: Json, keys: seq<string>): Option<string> {
    var found := Path(j, keys);
    if found.Some? && found.value.Str? then Some(found.value.s) else None
  }

  function ListAt(j: Json, keys: seq<string>): Option<seq<Json>> {
    var found := Path(j, keys);
    if found.Some? && found.value.Arr? then Some(found.value.items) else None
  }

  function ReadItem(item: Json): Option<Placed> {
    var x, y := IntAt(item, ["spec", "x"]), IntAt(item, ["spec", "y"]);
    var width, height := IntAt(item, ["spec", "width"]), IntAt(item, ["spec", "height"]);
    var name := TextAt(item, ["spec", "element", "name"]);
    if x.Some? && y.Some? && width.Some? && height.Some? && name.Some?
    then Some(Placed(x.value, y.value, width.value, height.value, name.value)) else None
  }

  function ReadAll<T>(list: seq<Json>, read: Json -> Option<T>): Option<seq<T>> {
    if list == [] then Some([])
    else
      match (read(list[0]), ReadAll(list[1..], read))
      case (Some(first), Some(rest)) => Some([first] + rest)
      case _ => None
  }

  function ReadRow(row: Json): Option<seq<Placed>> {
    match ListAt(row, ["spec", "layout", "spec", "items"])
    case None => None
    case Some(items) => ReadAll(items, ReadItem)
  }

  function ReadTab(tab: Json): Option<TabGrid> {
    match (TextAt(tab, ["spec", "title"]), ListAt(tab, ["spec", "layout", "spec", "rows"]))
    case (Some(title), Some(rows)) =>
      (match ReadAll(rows, ReadRow)
       case Some(items) => Some(TabGrid(title, items))
       case None => None)
    case _ => None
  }

  function ReadLayout(layout: Json): Option<seq<TabGrid>> {
    match (TextAt(layout, ["kind"]), ListAt(layout, ["spec", "tabs"]))
    case (Some("TabsLayout"), Some(tabs)) => ReadAll(tabs, ReadTab)
    case _ => None
  }

  // ---------------------------------------------------------------- what was built reads back

  lemma FieldHit(first: Entry, rest: seq<Entry>)
    ensures Field([first] + rest, first.key) == [first.value]
  {
  }

  lemma Unlike(a: string, b: string)
    requires |a| != |b| || (a != "" && a[0] != b[0])
    ensures a != b
  {
  }

  // The second field of a kinded object.
  lemma SecondOf(kind: string, second: string, j: Json)
    requires |second| != 4 || second[0] != 'k'
    ensures Member(Kind(kind, second, j), second) == Some(j)
  {
    var fields := [Entry("kind", Str(kind)), Entry(second, j)];
    assert |"kind"| == 4 && "kind"[0] == 'k';
    Unlike("kind", second);
    assert fields[1..] == [Entry(second, j)];
    assert Field(fields[1..], second) == [j];
  }

  // The last field of a nest whose leaves have other keys.
  lemma {:induction false} LastOf(leaves: seq<Entry>, key: string, j: Json)
    requires forall e | e in leaves :: e.key != key
    ensures Member(Nest(leaves, key, j), key) == Some(j)
    decreases |leaves|
  {
    var fields := leaves + [Entry(key, j)];
    if leaves != [] {
      assert leaves[0] in leaves && forall e | e in leaves[1..] :: e in leaves;
      assert fields[1..] == leaves[1..] + [Entry(key, j)];
      LastOf(leaves[1..], key, j);
    }
  }

  // A leaf of a nest, no earlier one having its key.
  lemma {:induction false} LeafOf(leaves: seq<Entry>, i: nat, key: string, j: Json)
    requires i < |leaves| && forall k | 0 <= k < i :: leaves[k].key != leaves[i].key
    ensures Member(Nest(leaves, key, j), leaves[i].key) == Some(leaves[i].value)
    decreases |leaves|
  {
    var fields := leaves + [Entry(key, j)];
    if i > 0 {
      assert fields[1..] == leaves[1..] + [Entry(key, j)] && leaves[0].key != leaves[i].key;
      LeafOf(leaves[1..], i - 1, key, j);
    }
  }

  lemma OneStep(j: Json, key: string)
    ensures Path(j, [key]) == Member(j, key)
  {
    assert [key][1..] == [];
    if Member(j, key).Some? {
      assert Path(Member(j, key).value, []) == Member(j, key);
    }
  }

  lemma Steps(j: Json, key: string, keys: seq<string>, inner: Json)
    requires Member(j, key) == Some(inner)
    ensures Path(j, [key] + keys) == Path(inner, keys)
  {
    assert ([key] + keys)[1..] == keys;
  }

  // What lies under the spec of a kinded object.
  lemma UnderSpec(kind: string, body: Json, keys: seq<string>)
    ensures Path(Kind(kind, "spec", body), ["spec"] + keys) == Path(body, keys)
  {
    SecondOf(kind, "spec", body);
    Steps(Kind(kind, "spec", body), "spec", keys, body);
  }

  lemma ItemReads(p: Placed)
    ensures ReadItem(ItemJson(p)) == Some(p)
  {
    var element := Kind("ElementReference", "name", Str(p.name));
    var leaves := [Entry("x", Int(p.x)), Entry("y", Int(p.y)), Entry("width", Int(p.width)), Entry("height", Int(p.height))];
    var body := Nest(leaves, "element", element);
    LeafReads(p, leaves, body, 0, p.x);
    LeafReads(p, leaves, body, 1, p.y);
    LeafReads(p, leaves, body, 2, p.width);
    LeafReads(p, leaves, body, 3, p.height);
    NameReads(p, leaves, body, element);
  }

  lemma LeafReads(p: Placed, leaves: seq<Entry>, body: Json, i: nat, n: int)
    requires leaves == [Entry("x", Int(p.x)), Entry("y", Int(p.y)), Entry("width", Int(p.width)), Entry("height", Int(p.height))]
    requires body == Nest(leaves, "element", Kind("ElementReference", "name", Str(p.name)))
    requires i < 4 && leaves[i].value == Int(n)
    ensures IntAt(ItemJson(p), ["spec", leaves[i].key]) == Some(n)
  {
    assert "x"[0] == 'x' && "y"[0] == 'y' && |"x"| == 1 && |"y"| == 1 && |"width"| == 5 && |"height"| == 6;
    LeafOf(leaves, i, "element", Kind("ElementReference", "name", Str(p.name)));
    OneStep(body, leaves[i].key);
    UnderSpec("GridLayoutItem", body, [leaves[i].key]);
    assert ["spec"] + [leaves[i].key] == ["spec", leaves[i].key];
  }

  lemma NameReads(p: Placed, leaves: seq<Entry>, body: Json, element: Json)
    requires leaves == [Entry("x", Int(p.x)), Entry("y", Int(p.y)), Entry("width", Int(p.width)), Entry("height", Int(p.height))]
    requires element == Kind("ElementReference", "name", Str(p.name)) && body == Nest(leaves, "element", element)
    ensures TextAt(ItemJson(p), ["spec", "element", "name"]) == Some(p.name)
  {
    assert |"element"| == 7 && |"x"| == 1 && |"y"| == 1 && |"width"| == 5 && |"height"| == 6;
    LastOf(leaves, "element", element);
    SecondOf("ElementReference", "name", Str(p.name));
    OneStep(element, "name");
    Steps(body, "element", ["name"], element);
    UnderSpec("GridLayoutItem", body, ["element"] + ["name"]);
    assert ["spec"] + (["element"] + ["name"]) == ["spec", "element", "name"];
  }

  lemma {:induction false} ItemsRead(items: seq<Placed>)
    ensures ReadAll(ItemsJson(items), ReadItem) == Some(items)
    decreases |items|
  {
    if items != [] {
      ItemReads(items[0]);
      ItemsRead(items[1..]);
      assert ItemsJson(items)[1..] == ItemsJson(items[1..]);
      assert [items[0]] + items[1..] == items;
    }
  }

  lemma RowReads(title: string, items: seq<Placed>)
    ensures ReadRow(RowJson(title, GridJson(items))) == Some(items)
  {
    var leaves := [Entry("title", Str(title)), Entry("collapse", Bool(false)), Entry("hideHeader", Bool(true))];
    var list, inner := Arr(ItemsJson(items)), Nest([], "items", Arr(ItemsJson(items)));
    assert |"title"| == 5 && |"collapse"| == 8 && |"hideHeader"| == 10 && |"layout"| == 6;
    LastOf([], "items", list);
    OneStep(inner, "items");
    UnderSpec("GridLayout", inner, ["items"]);
    LastOf(leaves, "layout", GridJson(items));
    Steps(Nest(leaves, "layout", GridJson(items)), "layout", ["spec"] + ["items"], GridJson(items));
    UnderSpec("RowsLayoutRow", Nest(leaves, "layout", GridJson(items)), ["layout"] + (["spec"] + ["items"]));
    assert ["spec"] + (["layout"] + (["spec"] + ["items"])) == ["spec", "layout", "spec", "items"];
    ItemsRead(items);
  }

  lemma TabReads(title: string, items: seq<Placed>)
    ensures ReadTab(TabJson(title, items)) == Some(TabGrid(title, [items]))
  {
    var row := RowJson(title, GridJson(items));
    var inner := Nest([], "rows", Arr([row]));
    var rows := Kind("RowsLayout", "spec", inner);
    var leaves := [Entry("title", Str(title))];
    var body := Nest(leaves, "layout", rows);
    TabTitle(title, body, rows);
    LastOf([], "rows", Arr([row]));
    OneStep(inner, "rows");
    UnderSpec("RowsLayout", inner, ["rows"]);
    assert |"title"| == 5 && |"layout"| == 6;
    LastOf(leaves, "layout", rows);
    Steps(body, "layout", ["spec"] + ["rows"], rows);
    UnderSpec("TabsLayoutTab", body, ["layout"] + (["spec"] + ["rows"]));
    assert ["spec"] + (["layout"] + (["spec"] + ["rows"])) == ["spec", "layout", "spec", "rows"];
    RowReads(title, items);
    OneRead(row, ReadRow, items);
  }

  lemma TabTitle(title: string, body: Json, rows: Json)
    requires body == Nest([Entry("title", Str(title))], "layout", rows)
    ensures TextAt(Kind("TabsLayoutTab", "spec", body), ["spec", "title"]) == Some(title)
  {
    LeafOf([Entry("title", Str(title))], 0, "layout", rows);
    OneStep(body, "title");
    UnderSpec("TabsLayoutTab", body, ["title"]);
    assert ["spec"] + ["title"] == ["spec", "title"];
  }

  lemma OneRead<T>(j: Json, read: Json -> Option<T>, x: T)
    requires read(j) == Some(x)
    ensures ReadAll([j], read) == Some([x])
  {
    assert [j][1..] == [] && [x] + [] == [x];
    assert ReadAll([j][1..], read) == Some([]);
  }

  function Grids(tabs: seq<Tab>): seq<TabGrid> {
    if tabs == [] then [] else [TabGrid(tabs[0].title, [tabs[0].items])] + Grids(tabs[1..])
  }

  lemma {:induction false} TabsRead(tabs: seq<Tab>)
    ensures ReadAll(TabsJson(tabs), ReadTab) == Some(Grids(tabs))
    decreases |tabs|
  {
    if tabs != [] {
      TabReads(tabs[0].title, tabs[0].items);
      TabsRead(tabs[1..]);
      assert TabsJson(tabs)[1..] == TabsJson(tabs[1..]);
    }
  }

  // The layout of any tabs reads back as these tabs, each with its panels in place.
  lemma LayoutReads(tabs: seq<Tab>)
    ensures ReadLayout(LayoutJson(tabs)) == Some(Grids(tabs))
  {
    var inner := Nest([], "tabs", Arr(TabsJson(tabs)));
    LastOf([], "tabs", Arr(TabsJson(tabs)));
    OneStep(inner, "tabs");
    UnderSpec("TabsLayout", inner, ["tabs"]);
    assert ["spec"] + ["tabs"] == ["spec", "tabs"];
    OneStep(LayoutJson(tabs), "kind");
    FieldHit(Entry("kind", Str("TabsLayout")), [Entry("spec", inner)]);
    assert [Entry("kind", Str("TabsLayout"))] + [Entry("spec", inner)] == [Entry("kind", Str("TabsLayout")), Entry("spec", inner)];
    TabsRead(tabs);
  }

  // ---------------------------------------------------------------- the check of what was built

  lemma {:induction false} GridsAt(tabs: seq<Tab>)
    ensures |Grids(tabs)| == |tabs| && forall i | 0 <= i < |tabs| :: Grids(tabs)[i] == TabGrid(tabs[i].title, [tabs[i].items])
    decreases |tabs|
  {
    if tabs != [] {
      GridsAt(tabs[1..]);
    }
  }

  lemma FlatOne(items: seq<Placed>)
    ensures Flat([items]) == items
  {
    assert [items][..0] == [] && Flat([]) == [];
  }

  // Checked as it was written, a layout with distinct titles passes exactly when on every tab the
  // panels lie inside the grid and share no cell.
  method ValidateLayout(tabs: seq<Tab>) returns (ok: bool)
    requires forall i, j | 0 <= i < j < |tabs| :: tabs[i].title != tabs[j].title
    ensures ok <==> forall t | t in tabs :: Accepted(t.items)
  {
    LayoutReads(tabs);
    var read := ReadLayout(LayoutJson(tabs));
    ok := ValidateTabs(read.value);
    GridsAt(tabs);
    forall i | 0 <= i < |tabs| ensures Flat(read.value[i].rows) == tabs[i].items && read.value[i] in read.value {
      FlatOne(tabs[i].items);
    }
  }
}
