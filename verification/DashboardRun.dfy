// Whole runs of the dashboard builder: any sequence of additions to any number of tabs, then one
// tab around each list, then the reference collector over the finished layout.
module DashboardRun {
  import opened GridLayout
  import opened DashboardTree

  // One call of add: the tab's number, the keyed element and its place.
  datatype Step<Element> = Step(tab: nat, key: string, element: Element, x: int, y: int, width: int, height: int)

  ghost predicate FitsTabs<Element>(steps: seq<Step<Element>>, tabs: nat) {
    forall s | s in steps :: s.tab < tabs
  }

  // The panels placed in one tab, in the order of the calls.
  function PlacedIn<Element>(steps: seq<Step<Element>>, t: nat): seq<Placed> {
    if steps == [] then []
    else
      var before, s := PlacedIn(steps[..|steps| - 1], t), steps[|steps| - 1];
      if s.tab == t then before + [Place(s)] else before
  }

  function KeysOf<Element>(steps: seq<Step<Element>>): set<string> {
    if steps == [] then {} else KeysOf(steps[..|steps| - 1]) + {steps[|steps| - 1].key}
  }

  lemma {:induction false} KeyAt<Element>(steps: seq<Step<Element>>, key: string)
    ensures key in KeysOf(steps) <==> exists i | 0 <= i < |steps| :: steps[i].key == key
    decreases |steps|
  {
    if steps != [] {
      var before := steps[..|steps| - 1];
      KeyAt(before, key);
      if i :| 0 <= i < |steps| && steps[i].key == key {
        assert i < |before| ==> before[i] == steps[i];
      }
    }
  }

  ghost predicate DistinctKeys<Element>(steps: seq<Step<Element>>) {
    forall i, j | 0 <= i < j < |steps| :: steps[i].key != steps[j].key
  }

  lemma {:induction false} NothingPlaced(lists: seq<ItemList>)
    requires forall l | l in lists :: l.items == []
    ensures AllNames(Contents(lists)) == []
    decreases |lists|
  {
    if lists != [] {
      assert lists[0] in lists && forall l | l in lists[1..] :: l in lists;
      NothingPlaced(lists[1..]);
      assert Contents(lists)[1..] == Contents(lists[1..]);
    }
  }

  lemma {:induction false} SameContents(tabs: seq<Tab>, lists: seq<ItemList>)
    requires |tabs| == |lists| && forall t | 0 <= t < |tabs| :: tabs[t].items == lists[t].items
    ensures ItemsOf(tabs) == Contents(lists)
    decreases |tabs|
  {
    if tabs != [] {
      SameContents(tabs[1..], lists[1..]);
    }
  }

  method EmptyLists(n: nat) returns (lists: seq<ItemList>)
    ensures |lists| == n && Distinct(lists)
    ensures fresh(lists) && forall l | l in lists :: l.items == []
  {
    lists := [];
    for i := 0 to n
      invariant |lists| == i && Distinct(lists)
      invariant fresh(lists) && forall l | l in lists :: l.items == []
    {
      var list := new ItemList();
      lists := lists + [list];
    }
  }

  method WrapTabs(titles: seq<string>, lists: seq<ItemList>) returns (tabs: seq<Tab>)
    requires |titles| == |lists|
    ensures |tabs| == |titles| && forall t | 0 <= t < |tabs| :: tabs[t] == Tab(titles[t], lists[t].items)
  {
    tabs := [];
    for t := 0 to |titles|
      invariant |tabs| == t && forall i | 0 <= i < t :: tabs[i] == Tab(titles[i], lists[i].items)
    {
      tabs := tabs + [Tab(titles[t], lists[t].items)];
    }
  }

  function Place<Element>(s: Step<Element>): Placed {
    Placed(s.x, s.y, s.width, s.height, s.key)
  }

  lemma OneMorePlaced<Element>(before: seq<Step<Element>>, s: Step<Element>, t: nat)
    ensures PlacedIn(before + [s], t) == PlacedIn(before, t) + if s.tab == t then [Place(s)] else []
  {
    assert (before + [s])[..|before|] == before;
  }

  lemma OneMoreKey<Element>(before: seq<Step<Element>>, s: Step<Element>)
    requires DistinctKeys(before)
    ensures KeysOf(before + [s]) == KeysOf(before) + {s.key}
    ensures s.key !in KeysOf(before) ==> DistinctKeys(before + [s])
  {
    KeyAt(before, s.key);
    assert (before + [s])[..|before|] == before;
  }

  lemma KeyRepeats<Element>(steps: seq<Step<Element>>, k: nat)
    requires k < |steps| && steps[k].key in KeysOf(steps[..k])
    ensures !DistinctKeys(steps)
  {
    KeyAt(steps[..k], steps[k].key);
    var i :| 0 <= i < k && steps[..k][i].key == steps[k].key;
    assert steps[i].key == steps[k].key;
  }

  // The state after a run of additions without a repeated key.
  ghost predicate Ran<Element(!new)>(builder: DashboardBuilder<Element>, lists: seq<ItemList>, steps: seq<Step<Element>>)
    reads builder, lists
  {
    && builder.Tracks(lists) && DistinctKeys(steps) && builder.elements.Keys == KeysOf(steps) && Filled(lists, steps)
    && Stored(builder.elements, steps)
  }

  // Every key leads to the element it was added with.
  ghost predicate Stored<Element>(elements: map<string, Element>, steps: seq<Step<Element>>) {
    forall s | s in steps :: s.key in elements && elements[s.key] == s.element
  }

  lemma OneMoreStored<Element>(elements: map<string, Element>, before: seq<Step<Element>>, s: Step<Element>)
    requires Stored(elements, before) && s.key !in elements
    ensures Stored(elements[s.key := s.element], before + [s])
  {
  }

  ghost predicate Filled<Element>(lists: seq<ItemList>, steps: seq<Step<Element>>)
    reads lists
  {
    forall t | 0 <= t < |lists| :: lists[t].items == PlacedIn(steps, t)
  }

  method AddStep<Element(!new)>(builder: DashboardBuilder<Element>, lists: seq<ItemList>,
                                ghost before: seq<Step<Element>>, s: Step<Element>)
    returns (added: bool)
    requires s.tab < |lists| && Ran(builder, lists, before)
    modifies builder, lists[s.tab]
    ensures added <==> s.key !in KeysOf(before)
    ensures added ==> Ran(builder, lists, before + [s])
  {
    OneMoreKey(before, s);
    if s.key !in builder.elements {
      OneMoreStored(builder.elements, before, s);
    }
    assert forall t | 0 <= t < |lists| && t != s.tab :: lists[t] != lists[s.tab];
    added := builder.Add(lists[s.tab], s.key, s.element, s.x, s.y, s.width, s.height, lists);
    if added {
      forall t | 0 <= t < |lists| ensures lists[t].items == PlacedIn(before + [s], t) {
        OneMorePlaced(before, s, t);
      }
    }
  }

  method Advance<Element(!new)>(builder: DashboardBuilder<Element>, lists: seq<ItemList>, steps: seq<Step<Element>>, k: nat)
    returns (added: bool)
    requires FitsTabs(steps, |lists|) && k < |steps| && Ran(builder, lists, steps[..k])
    modifies builder, lists
    ensures added ==> Ran(builder, lists, steps[..k + 1])
    ensures !added ==> !DistinctKeys(steps)
  {
    var s := steps[k];
    assert s in steps && steps[..k + 1] == steps[..k] + [s];
    added := AddStep(builder, lists, steps[..k], s);
    if !added {
      KeyRepeats(steps, k);
    }
  }

  method AddAll<Element(!new)>(builder: DashboardBuilder<Element>, lists: seq<ItemList>, steps: seq<Step<Element>>)
    returns (finished: bool)
    requires FitsTabs(steps, |lists|) && Ran(builder, lists, [])
    modifies builder, lists
    ensures finished <==> DistinctKeys(steps)
    ensures finished ==> Ran(builder, lists, steps)
  {
    assert steps[..0] == [];
    for k := 0 to |steps|
      invariant Ran(builder, lists, steps[..k])
    {
      var added := Advance(builder, lists, steps, k);
      if !added {
        return false;
      }
    }
    assert steps[..|steps|] == steps;
    finished := true;
  }

  method Start<Element(!new)>(n: nat) returns (builder: DashboardBuilder<Element>, lists: seq<ItemList>)
    ensures fresh(builder) && fresh(lists) && |lists| == n && Ran(builder, lists, [])
  {
    lists := EmptyLists(n);
    NothingPlaced(lists);
    builder := new DashboardBuilder();
  }

  method Finish<Element(!new)>(builder: DashboardBuilder<Element>, titles: seq<string>, lists: seq<ItemList>)
    returns (tabs: seq<Tab>)
    requires |titles| == |lists| && builder.Tracks(lists)
    ensures |tabs| == |titles| && forall t | 0 <= t < |tabs| :: tabs[t] == Tab(titles[t], lists[t].items)
    ensures NoRepeats(Refs(LayoutJson(tabs))) && (set n | n in Refs(LayoutJson(tabs))) == builder.elements.Keys
  {
    tabs := WrapTabs(titles, lists);
    SameContents(tabs, lists);
    BuilderAndCollectorAgree(tabs, builder.elements.Keys);
  }

  // Every run either ends at its first repeated key, or leaves a layout in which the collector finds
  // each stored key exactly once and nothing else, tab by tab in the order of the calls.
  method Run<Element(!new)>(titles: seq<string>, steps: seq<Step<Element>>)
    returns (finished: bool, builder: DashboardBuilder<Element>, tabs: seq<Tab>)
    requires FitsTabs(steps, |titles|)
    ensures finished <==> DistinctKeys(steps)
    ensures finished ==> builder.elements.Keys == KeysOf(steps) && Stored(builder.elements, steps)
    ensures finished ==> |tabs| == |titles| && forall t | 0 <= t < |tabs| :: tabs[t] == Tab(titles[t], PlacedIn(steps, t))
    ensures finished ==>
      NoRepeats(Refs(LayoutJson(tabs))) && (set n | n in Refs(LayoutJson(tabs))) == builder.elements.Keys
  {
    var lists;
    builder, lists := Start(|titles|);
    finished := AddAll(builder, lists, steps);
    tabs := [];
    if finished {
      tabs := Finish(builder, titles, lists);
    }
  }
}
