// The grid of a dashboard tab: the incremental overlap check, and what its acceptance means.
module GridLayout {
  import opened SetSizes

  const COLUMNS: nat := 24

  datatype Placed = Placed(x: int, y: int, width: int, height: int, name: string)

  // The grid cells a panel covers.
  ghost function Cells(p: Placed): set<(int, int)> {
    set a, b | p.x <= a < p.x + p.width && p.y <= b < p.y + p.height :: (a, b)
  }

  predicate Inside(p: Placed) {
    && 0 <= p.x && 0 <= p.y && 1 <= p.width && 1 <= p.height && p.x + p.width <= COLUMNS
  }

  ghost predicate Disjoint(items: seq<Placed>) {
    forall i, j | 0 <= i < j < |items| :: Cells(items[i]) !! Cells(items[j])
  }

  ghost predicate Accepted(items: seq<Placed>) {
    (forall p | p in items :: Inside(p)) && Disjoint(items)
  }

  predicate Overlap(p: Placed, q: Placed) {
    && p.x < q.x + q.width && q.x < p.x + p.width
    && p.y < q.y + q.height && q.y < p.y + p.height
  }

  lemma OverlapMeansSharedCell(p: Placed, q: Placed)
    requires Inside(p) && Inside(q)
    ensures Overlap(p, q) <==> !(Cells(p) !! Cells(q))
  {
    if Overlap(p, q) {
      var cell := (if p.x < q.x then q.x else p.x, if p.y < q.y then q.y else p.y);
      assert cell in Cells(p) && cell in Cells(q);
    }
    if cell :| cell in Cells(p) && cell in Cells(q) {
    }
  }

  lemma AcceptedOneMore(items: seq<Placed>, p: Placed)
    requires Accepted(items)
    ensures Accepted(items + [p]) <==> Inside(p) && forall q | q in items :: Cells(q) !! Cells(p)
  {
    var more := items + [p];
    assert more[|items|] == p && p in more;
    if Accepted(more) {
      forall q | q in items ensures Cells(q) !! Cells(p) {
        var i :| 0 <= i < |items| && items[i] == q;
        assert more[i] == q;
      }
    }
    if Inside(p) && forall q | q in items :: Cells(q) !! Cells(p) {
      forall i, j | 0 <= i < j < |more| ensures Cells(more[i]) !! Cells(more[j]) {
        assert i < |items| && more[i] == items[i];
        if j < |items| {
          assert more[j] == items[j];
        }
      }
    }
  }

  lemma PrefixAccepted(items: seq<Placed>, k: nat)
    requires k <= |items| && Accepted(items)
    ensures Accepted(items[..k])
  {
    forall i, j | 0 <= i < j < k ensures Cells(items[..k][i]) !! Cells(items[..k][j]) {
      assert items[..k][i] == items[i] && items[..k][j] == items[j];
    }
  }

  // The assertions of one panel, in the order they are made.
  predicate ValidSize(p: Placed) {
    && 0 <= p.x <= 23
    && p.y >= 0
    && 1 <= p.width <= 24 && p.height > 0
    && p.x + p.width <= 24
  }

  method FreeOf(rects: seq<Placed>, p: Placed) returns (ok: bool)
    requires Inside(p) && forall q | q in rects :: Inside(q)
    ensures ok <==> forall q | q in rects :: Cells(q) !! Cells(p)
  {
    for i := 0 to |rects|
      invariant forall q | q in rects[..i] :: Cells(q) !! Cells(p)
    {
      OverlapMeansSharedCell(p, rects[i]);
      if Overlap(p, rects[i]) {
        return false;
      }
      assert rects[..i + 1] == rects[..i] + [rects[i]];
    }
    assert rects[..|rects|] == rects;
    ok := true;
  }

  // The overlap loop accepts a tab exactly when every panel lies inside the grid and no two panels
  // share a cell.
  method ValidateTab(items: seq<Placed>) returns (ok: bool)
    ensures ok <==> Accepted(items)
  {
    var rects: seq<Placed> := [];
    for k := 0 to |items|
      invariant rects == items[..k] && Accepted(rects)
    {
      var p := items[k];
      assert items[..k + 1] == items[..k] + [p];
      AcceptedOneMore(rects, p);
      if !ValidSize(p) {
        RejectedPrefix(items, k + 1);
        return false;
      }
      var free := FreeOf(rects, p);
      if !free {
        RejectedPrefix(items, k + 1);
        return false;
      }
      rects := rects + [p];
    }
    assert items[..|items|] == items;
    ok := true;
  }

  lemma RejectedPrefix(items: seq<Placed>, k: nat)
    requires k <= |items|
    ensures !Accepted(items[..k]) ==> !Accepted(items)
  {
    if Accepted(items) {
      PrefixAccepted(items, k);
    }
  }

  // ---------------------------------------------------------------- the whole layout

  // A tab as the check reads it: its title and the items of each of its rows.
  datatype TabGrid = TabGrid(title: string, rows: seq<seq<Placed>>)

  function Flat(rows: seq<seq<Placed>>): seq<Placed> {
    if rows == [] then [] else Flat(rows[..|rows| - 1]) + rows[|rows| - 1]
  }

  // The last tab of its title.
  predicate IsLast(tabs: seq<TabGrid>, i: int) {
    0 <= i < |tabs| && forall j | i < j < |tabs| :: tabs[j].title != tabs[i].title
  }

  ghost predicate ByTitle(items: map<string, seq<Placed>>, tabs: seq<TabGrid>) {
    && (forall title :: title in items <==> HasTitle(tabs, title))
    && (forall i | IsLast(tabs, i) :: tabs[i].title in items && items[tabs[i].title] == Flat(tabs[i].rows))
  }

  predicate HasTitle(tabs: seq<TabGrid>, title: string) {
    exists i | 0 <= i < |tabs| :: tabs[i].title == title
  }

  lemma LastOfTitle(tabs: seq<TabGrid>, title: string) returns (i: int)
    requires HasTitle(tabs, title)
    ensures IsLast(tabs, i) && tabs[i].title == title
  {
    i := |tabs| - 1;
    while tabs[i].title != title
      invariant 0 <= i < |tabs| && forall j | i < j < |tabs| :: tabs[j].title != title
      decreases i
    {
      i := i - 1;
    }
  }

  lemma LastOneMore(tabs: seq<TabGrid>, t: TabGrid, i: int)
    ensures IsLast(tabs + [t], i) ==> i == |tabs| || (IsLast(tabs, i) && tabs[i].title != t.title)
  {
    var more := tabs + [t];
    if IsLast(more, i) && i < |tabs| {
      assert more[i] == tabs[i] && more[|tabs|] == t;
      assert forall j | i < j < |tabs| :: more[j] == tabs[j];
    }
  }

  lemma TitleOneMore(tabs: seq<TabGrid>, t: TabGrid, title: string)
    ensures HasTitle(tabs + [t], title) <==> HasTitle(tabs, title) || title == t.title
  {
    var more := tabs + [t];
    assert more[|tabs|] == t;
    assert forall i | 0 <= i < |tabs| :: more[i] == tabs[i];
  }

  lemma ByTitleOneMore(items: map<string, seq<Placed>>, tabs: seq<TabGrid>, t: TabGrid)
    requires ByTitle(items, tabs)
    ensures ByTitle(items[t.title := Flat(t.rows)], tabs + [t])
  {
    var more, all := tabs + [t], items[t.title := Flat(t.rows)];
    forall title ensures title in all <==> HasTitle(more, title) {
      TitleOneMore(tabs, t, title);
    }
    forall i | IsLast(more, i) ensures more[i].title in all && all[more[i].title] == Flat(more[i].rows) {
      LastOneMore(tabs, t, i);
      assert i < |tabs| ==> more[i] == tabs[i];
    }
  }

  // grid_items_by_tab: the rows of a tab share one grid; a later tab replaces one of the same title.
  method GridItemsByTab(tabs: seq<TabGrid>) returns (items: map<string, seq<Placed>>)
    ensures ByTitle(items, tabs)
  {
    items := map[];
    for k := 0 to |tabs|
      invariant ByTitle(items, tabs[..k])
    {
      var flat: seq<Placed> := [];
      var rows := tabs[k].rows;
      for r := 0 to |rows|
        invariant flat == Flat(rows[..r])
      {
        assert rows[..r + 1][..r] == rows[..r];
        flat := flat + rows[r];
      }
      assert rows[..|rows|] == rows && tabs[..k + 1] == tabs[..k] + [tabs[k]];
      ByTitleOneMore(items, tabs[..k], tabs[k]);
      items := items[tabs[k].title := flat];
    }
    assert tabs[..|tabs|] == tabs;
  }

  ghost predicate DistinctTitles(tabs: seq<TabGrid>) {
    forall i, j | 0 <= i < j < |tabs| :: tabs[i].title != tabs[j].title
  }

  // The check of the whole layout judges the last tab of each title, so with distinct titles, which
  // validate_dashboard has established by then, it accepts exactly the layouts whose tabs are all
  // accepted.
  method ValidateTabs(tabs: seq<TabGrid>) returns (ok: bool)
    ensures ok <==> forall i | IsLast(tabs, i) :: Accepted(Flat(tabs[i].rows))
    ensures DistinctTitles(tabs) ==> (ok <==> forall t | t in tabs :: Accepted(Flat(t.rows)))
  {
    var items := GridItemsByTab(tabs);
    ok := ValidateItems(items);
    LastTabsJudged(items, tabs);
    if DistinctTitles(tabs) {
      AllLast(tabs);
    }
  }

  lemma LastTabsJudged(items: map<string, seq<Placed>>, tabs: seq<TabGrid>)
    requires ByTitle(items, tabs)
    ensures (forall title | title in items :: Accepted(items[title]))
       <==> (forall i | IsLast(tabs, i) :: Accepted(Flat(tabs[i].rows)))
  {
    forall title | title in items ensures exists i :: IsLast(tabs, i) && tabs[i].title == title {
      var i := LastOfTitle(tabs, title);
    }
  }

  lemma AllLast(tabs: seq<TabGrid>)
    requires DistinctTitles(tabs)
    ensures (forall i | IsLast(tabs, i) :: Accepted(Flat(tabs[i].rows))) <==> (forall t | t in tabs :: Accepted(Flat(t.rows)))
  {
    forall t | t in tabs ensures exists i :: IsLast(tabs, i) && tabs[i] == t {
      var i :| 0 <= i < |tabs| && tabs[i] == t;
      assert IsLast(tabs, i);
    }
  }

  method ValidateItems(items: map<string, seq<Placed>>) returns (ok: bool)
    ensures ok <==> forall title | title in items :: Accepted(items[title])
  {
    var todo := items.Keys;
    while todo != {}
      invariant todo <= items.Keys
      invariant forall title | title in items.Keys - todo :: Accepted(items[title])
    {
      var title :| title in todo;
      todo := todo - {title};
      var accepted := ValidateTab(items[title]);
      if !accepted {
        return false;
      }
    }
    ok := true;
  }

  // ---------------------------------------------------------------- area

  function Area(items: seq<Placed>): int {
    if items == [] then 0 else items[0].width * items[0].height + Area(items[1..])
  }

  ghost function Row(x: int, width: nat, y: int): set<(int, int)> {
    set a | x <= a < x + width :: (a, y)
  }

  lemma {:induction false} RowSize(x: int, width: nat, y: int)
    ensures |Row(x, width, y)| == width
    decreases width
  {
    if width == 0 {
      assert Row(x, width, y) == {};
    } else {
      RowSize(x, width - 1, y);
      assert Row(x, width, y) == Row(x, width - 1, y) + {(x + width - 1, y)};
    }
  }

  lemma LastRow(p: Placed, shorter: Placed)
    requires p.height > 0 && shorter == p.(height := p.height - 1) && p.width >= 0
    ensures Cells(p) == Cells(shorter) + Row(p.x, p.width, p.y + p.height - 1)
    ensures Cells(shorter) !! Row(p.x, p.width, p.y + p.height - 1)
  {
  }

  lemma {:induction false} CellCount(p: Placed)
    requires p.width >= 0 && p.height >= 0
    ensures |Cells(p)| == p.width * p.height
    decreases p.height
  {
    if p.height == 0 {
      assert Cells(p) == {};
    } else {
      var shorter := p.(height := p.height - 1);
      CellCount(shorter);
      RowSize(p.x, p.width, p.y + p.height - 1);
      LastRow(p, shorter);
      DistributeRow(p.width, p.height);
    }
  }

  lemma DistributeRow(w: int, h: int)
    ensures w * h == w * (h - 1) + w
  {
  }

  ghost function Covered(items: seq<Placed>): set<(int, int)> {
    set i, c | 0 <= i < |items| && c in Cells(items[i]) :: c
  }

  lemma RestAccepted(items: seq<Placed>)
    requires items != [] && Accepted(items)
    ensures Accepted(items[1..]) && Inside(items[0])
    ensures Cells(items[0]) !! Covered(items[1..])
  {
    var rest := items[1..];
    assert items[0] in items && forall p | p in rest :: p in items;
    forall i, j | 0 <= i < j < |rest| ensures Cells(rest[i]) !! Cells(rest[j]) {
      assert rest[i] == items[i + 1] && rest[j] == items[j + 1];
    }
    forall i | 0 <= i < |rest| ensures Cells(items[0]) !! Cells(rest[i]) {
      assert rest[i] == items[i + 1];
    }
  }

  lemma CoveredCons(items: seq<Placed>)
    requires items != []
    ensures Covered(items) == Cells(items[0]) + Covered(items[1..])
  {
    var rest := items[1..];
    forall c ensures c in Covered(items) <==> c in Cells(items[0]) + Covered(rest) {
      if c in Covered(rest) {
        var i :| 0 <= i < |rest| && c in Cells(rest[i]);
        assert c in Cells(items[i + 1]);
      }
      if c in Covered(items) {
        var i :| 0 <= i < |items| && c in Cells(items[i]);
        if i > 0 {
          assert rest[i - 1] == items[i];
        }
      }
    }
  }

  lemma {:induction false} CoveredSize(items: seq<Placed>)
    requires Accepted(items)
    ensures |Covered(items)| == Area(items)
    decreases |items|
  {
    if items == [] {
      assert Covered(items) == {};
    } else {
      RestAccepted(items);
      CoveredSize(items[1..]);
      CellCount(items[0]);
      CoveredCons(items);
    }
  }

  // An accepted tab cannot hold more panel area than its grid has cells above its lowest edge.
  lemma AreaFits(items: seq<Placed>, bottom: nat)
    requires Accepted(items) && forall p | p in items :: p.y + p.height <= bottom
    ensures Area(items) <= COLUMNS * bottom
  {
    var grid := Placed(0, 0, COLUMNS, bottom, "");
    CoveredSize(items);
    CellCount(grid);
    forall c | c in Covered(items) ensures c in Cells(grid) {
      var i :| 0 <= i < |items| && c in Cells(items[i]);
      assert items[i] in items;
    }
    SubsetSize(Covered(items), Cells(grid));
  }
}
