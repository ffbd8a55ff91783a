/**
 * The packing list (components/PackView.tsx): the list shown under the
 * selected assignee tab, adding an item, ticking an item as packed and
 * removing an item. Adding treats a non-array previous state as empty;
 * ticking and removing call `map`/`filter` on it directly, so a non-array
 * state makes them throw.
 */
module Pack {
  import opened Wrappers
  import opened Js
  import opened Types

  /** The tab that shows every item: '전체'. */
  const AllTab: JsString := [0xC804, 0xCCB4]

  /** The '전체' tab is none of the assignees an item can have. */
  lemma AllTabIsNoAssignee()
    ensures AllTab !in AssigneeOptions
  {
  }

  /**
   * `filteredItems`: every item under '전체', otherwise the items assigned
   * to the selected tab, in list order; a non-array list shows nothing.
   */
  function FilteredItems(items: Option<seq<PackItem>>, tab: JsString): (r: seq<PackItem>)
    ensures tab == AllTab ==> r == AsArray(items)
    ensures tab != AllTab ==> forall it :: it in r <==> it in AsArray(items) && it.assignedTo == tab
    ensures |r| <= |AsArray(items)|
  {
    if tab == AllTab then AsArray(items) else Filter(AsArray(items), (it: PackItem) => it.assignedTo == tab)
  }

  /** Showing the shown list under the same tab again shows the same list. */
  lemma FilteredItemsIdempotent(items: Option<seq<PackItem>>, tab: JsString)
    ensures FilteredItems(Some(FilteredItems(items, tab)), tab) == FilteredItems(items, tab)
  {
    if tab != AllTab {
      FilterIdempotent(AsArray(items), (it: PackItem) => it.assignedTo == tab);
    }
  }

  /** Each tab shows its items in list order: the view distributes over concatenation. */
  lemma FilteredItemsAppend(xs: seq<PackItem>, ys: seq<PackItem>, tab: JsString)
    ensures FilteredItems(Some(xs + ys), tab) == FilteredItems(Some(xs), tab) + FilteredItems(Some(ys), tab)
  {
    if tab != AllTab {
      FilterAppend(xs, ys, (it: PackItem) => it.assignedTo == tab);
    }
  }

  /** How many items the tabs `tabs` show between them. */
  function TabCounts(xs: seq<PackItem>, tabs: seq<JsString>): nat {
    if tabs == [] then 0 else |FilteredItems(Some(xs), tabs[0])| + TabCounts(xs, tabs[1..])
  }

  /**
   * When every item is assigned to one of the eight assignee options, the
   * eight assignee tabs together show every item exactly once.
   */
  lemma AssigneeTabsPartition(xs: seq<PackItem>)
    requires forall it :: it in xs ==> it.assignedTo in AssigneeOptions
    ensures TabCounts(xs, AssigneeOptions) == |xs|
  {
    AssigneeOptionsShape();
    AllTabIsNoAssignee();
    TabsPartition(xs, AssigneeOptions);
  }

  lemma {:induction false} TabsPartition(xs: seq<PackItem>, tabs: seq<JsString>)
    requires Distinct(tabs) && AllTab !in tabs
    requires forall it :: it in xs ==> it.assignedTo in tabs
    ensures TabCounts(xs, tabs) == |xs|
  {
    if xs != [] {
      var x, rest := xs[0], xs[1..];
      assert xs == [x] + rest;
      assert forall it :: it in rest ==> it in xs;
      TabsPartition(rest, tabs);
      TabCountsAppend([x], rest, tabs);
      assert x in xs;
      OneItemCounted(x, tabs);
    } else {
      NoItemsCounted(tabs);
    }
  }

  lemma {:induction false} NoItemsCounted(tabs: seq<JsString>)
    ensures TabCounts([], tabs) == 0
  {
    if tabs != [] {
      NoItemsCounted(tabs[1..]);
    }
  }

  lemma {:induction false} TabCountsAppend(xs: seq<PackItem>, ys: seq<PackItem>, tabs: seq<JsString>)
    ensures TabCounts(xs + ys, tabs) == TabCounts(xs, tabs) + TabCounts(ys, tabs)
  {
    if tabs != [] {
      FilteredItemsAppend(xs, ys, tabs[0]);
      TabCountsAppend(xs, ys, tabs[1..]);
    }
  }

  /** One item is shown under exactly one of distinct tabs, the one it is assigned to. */
  lemma {:induction false} OneItemCounted(x: PackItem, tabs: seq<JsString>)
    requires Distinct(tabs) && AllTab !in tabs
    ensures TabCounts([x], tabs) == if x.assignedTo in tabs then 1 else 0
  {
    if tabs != [] {
      var t := tabs[0];
      assert [x][1..] == [];
      assert |FilteredItems(Some([x]), t)| == if x.assignedTo == t then 1 else 0;
      assert Distinct(tabs[1..]) && AllTab !in tabs[1..] by {
        forall i, j | 0 <= i < j < |tabs[1..]| ensures tabs[1..][i] != tabs[1..][j] {
          assert tabs[1..][i] == tabs[i + 1] && tabs[1..][j] == tabs[j + 1];
        }
      }
      assert t !in tabs[1..] by {
        forall j | 0 <= j < |tabs[1..]| ensures tabs[1..][j] != t {
          assert tabs[1..][j] == tabs[j + 1];
        }
      }
      assert x.assignedTo in tabs <==> x.assignedTo == t || x.assignedTo in tabs[1..];
      OneItemCounted(x, tabs[1..]);
    }
  }

  /**
   * `addItem`, with `Date.now()` given as `id`: a title of white space only
   * changes nothing; otherwise an unpacked item with the trimmed title and
   * the chosen assignee goes in front of the previous list (empty when
   * that was not an array).
   */
  function AddItem(prev: Option<seq<PackItem>>, title: JsString, assignee: JsString, id: JsString): (r: Option<seq<PackItem>>)
    ensures IsBlank(title) ==> r == prev
    ensures !IsBlank(title) ==> r.Some? && |r.value| == |AsArray(prev)| + 1 && r.value[1..] == AsArray(prev)
    ensures !IsBlank(title) ==> var it := r.value[0];
      it.id == id && it.title == Trim(title) && it.title != [] && it.assignedTo == assignee && !it.isDone
  {
    if Trim(title) == [] then prev
    else Some([PackItem(id, Trim(title), assignee, false)] + AsArray(prev))
  }

  /** A new item shows first under '전체' and under its own tab, and every other tab's view is unchanged. */
  lemma AddItemShows(prev: Option<seq<PackItem>>, title: JsString, assignee: JsString, id: JsString, tab: JsString)
    requires !IsBlank(title)
    ensures var shown := FilteredItems(AddItem(prev, title, assignee, id), tab);
      if tab == AllTab || tab == assignee then
        shown == [AddItem(prev, title, assignee, id).value[0]] + FilteredItems(prev, tab)
      else shown == FilteredItems(prev, tab)
  {
    var r := AddItem(prev, title, assignee, id).value;
    assert r == [r[0]] + AsArray(prev);
    FilteredItemsAppend([r[0]], AsArray(prev), tab);
    assert [r[0]][1..] == [];
  }

  /** `item.id === id ? { ...item, isDone: !item.isDone } : item`, over the whole list, in order. */
  function FlipDone(xs: seq<PackItem>, id: JsString): (r: seq<PackItem>)
    ensures |r| == |xs|
    ensures forall i :: 0 <= i < |xs| ==>
      && r[i].(isDone := xs[i].isDone) == xs[i]
      && (r[i].isDone <==> (xs[i].isDone != (xs[i].id == id)))
  {
    if xs == [] then []
    else
      var it := xs[0];
      [if it.id == id then it.(isDone := !it.isDone) else it] + FlipDone(xs[1..], id)
  }

  /** `toggleDone`: throws when the previous state is not an array. */
  function ToggleDone(prev: Option<seq<PackItem>>, id: JsString): (r: Outcome<seq<PackItem>>)
    ensures r.Returns? <==> prev.Some?
    ensures r.Returns? ==> |r.value| == |prev.value|
  {
    match prev
    case None => Throws
    case Some(xs) => Returns(FlipDone(xs, id))
  }

  /** Ticking the same id twice restores the list. */
  lemma {:induction false} FlipDoneTwice(xs: seq<PackItem>, id: JsString)
    ensures FlipDone(FlipDone(xs, id), id) == xs
  {
    if xs != [] {
      FlipDoneTwice(xs[1..], id);
      assert FlipDone(xs, id)[1..] == FlipDone(xs[1..], id);
    }
  }

  /** `toggleDone` twice with the same id restores any array state. */
  lemma ToggleDoneTwice(xs: seq<PackItem>, id: JsString)
    ensures ToggleDone(Some(ToggleDone(Some(xs), id).value), id) == Returns(xs)
  {
    FlipDoneTwice(xs, id);
  }

  /** Ticking changes no assignee, so each tab shows the same items, ticked the same way. */
  lemma {:induction false} FlipDoneCommutesWithTab(xs: seq<PackItem>, id: JsString, tab: JsString)
    ensures FilteredItems(Some(FlipDone(xs, id)), tab) == FlipDone(FilteredItems(Some(xs), tab), id)
  {
    if tab != AllTab && xs != [] {
      var r := FlipDone(xs, id);
      assert xs == [xs[0]] + xs[1..] && r == [r[0]] + r[1..];
      assert r[1..] == FlipDone(xs[1..], id);
      FilteredItemsAppend([xs[0]], xs[1..], tab);
      FilteredItemsAppend([r[0]], r[1..], tab);
      FlipDoneCommutesWithTab(xs[1..], id, tab);
      assert [xs[0]][1..] == [] && [r[0]][1..] == [];
      var head := FilteredItems(Some([xs[0]]), tab);
      FlipDoneAppend(head, FilteredItems(Some(xs[1..]), tab), id);
    }
  }

  lemma {:induction false} FlipDoneAppend(xs: seq<PackItem>, ys: seq<PackItem>, id: JsString)
    ensures FlipDone(xs + ys, id) == FlipDone(xs, id) + FlipDone(ys, id)
  {
    if xs == [] {
      assert xs + ys == ys;
    } else {
      assert (xs + ys)[1..] == xs[1..] + ys;
      FlipDoneAppend(xs[1..], ys, id);
    }
  }

  /** `removeItem`: the items whose id differs, in order; throws when the previous state is not an array. */
  function RemoveItem(prev: Option<seq<PackItem>>, id: JsString): (r: Outcome<seq<PackItem>>)
    ensures r.Returns? <==> prev.Some?
    ensures r.Returns? ==> forall it :: it in r.value <==> it in prev.value && it.id != id
  {
    match prev
    case None => Throws
    case Some(xs) => Returns(Filter(xs, (it: PackItem) => it.id != id))
  }

  /** Removal keeps the survivors in order: it distributes over concatenation. */
  lemma RemoveItemKeepsOrder(xs: seq<PackItem>, ys: seq<PackItem>, id: JsString)
    ensures RemoveItem(Some(xs + ys), id).value == RemoveItem(Some(xs), id).value + RemoveItem(Some(ys), id).value
  {
    FilterAppend(xs, ys, (it: PackItem) => it.id != id);
  }

  /** Removing an id that no item has changes nothing. */
  lemma RemoveAbsentItem(xs: seq<PackItem>, id: JsString)
    requires forall it :: it in xs ==> it.id != id
    ensures RemoveItem(Some(xs), id) == Returns(xs)
  {
    FilterKeepsAll(xs, (it: PackItem) => it.id != id);
  }
}
