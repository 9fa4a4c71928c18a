/**
 * The Inventory page's shelf browser: the five mock shelves and the
 * per-shelf inventory table, the shelf-id search, the utilisation colour
 * ladders, the click-to-toggle selection and the details card.
 */
module Inventory {
  import opened Wrappers
  import opened Text
  import opened Query
  import opened Locations

  datatype Shelf = Shelf(id: string, products: nat, capacity: nat, utilization: nat)

  datatype ShelfItem = ShelfItem(name: string, quantity: nat, sku: string)

  /** `mockShelves`. */
  const MockShelves: seq<Shelf> := [
    Shelf("A-1-1", 12, 15, 80),
    Shelf("A-1-2", 8, 15, 53),
    Shelf("A-2-1", 15, 15, 100),
    Shelf("B-1-1", 6, 20, 30),
    Shelf("B-2-2", 18, 20, 90)]

  /** `mockShelfInventory`: only two shelves have an inventory list. */
  const MockShelfInventory: map<string, seq<ShelfItem>> := map[
    "A-1-1" := [
      ShelfItem("Industrial Widget A", 45, "SKU-001001"),
      ShelfItem("Safety Helmet Pro", 23, "SKU-001002"),
      ShelfItem("Cable Assembly", 12, "SKU-001003")],
    "A-1-2" := [
      ShelfItem("Mounting Hardware", 67, "SKU-001004"),
      ShelfItem("Electronic Component", 34, "SKU-001005")]]

  // ---------------------------------------------------------- shelf data

  /**
   * A shelf row is consistent: a `Zone-Aisle-Slot` id, no more products than
   * capacity, and the utilisation is the whole percentage of capacity used.
   */
  predicate ConsistentShelf(s: Shelf) {
    && IsShelfLabel(s.id)
    && 0 < s.capacity
    && s.products <= s.capacity
    && s.utilization == s.products * 100 / s.capacity
  }

  /** Every literal shelf row is consistent and the ids are unique. */
  lemma MockShelvesConsistent()
    ensures forall s :: s in MockShelves ==> ConsistentShelf(s)
    ensures forall i, j :: 0 <= i < j < |MockShelves| ==> MockShelves[i].id != MockShelves[j].id
  {
  }

  function ShelfIds(shelves: seq<Shelf>): (ids: seq<string>)
    ensures |ids| == |shelves|
    ensures forall i :: 0 <= i < |shelves| ==> ids[i] == shelves[i].id
  {
    seq(|shelves|, i requires 0 <= i < |shelves| => shelves[i].id)
  }

  /**
   * `mockShelfInventory[id]`, looked up among the object's own keys: the
   * shelf's items, or nothing for a shelf without an inventory list.
   */
  function ShelfInventory(id: string): (r: Option<seq<ShelfItem>>)
    ensures r.Some? <==> id == "A-1-1" || id == "A-1-2"
    ensures r.Some? ==> |r.value| > 0
  {
    if id in MockShelfInventory then Some(MockShelfInventory[id]) else None
  }

  /** Every inventory list belongs to one of the mock shelves. */
  lemma InventoryKeysAreShelves()
    ensures forall id :: id in MockShelfInventory ==> id in ShelfIds(MockShelves)
  {
    assert ShelfIds(MockShelves)[0] == "A-1-1";
    assert ShelfIds(MockShelves)[1] == "A-1-2";
  }

  // -------------------------------------------------------------- search

  predicate ShelfMatches(s: Shelf, term: string) {
    IncludesIgnoringCase(s.id, term)
  }

  /** The shelf search test as a value, so that every use names the same function. */
  function ShelfTest(term: string): Shelf -> bool {
    s => ShelfMatches(s, term)
  }

  /** `filteredShelves`: the shelves whose id contains the term, case ignored, in their order. */
  function FilterShelves(shelves: seq<Shelf>, term: string): (r: seq<Shelf>)
    ensures forall s :: s in r <==> s in shelves && ShelfMatches(s, term)
    ensures IsSubsequence(r, shelves)
  {
    FilterIsSubsequence(shelves, ShelfTest(term));
    Filter(shelves, ShelfTest(term))
  }

  /** An empty term shows all five shelves in order. */
  lemma EmptyTermShowsAllShelves()
    ensures FilterShelves(MockShelves, "") == MockShelves
  {
    forall s | s in MockShelves
      ensures ShelfMatches(s, "")
    {
      IncludesEmpty(Lower(s.id));
    }
    FilterKeepsAll(MockShelves, ShelfTest(""));
  }

  /** Re-filtering the visible shelves with the same term changes nothing. */
  lemma FilterShelvesIdempotent(shelves: seq<Shelf>, term: string)
    ensures FilterShelves(FilterShelves(shelves, term), term) == FilterShelves(shelves, term)
  {
    FilterIdempotent(shelves, ShelfTest(term));
  }

  /** Terms that lower-case alike show the same shelves. */
  lemma FilterShelvesIgnoresCase(shelves: seq<Shelf>, t1: string, t2: string)
    requires Lower(t1) == Lower(t2)
    ensures FilterShelves(shelves, t1) == FilterShelves(shelves, t2)
  {
    FilterCongruent(shelves, ShelfTest(t1), ShelfTest(t2));
  }

  /** The mock shelf ids, lower-cased. */
  lemma LowerShelfIds()
    ensures Lower(MockShelves[0].id) == "a-1-1"
    ensures Lower(MockShelves[1].id) == "a-1-2"
    ensures Lower(MockShelves[2].id) == "a-2-1"
    ensures Lower(MockShelves[3].id) == "b-1-1"
    ensures Lower(MockShelves[4].id) == "b-2-2"
  {
  }

  lemma LowerTerm()
    ensures Lower("A-1") == "a-1"
  {
  }

  /** `a-2` finds only shelf `A-2-1`. */
  lemma SearchA2()
    ensures FilterShelves(MockShelves, "a-2") == [MockShelves[2]]
  {
    var t := "a-2";
    assert Lower(t) == t;
    LowerShelfIds();
    NoWindowMatches("a-1-1", t);
    NoWindowMatches("a-1-2", t);
    assert IsPrefix(t, "a-2-1");
    NoWindowMatches("b-1-1", t);
    NoWindowMatches("b-2-2", t);
    FilterOfFive(t);
  }

  /** `A-1` finds `A-1-1` and then `A-1-2`. */
  lemma SearchA1()
    ensures FilterShelves(MockShelves, "A-1") == [MockShelves[0], MockShelves[1]]
  {
    SearchA1Matches();
    FilterOfFive("A-1");
  }

  lemma SearchA1Matches()
    ensures ShelfMatches(MockShelves[0], "A-1") && ShelfMatches(MockShelves[1], "A-1")
    ensures !ShelfMatches(MockShelves[2], "A-1") && !ShelfMatches(MockShelves[3], "A-1")
    ensures !ShelfMatches(MockShelves[4], "A-1")
  {
    LowerTerm();
    LowerShelfIds();
    assert IsPrefix("a-1", "a-1-1");
    assert IsPrefix("a-1", "a-1-2");
    NoWindowMatches("a-2-1", "a-1");
    NoWindowMatches("b-1-1", "a-1");
    NoWindowMatches("b-2-2", "a-1");
  }

  /** A three-letter term that differs from each window of a five-letter id is not in it. */
  lemma NoWindowMatches(s: string, t: string)
    requires |s| == 5 && |t| == 3
    ensures ((s[0] != t[0] || s[1] != t[1] || s[2] != t[2]) &&
             (s[1] != t[0] || s[2] != t[1] || s[3] != t[2]) &&
             (s[2] != t[0] || s[3] != t[1] || s[4] != t[2])) ==> !Includes(s, t)
  {
    IncludesIffOccurs(s, t);
    forall i | OccursAt(s, t, i)
      ensures s[i] == t[0] && s[i + 1] == t[1] && s[i + 2] == t[2]
    {
      assert s[i..i + 3][0] == s[i] && s[i..i + 3][1] == s[i + 1] && s[i..i + 3][2] == s[i + 2];
    }
  }

  /** The filter over the five mock shelves, one shelf at a time. */
  lemma FilterOfFive(t: string)
    ensures FilterShelves(MockShelves, t) ==
      Kept(MockShelves[0], ShelfTest(t)) + Kept(MockShelves[1], ShelfTest(t)) +
      Kept(MockShelves[2], ShelfTest(t)) + Kept(MockShelves[3], ShelfTest(t)) +
      Kept(MockShelves[4], ShelfTest(t))
  {
    FilterFive(MockShelves, ShelfTest(t));
  }

  // ------------------------------------------------------ utilisation ladders

  /** `getUtilizationColor`: destructive from 90, warning from 70, success below. */
  function UtilizationColor(u: int): (c: string)
    ensures c == "text-destructive" <==> u >= 90
    ensures c == "text-warning" <==> 70 <= u < 90
    ensures c == "text-success" <==> u < 70
  {
    if u >= 90 then "text-destructive"
    else if u >= 70 then "text-warning"
    else "text-success"
  }

  /** The card's "% Full" badge class. */
  function UtilizationBadge(u: int): (c: string)
    ensures c == "status-error" <==> u >= 90
    ensures c == "status-warning" <==> 70 <= u < 90
    ensures c == "status-success" <==> u < 70
  {
    if u >= 90 then "status-error"
    else if u >= 70 then "status-warning"
    else "status-success"
  }

  /** The card's fill-bar class. */
  function UtilizationBar(u: int): (c: string)
    ensures c == "bg-destructive" <==> u >= 90
    ensures c == "bg-warning" <==> 70 <= u < 90
    ensures c == "bg-success" <==> u < 70
  {
    if u >= 90 then "bg-destructive"
    else if u >= 70 then "bg-warning"
    else "bg-success"
  }

  /** The three ladders put every utilisation in the same band. */
  lemma LaddersAgree(u: int)
    ensures UtilizationColor(u) == "text-destructive" <==> UtilizationBadge(u) == "status-error"
    ensures UtilizationBadge(u) == "status-error" <==> UtilizationBar(u) == "bg-destructive"
    ensures UtilizationColor(u) == "text-warning" <==> UtilizationBadge(u) == "status-warning"
    ensures UtilizationBadge(u) == "status-warning" <==> UtilizationBar(u) == "bg-warning"
    ensures UtilizationColor(u) == "text-success" <==> UtilizationBadge(u) == "status-success"
    ensures UtilizationBadge(u) == "status-success" <==> UtilizationBar(u) == "bg-success"
  {
  }

  // -------------------------------------------------------------- page state

  datatype ViewMode = SearchMode | BrowseMode

  /** The page's React state. */
  datatype InventoryView = InventoryView(searchTerm: string, selectedShelf: Option<string>, viewMode: ViewMode)

  const InitialView := InventoryView("", None, SearchMode)

  datatype InventoryEvent =
    | ChooseMode(mode: ViewMode)
    | TypeShelfSearch(term: string)
    | ClickShelf(id: string)

  /**
   * A shelf card's `onClick`: clicking the selected shelf clears the
   * selection, clicking any other shelf selects it.
   */
  function Toggle(selected: Option<string>, clicked: string): (r: Option<string>)
    ensures r == None <==> selected == Some(clicked)
    ensures r != None ==> r == Some(clicked)
  {
    if selected == Some(clicked) then None else Some(clicked)
  }

  /** Clicking the same shelf twice from no selection leaves nothing selected. */
  lemma ToggleTwice(clicked: string)
    ensures Toggle(Toggle(None, clicked), clicked) == None
  {
  }

  /** The shelf cards on screen: the filtered shelves, in browse mode only. */
  function VisibleShelves(v: InventoryView): seq<Shelf> {
    if v.viewMode == BrowseMode then FilterShelves(MockShelves, v.searchTerm) else []
  }

  predicate ShelfVisible(v: InventoryView, id: string) {
    exists s :: s in VisibleShelves(v) && s.id == id
  }

  /**
   * One interaction. The mode buttons set the mode; the shelf search box and
   * the shelf cards exist only in browse mode, and a card can be clicked
   * only while it is on screen.
   */
  function Step(v: InventoryView, e: InventoryEvent): (r: InventoryView)
    ensures e.ChooseMode? || e.TypeShelfSearch? ==> r.selectedShelf == v.selectedShelf
    ensures e.ClickShelf? && ShelfVisible(v, e.id) ==> r.selectedShelf == Toggle(v.selectedShelf, e.id)
    ensures !(e.ClickShelf? && ShelfVisible(v, e.id)) ==> r.selectedShelf == v.selectedShelf
    ensures e.ChooseMode? ==> r.viewMode == e.mode && r.searchTerm == v.searchTerm
    ensures e.TypeShelfSearch? ==> r.viewMode == v.viewMode
    ensures e.TypeShelfSearch? && v.viewMode == BrowseMode ==> r.searchTerm == e.term
    ensures e.TypeShelfSearch? && v.viewMode == SearchMode ==> r.searchTerm == v.searchTerm
    ensures e.ClickShelf? ==> r.searchTerm == v.searchTerm && r.viewMode == v.viewMode
  {
    match e
    case ChooseMode(m) => v.(viewMode := m)
    case TypeShelfSearch(t) => if v.viewMode == BrowseMode then v.(searchTerm := t) else v
    case ClickShelf(id) =>
      if v.viewMode == BrowseMode && ShelfVisible(v, id) then v.(selectedShelf := Toggle(v.selectedShelf, id)) else v
  }

  function Run(v: InventoryView, events: seq<InventoryEvent>): InventoryView
    decreases |events|
  {
    if events == [] then v else Run(Step(v, events[0]), events[1..])
  }

  /** The selection is empty or names one of the mock shelves. */
  predicate SelectionValid(v: InventoryView) {
    v.selectedShelf == None || v.selectedShelf.value in ShelfIds(MockShelves)
  }

  /** Every step keeps the selection pointing at a real shelf (or at nothing). */
  lemma StepKeepsSelectionValid(v: InventoryView, e: InventoryEvent)
    requires SelectionValid(v)
    ensures SelectionValid(Step(v, e))
  {
    if e.ClickShelf? && ShelfVisible(v, e.id) && Step(v, e).selectedShelf != None {
      var s :| s in VisibleShelves(v) && s.id == e.id;
      assert s in MockShelves;
      var i :| 0 <= i < |MockShelves| && MockShelves[i] == s;
      assert ShelfIds(MockShelves)[i] == e.id;
    }
  }

  /** From the initial state, any sequence of interactions keeps the selection valid. */
  lemma {:induction false} RunKeepsSelectionValid(v: InventoryView, events: seq<InventoryEvent>)
    requires SelectionValid(v)
    ensures SelectionValid(Run(v, events))
    decreases |events|
  {
    if events != [] {
      StepKeepsSelectionValid(v, events[0]);
      RunKeepsSelectionValid(Step(v, events[0]), events[1..]);
    }
  }

  /**
   * `selectedShelf && mockShelfInventory[selectedShelf]`, inside the browse
   * branch: the details card.
   */
  predicate DetailsShown(v: InventoryView) {
    && v.viewMode == BrowseMode
    && v.selectedShelf.Some?
    && v.selectedShelf.value != ""
    && ShelfInventory(v.selectedShelf.value).Some?
  }

  /** The details card shows exactly for `A-1-1` and `A-1-2` in browse mode. */
  lemma DetailsShownIff(v: InventoryView)
    ensures DetailsShown(v) <==>
      v.viewMode == BrowseMode && (v.selectedShelf == Some("A-1-1") || v.selectedShelf == Some("A-1-2"))
  {
  }

  /**
   * On every state the page can reach the selection is a listed shelf id, so
   * the lookup never meets a key that is not one of the five shelves: the
   * card shows exactly for the two stocked shelves, in browse mode, with
   * their non-empty inventory lists.
   */
  lemma DetailsShownOnValidSelection(v: InventoryView)
    requires SelectionValid(v)
    ensures DetailsShown(v) <==>
      v.viewMode == BrowseMode && v.selectedShelf.Some? && v.selectedShelf.value in MockShelfInventory
    ensures DetailsShown(v) ==> |MockShelfInventory[v.selectedShelf.value]| > 0
    ensures v.selectedShelf.Some? && v.selectedShelf.value in ["A-2-1", "B-1-1", "B-2-2"] ==> !DetailsShown(v)
  {
  }

  /** A single character included in `s` is one of its characters. */
  lemma IncludedCharOccurs(s: string, c: char)
    requires Includes(s, [c])
    ensures c in s
  {
    IncludesIffOccurs(s, [c]);
    var i :| OccursAt(s, [c], i);
    assert s[i..i + 1][0] == s[i];
  }

  /** `B` finds the two zone-B shelves. */
  lemma SearchB()
    ensures FilterShelves(MockShelves, "B") == [MockShelves[3], MockShelves[4]]
  {
    SearchBMatches();
    FilterOfFive("B");
  }

  lemma SearchBMatches()
    ensures !ShelfMatches(MockShelves[0], "B") && !ShelfMatches(MockShelves[1], "B")
    ensures !ShelfMatches(MockShelves[2], "B")
    ensures ShelfMatches(MockShelves[3], "B") && ShelfMatches(MockShelves[4], "B")
  {
    LowerShelfIds();
    assert Lower("B") == "b";
    if Includes("a-1-1", "b") { IncludedCharOccurs("a-1-1", 'b'); }
    if Includes("a-1-2", "b") { IncludedCharOccurs("a-1-2", 'b'); }
    if Includes("a-2-1", "b") { IncludedCharOccurs("a-2-1", 'b'); }
    assert IsPrefix("b", "b-1-1");
    assert IsPrefix("b", "b-2-2");
  }

  /** Running three interactions is stepping through them in order. */
  lemma RunThree(v: InventoryView, e1: InventoryEvent, e2: InventoryEvent, e3: InventoryEvent)
    ensures Run(v, [e1, e2, e3]) == Step(Step(Step(v, e1), e2), e3)
  {
    var v1 := Step(v, e1);
    var v2 := Step(v1, e2);
    assert [e1, e2, e3][1..] == [e2, e3];
    assert [e2, e3][1..] == [e3];
    assert [e3][1..] == [];
    assert Run(v2, [e3]) == Run(Step(v2, e3), []);
    assert Run(v1, [e2, e3]) == Run(v2, [e3]);
    assert Run(v, [e1, e2, e3]) == Run(v1, [e2, e3]);
  }

  /** With no search term the browser lists shelf `A-1-1`. */
  lemma FirstShelfVisibleWhenBrowsingAll(v: InventoryView)
    requires v.searchTerm == "" && v.viewMode == BrowseMode
    ensures ShelfVisible(v, "A-1-1")
  {
    EmptyTermShowsAllShelves();
    assert MockShelves[0] in VisibleShelves(v);
  }

  /** Searching `B` hides shelf `A-1-1`, in either mode. */
  lemma FirstShelfHiddenBySearchB(v: InventoryView)
    requires v.searchTerm == "B"
    ensures !ShelfVisible(v, "A-1-1")
  {
    SearchB();
    assert VisibleShelves(v) == [] || VisibleShelves(v) == [MockShelves[3], MockShelves[4]];
  }

  /**
   * A selection survives a search that hides its card, so the details card
   * stays for a shelf no longer listed: select `A-1-1`, then search `B`.
   */
  lemma SelectionOutlivesFilter()
    ensures var v := Run(InitialView, [ChooseMode(BrowseMode), ClickShelf("A-1-1"), TypeShelfSearch("B")]);
            && v.selectedShelf == Some("A-1-1")
            && !ShelfVisible(v, "A-1-1")
            && DetailsShown(v)
  {
    var e1, e2, e3 := ChooseMode(BrowseMode), ClickShelf("A-1-1"), TypeShelfSearch("B");
    RunThree(InitialView, e1, e2, e3);
    var v1 := Step(InitialView, e1);
    FirstShelfVisibleWhenBrowsingAll(v1);
    var v2 := Step(v1, e2);
    assert v2.selectedShelf == Some("A-1-1");
    var v3 := Step(v2, e3);
    FirstShelfHiddenBySearchB(v3);
  }
}
