/** The drink visualisation page: the category list, the category filter
    with its `"all"` sentinel, the option labels, and the page state the
    handlers replace. */
module DrinkVisualization {
  import opened Wrappers
  import opened Seqs
  import opened Text
  import opened Drinks

  /** The filter value that shows every drink. */
  const AllCategories: string := "all"

  function CategorySeq(drinks: seq<Drink>): (r: seq<string>)
    ensures |r| == |drinks| && forall k :: 0 <= k < |drinks| ==> r[k] == drinks[k].category
  {
    seq(|drinks|, k requires 0 <= k < |drinks| => drinks[k].category)
  }

  /** `[...new Set(drinks.map(drink => drink.category))]`. */
  function Categories(drinks: seq<Drink>): seq<string> {
    Dedup(CategorySeq(drinks))
  }

  /** The categories are distinct, include every drink's category and
      nothing else, in order of first appearance. */
  lemma CategoriesFirstSeen(drinks: seq<Drink>)
    ensures NoDup(Categories(drinks))
    ensures forall c :: c in Categories(drinks) <==> exists k :: 0 <= k < |drinks| && drinks[k].category == c
    ensures forall a, b :: 0 <= a < b < |Categories(drinks)| ==>
      IndexOf(CategorySeq(drinks), Categories(drinks)[a]) < IndexOf(CategorySeq(drinks), Categories(drinks)[b])
  {
    var cs := CategorySeq(drinks);
    forall c ensures c in Categories(drinks) <==> exists k :: 0 <= k < |drinks| && drinks[k].category == c {
      DedupMembership(cs, c);
    }
    forall a, b | 0 <= a < b < |Categories(drinks)|
      ensures IndexOf(cs, Categories(drinks)[a]) < IndexOf(cs, Categories(drinks)[b])
    {
      DedupFirstSeenOrder(cs, a, b);
    }
  }

  /** `drinks.filter(drink => drink.category === category)`. */
  function InCategory(drinks: seq<Drink>, category: string): (r: seq<Drink>)
    ensures |r| <= |drinks|
  {
    if |drinks| == 0 then []
    else (if drinks[0].category == category then [drinks[0]] else []) + InCategory(drinks[1..], category)
  }

  /** The filter keeps exactly the drinks of the category. */
  lemma {:induction false} InCategoryMembers(drinks: seq<Drink>, category: string)
    ensures forall d :: d in InCategory(drinks, category) <==> d in drinks && d.category == category
  {
    if |drinks| > 0 {
      InCategoryMembers(drinks[1..], category);
      assert drinks == [drinks[0]] + drinks[1..];
    }
  }

  /** The filter keeps the drinks' order: it distributes over
      concatenation. */
  lemma {:induction false} InCategoryAppend(a: seq<Drink>, b: seq<Drink>, category: string)
    ensures InCategory(a + b, category) == InCategory(a, category) + InCategory(b, category)
  {
    if |a| == 0 {
      assert a + b == b;
    } else {
      var head: seq<Drink> := if a[0].category == category then [a[0]] else [];
      assert (a + b)[0] == a[0];
      assert (a + b)[1..] == a[1..] + b;
      InCategoryAppend(a[1..], b, category);
      calc {
        InCategory(a + b, category);
        head + InCategory(a[1..] + b, category);
        head + (InCategory(a[1..], category) + InCategory(b, category));
        (head + InCategory(a[1..], category)) + InCategory(b, category);
        InCategory(a, category) + InCategory(b, category);
      }
    }
  }

  /** Filtering a list whose drinks all have the category keeps it whole. */
  lemma {:induction false} InCategoryOfCategory(drinks: seq<Drink>, category: string)
    requires forall k :: 0 <= k < |drinks| ==> drinks[k].category == category
    ensures InCategory(drinks, category) == drinks
  {
    if |drinks| > 0 {
      InCategoryOfCategory(drinks[1..], category);
      assert drinks == [drinks[0]] + drinks[1..];
    }
  }

  /** `filteredDrinks`: every drink for `'all'`, the drinks of the selected
      category otherwise. */
  function FilteredDrinks(drinks: seq<Drink>, activeFilter: string): seq<Drink> {
    if activeFilter == AllCategories then drinks else InCategory(drinks, activeFilter)
  }

  /** `'all'` keeps the list; any other filter keeps exactly the drinks of
      that category, in order; the result is never longer. */
  lemma FilterSpec(drinks: seq<Drink>, activeFilter: string)
    ensures activeFilter == AllCategories ==> FilteredDrinks(drinks, activeFilter) == drinks
    ensures activeFilter != AllCategories ==>
      forall d :: d in FilteredDrinks(drinks, activeFilter) <==> d in drinks && d.category == activeFilter
    ensures |FilteredDrinks(drinks, activeFilter)| <= |drinks|
  {
    InCategoryMembers(drinks, activeFilter);
  }

  /** Filtering twice by the same filter is filtering once. */
  lemma FilterIdempotent(drinks: seq<Drink>, activeFilter: string)
    ensures FilteredDrinks(FilteredDrinks(drinks, activeFilter), activeFilter) == FilteredDrinks(drinks, activeFilter)
  {
    if activeFilter != AllCategories {
      var r := InCategory(drinks, activeFilter);
      InCategoryMembers(drinks, activeFilter);
      assert forall k :: 0 <= k < |r| ==> r[k] in r;
      InCategoryOfCategory(r, activeFilter);
    }
  }

  /** The text of a category option: `category.replace('_', ' ')`, which
      replaces the first underscore only. */
  function OptionLabel(category: string): (text: string)
    ensures |text| == |category|
    ensures '_' !in category ==> text == category
  {
    ReplaceFirst(category, '_', ' ')
  }

  /** A category with two underscores keeps the second one. */
  lemma OptionLabelKeepsLaterUnderscores()
    ensures OptionLabel("a_b_c") == "a b_c"
  {
    assert "a_b_c"[0] != '_';
    assert "a_b_c"[1..] == "_b_c";
  }

  /** The page state: the fetched drinks, the filter, the selected drink,
      the chart shown and the colour mode. */
  datatype VizState = VizState(
    drinks: seq<Drink>,
    activeFilter: string,
    selectedDrink: Option<Drink>,
    activeChart: string,
    colorBy: ColorBy
  )

  /** The state before the fetch completes. */
  const Initial: VizState := VizState([], AllCategories, None, "honeycomb", ByCluster)

  /** `handleFilterChange`: only the filter is replaced. */
  function HandleFilterChange(s: VizState, filter: string): (t: VizState)
    ensures t.activeFilter == filter
  {
    s.(activeFilter := filter)
  }

  /** `handleDrinkSelect`. */
  function HandleDrinkSelect(s: VizState, d: Drink): (t: VizState)
    ensures t.selectedDrink == Some(d)
  {
    s.(selectedDrink := Some(d))
  }

  /** Changing the filter keeps the selected drink, even one the new filter
      hides, and the full data set. */
  lemma FilterChangeKeepsSelection(s: VizState, filter: string, d: Drink)
    requires s.selectedDrink == Some(d)
    ensures HandleFilterChange(s, filter).selectedDrink == Some(d)
    ensures HandleFilterChange(s, filter).drinks == s.drinks
    ensures filter != AllCategories && d.category != filter ==>
      d !in FilteredDrinks(HandleFilterChange(s, filter).drinks, filter)
  {
    InCategoryMembers(s.drinks, filter);
  }

  /** The honeycomb gets the filtered drinks as `data` and every drink as
      `fullData`, and scales both axes to the extents of `fullData`: every
      displayed record lies inside those extents. */
  lemma DisplayedWithinFullExtent(s: VizState, d: Drink)
    requires d in FilteredDrinks(s.drinks, s.activeFilter)
    ensures Extent(XValues(s.drinks)).Some?
    ensures Extent(YValues(s.drinks)).Some?
    ensures var x := Extent(XValues(s.drinks)).value;
      var y := Extent(YValues(s.drinks)).value;
      x.lo <= d.tsneX <= x.hi && y.lo <= d.tsneY <= y.hi
  {
    FilterSpec(s.drinks, s.activeFilter);
    var k :| 0 <= k < |s.drinks| && s.drinks[k] == d;
    assert XValues(s.drinks)[k] == d.tsneX;
    assert YValues(s.drinks)[k] == d.tsneY;
  }

  // ---------------------------------------------------------------------
  // Axis extents of the honeycomb chart

  /** `[min, max]` of a list of coordinates. */
  datatype Range = Range(lo: real, hi: real)

  /** `d3.extent(xs)`: `None` (`[undefined, undefined]`) for an empty
      list, otherwise the least and the greatest value. */
  function Extent(xs: seq<real>): (r: Option<Range>)
    ensures r.Some? <==> |xs| > 0
    ensures r.Some? ==> forall i :: 0 <= i < |xs| ==> r.value.lo <= xs[i] <= r.value.hi
    ensures r.Some? ==> r.value.lo in xs && r.value.hi in xs
  {
    if |xs| == 0 then None
    else
      var last := xs[|xs| - 1];
      match Extent(xs[..|xs| - 1])
      case None => Some(Range(last, last))
      case Some(Range(lo, hi)) =>
        assert forall i :: 0 <= i < |xs| - 1 ==> xs[i] == xs[..|xs| - 1][i];
        Some(Range(if last < lo then last else lo, if hi < last then last else hi))
  }

  /** The x and the y coordinates of the records, in order. */
  function XValues(data: seq<Drink>): (xs: seq<real>)
    ensures |xs| == |data| && forall k :: 0 <= k < |data| ==> xs[k] == data[k].tsneX
  {
    seq(|data|, k requires 0 <= k < |data| => data[k].tsneX)
  }

  function YValues(data: seq<Drink>): (ys: seq<real>)
    ensures |ys| == |data| && forall k :: 0 <= k < |data| ==> ys[k] == data[k].tsneY
  {
    seq(|data|, k requires 0 <= k < |data| => data[k].tsneY)
  }
}
