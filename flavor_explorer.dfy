/** The flavour explorer page: taste buttons that toggle a selection,
    the drinks last fetched for the selection, and the selected drink. */
module FlavorExplorer {
  import opened Wrappers
  import opened Seqs
  import opened Text
  import opened Drinks
  import DrinksApi

  /** `formatTasteForDisplay`: the text of a taste button. */
  function FormatTasteForDisplay(taste: string): string {
    TitleCase(taste)
  }

  /** The button text has the taste's length, is title-cased and equals
      the taste up to case; it is stable under formatting again, keeps
      `""`, and is what `convertTasteCase` sends for the same taste. */
  lemma FormatTasteForDisplaySpec(taste: string)
    ensures |FormatTasteForDisplay(taste)| == |taste|
    ensures IsTitleCased(FormatTasteForDisplay(taste)) && SameIgnoringCase(FormatTasteForDisplay(taste), taste)
    ensures FormatTasteForDisplay(FormatTasteForDisplay(taste)) == FormatTasteForDisplay(taste)
    ensures FormatTasteForDisplay("") == ""
    ensures FormatTasteForDisplay(taste) == DrinksApi.ConvertTasteCase(taste)
  {
    TitleCaseIdempotent(taste);
  }

  // ---------------------------------------------------------------------
  // The selection updater of `handleTasteToggle`

  /** `prev.filter(t => t !== taste)`. */
  function Without(prev: seq<string>, taste: string): (r: seq<string>)
    ensures |r| <= |prev|
  {
    if |prev| == 0 then []
    else (if prev[0] != taste then [prev[0]] else []) + Without(prev[1..], taste)
  }

  /** The filter removes every occurrence of the taste and keeps the
      others. */
  lemma {:induction false} WithoutMembers(prev: seq<string>, taste: string)
    ensures taste !in Without(prev, taste)
    ensures forall t :: t != taste ==> (t in Without(prev, taste) <==> t in prev)
  {
    if |prev| > 0 {
      WithoutMembers(prev[1..], taste);
      assert prev == [prev[0]] + prev[1..];
    }
  }

  lemma {:induction false} WithoutAppend(a: seq<string>, b: seq<string>, taste: string)
    ensures Without(a + b, taste) == Without(a, taste) + Without(b, taste)
  {
    if |a| == 0 {
      assert a + b == b;
    } else {
      var head: seq<string> := if a[0] != taste then [a[0]] else [];
      assert (a + b)[0] == a[0];
      assert (a + b)[1..] == a[1..] + b;
      WithoutAppend(a[1..], b, taste);
      calc {
        Without(a + b, taste);
        head + Without(a[1..] + b, taste);
        head + (Without(a[1..], taste) + Without(b, taste));
        (head + Without(a[1..], taste)) + Without(b, taste);
        Without(a, taste) + Without(b, taste);
      }
    }
  }

  /** A list without the taste is left as it is. */
  lemma {:induction false} WithoutAbsent(prev: seq<string>, taste: string)
    requires taste !in prev
    ensures Without(prev, taste) == prev
  {
    if |prev| > 0 {
      WithoutAbsent(prev[1..], taste);
      assert prev == [prev[0]] + prev[1..];
    }
  }

  /** Filtering keeps a list free of duplicates. */
  lemma {:induction false} WithoutNoDup(prev: seq<string>, taste: string)
    requires NoDup(prev)
    ensures NoDup(Without(prev, taste))
  {
    if |prev| > 0 {
      var tail := prev[1..];
      assert NoDup(tail) by {
        forall i, j | 0 <= i < j < |tail| ensures tail[i] != tail[j] {
          assert tail[i] == prev[i + 1] && tail[j] == prev[j + 1];
        }
      }
      WithoutNoDup(tail, taste);
      WithoutMembers(tail, taste);
      assert prev[0] !in tail by {
        forall k | 0 <= k < |tail| ensures tail[k] != prev[0] {
          assert tail[k] == prev[k + 1];
        }
      }
      var rest := Without(tail, taste);
      assert prev[0] !in rest;
      if prev[0] != taste {
        var r := [prev[0]] + rest;
        forall i, j | 0 <= i < j < |r| ensures r[i] != r[j] {
          if i == 0 {
            assert r[j] == rest[j - 1];
          } else {
            assert r[i] == rest[i - 1] && r[j] == rest[j - 1];
          }
        }
      }
    }
  }

  /** The updater: a selected taste is filtered out, any other taste is
      appended. */
  function Toggle(prev: seq<string>, taste: string): seq<string> {
    if taste in prev then Without(prev, taste) else prev + [taste]
  }

  /** The toggled taste changes membership; every other taste keeps its
      membership. */
  lemma ToggleMembership(prev: seq<string>, taste: string)
    ensures taste in Toggle(prev, taste) <==> taste !in prev
    ensures forall t :: t != taste ==> (t in Toggle(prev, taste) <==> t in prev)
  {
    WithoutMembers(prev, taste);
  }

  /** Apart from the toggled taste, the list is the same list, in the
      same order: removing the taste from the result or from the old
      list gives the same sequence. */
  lemma ToggleKeepsOthers(prev: seq<string>, taste: string)
    ensures Without(Toggle(prev, taste), taste) == Without(prev, taste)
  {
    if taste !in prev {
      WithoutAppend(prev, [taste], taste);
      assert Without([taste], taste) == [];
    } else {
      WithoutMembers(prev, taste);
      WithoutAbsent(Without(prev, taste), taste);
    }
  }

  /** An absent taste is appended at the end; toggling it again gives
      back the original list. */
  lemma ToggleTwiceRestores(prev: seq<string>, taste: string)
    requires taste !in prev
    ensures Toggle(prev, taste) == prev + [taste]
    ensures Toggle(Toggle(prev, taste), taste) == prev
  {
    WithoutAppend(prev, [taste], taste);
    WithoutAbsent(prev, taste);
    assert Without([taste], taste) == [];
  }

  /** Toggling never introduces a duplicate. */
  lemma ToggleNoDup(prev: seq<string>, taste: string)
    requires NoDup(prev)
    ensures NoDup(Toggle(prev, taste))
  {
    if taste in prev {
      WithoutNoDup(prev, taste);
    } else {
      var r := prev + [taste];
      forall i, j | 0 <= i < j < |r| ensures r[i] != r[j] {
        if j == |prev| {
          assert r[i] == prev[i];
        }
      }
    }
  }

  // ---------------------------------------------------------------------
  // The page state

  class FlavorExplorer {
    /** The taste buttons, from the backend's taste list. */
    var tastes: seq<string>
    var tastesLoading: bool
    var selectedTastes: seq<string>
    /** The drinks last fetched for the selection. */
    var drinks: seq<Drink>
    /** The drink shown in the details column, wrapped in a one-element
        list; `None` is `null`. */
    var selectedDrink: Option<seq<Drink>>
    var drinksLoading: bool

    /** The selection never holds a taste twice; with nothing selected
        no drink is listed. */
    predicate Valid()
      reads this
    {
      NoDup(selectedTastes) && (selectedTastes == [] ==> drinks == [])
    }

    /** The first render: tastes loading, nothing selected. */
    constructor()
      ensures Valid()
      ensures tastes == [] && tastesLoading && selectedTastes == []
      ensures drinks == [] && selectedDrink == None && !drinksLoading
    {
      tastes := [];
      tastesLoading := true;
      selectedTastes := [];
      drinks := [];
      selectedDrink := None;
      drinksLoading := false;
    }

    /** The end of `fetchTastes`: the list on success, no change on
        failure; loading is over either way. */
    method TastesFetched(result: Option<seq<string>>)
      modifies this
      ensures tastes == (if result.Some? then result.value else old(tastes))
      ensures !tastesLoading
      ensures selectedTastes == old(selectedTastes) && drinks == old(drinks)
      ensures selectedDrink == old(selectedDrink) && drinksLoading == old(drinksLoading)
    {
      if result.Some? {
        tastes := result.value;
      }
      tastesLoading := false;
    }

    /** `handleTasteToggle`, followed by the effect that runs on every
        change of the selection: the selected drink is cleared, and an
        empty selection empties the list while a non-empty one starts a
        fetch for the title-cased names. */
    method HandleTasteToggle(taste: string) returns (request: Option<seq<string>>)
      requires Valid()
      modifies this
      ensures Valid()
      ensures selectedTastes == Toggle(old(selectedTastes), taste)
      ensures selectedDrink == None
      ensures selectedTastes == [] ==> drinks == [] && drinksLoading == old(drinksLoading) && request == None
      ensures selectedTastes != [] ==>
        drinks == old(drinks) && drinksLoading && request == Some(DrinksApi.FormattedTastes(selectedTastes))
      ensures tastes == old(tastes) && tastesLoading == old(tastesLoading)
    {
      ToggleNoDup(selectedTastes, taste);
      selectedTastes := Toggle(selectedTastes, taste);
      selectedDrink := None;
      if |selectedTastes| > 0 {
        drinksLoading := true;
        request := Some(DrinksApi.FormattedTastes(selectedTastes));
      } else {
        drinks := [];
        request := None;
      }
    }

    /** The end of `fetchDrinksByTastes` started for the current, non-empty
        selection: the answer on success, an empty list on failure. */
    method DrinksFetched(result: Option<seq<Drink>>)
      requires Valid() && selectedTastes != []
      modifies this
      ensures Valid()
      ensures drinks == (if result.Some? then result.value else [])
      ensures !drinksLoading
      ensures selectedTastes == old(selectedTastes) && selectedDrink == old(selectedDrink)
      ensures tastes == old(tastes) && tastesLoading == old(tastesLoading)
    {
      drinks := if result.Some? then result.value else [];
      drinksLoading := false;
    }

    /** `handleDrinkSelect`: the drink, as a one-element list. */
    method HandleDrinkSelect(d: Drink)
      requires Valid()
      modifies this
      ensures Valid()
      ensures selectedDrink == Some([d])
      ensures selectedTastes == old(selectedTastes) && drinks == old(drinks)
      ensures drinksLoading == old(drinksLoading)
      ensures tastes == old(tastes) && tastesLoading == old(tastesLoading)
    {
      selectedDrink := Some([d]);
    }

    /** Whether a taste button is drawn as selected. */
    predicate IsSelected(taste: string)
      reads this
    {
      taste in selectedTastes
    }
  }
}
