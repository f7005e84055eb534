/** The client-side request helpers: taste names are sent to the backend
    title-cased. */
module DrinksApi {
  import opened Text

  /** `convertTasteCase`: first character upper case, the rest lower
      case. */
  function ConvertTasteCase(taste: string): (r: string)
    ensures |r| == |taste|
    ensures IsTitleCased(r) && SameIgnoringCase(r, taste)
  {
    TitleCase(taste)
  }

  /** Converting is idempotent and keeps the empty string. */
  lemma ConvertTasteCaseIdempotent(taste: string)
    ensures ConvertTasteCase(ConvertTasteCase(taste)) == ConvertTasteCase(taste)
    ensures ConvertTasteCase("") == ""
  {
    TitleCaseIdempotent(taste);
  }

  /** An upper-case backend name becomes its title-cased spelling. */
  lemma ConvertBackendName()
    ensures ConvertTasteCase("SWEET") == "Sweet"
  {
    var r := ConvertTasteCase("SWEET");
    assert r[0] == Upper('S') == 'S';
    assert r[1] == Lower('W') == 'w';
    assert r[2] == Lower('E') == 'e';
    assert r[3] == Lower('E') == 'e';
    assert r[4] == Lower('T') == 't';
  }

  /** The `taste` list `getDrinkByTastes` sends: every selected taste
      converted, in order. */
  function FormattedTastes(tastes: seq<string>): (r: seq<string>)
    ensures |r| == |tastes|
    ensures forall i :: 0 <= i < |tastes| ==> r[i] == ConvertTasteCase(tastes[i])
  {
    if |tastes| == 0 then [] else [ConvertTasteCase(tastes[0])] + FormattedTastes(tastes[1..])
  }

  /** Every name sent is title-cased, and formatting a list twice sends
      the same list. */
  lemma {:induction false} FormattedTastesTitleCased(tastes: seq<string>)
    ensures forall i :: 0 <= i < |tastes| ==> IsTitleCased(FormattedTastes(tastes)[i])
    ensures FormattedTastes(FormattedTastes(tastes)) == FormattedTastes(tastes)
  {
    var r := FormattedTastes(tastes);
    forall i | 0 <= i < |tastes| ensures FormattedTastes(r)[i] == r[i] {
      ConvertTasteCaseIdempotent(tastes[i]);
    }
  }
}
