/** The fixed set of taste categories the backend serves. */
module Categories {
  import opened Wrappers
  import opened Seqs
  import opened Text

  /** `TasteCategories`, in declaration order. */
  datatype TasteCategory =
    | SWEET | SOUR | BITTER | SALTY | UMAMI | FRUITY | FLORAL | SPICY | CREAMY
    | TART | REFRESHING | RICH | LIGHT | EARTHY | CITRUSY | HERBAL | MILKY

  /** What `TasteCategories::iter()` yields: every variant, in
      declaration order. */
  const AllCategories: seq<TasteCategory> := [
    SWEET, SOUR, BITTER, SALTY, UMAMI, FRUITY, FLORAL, SPICY, CREAMY,
    TART, REFRESHING, RICH, LIGHT, EARTHY, CITRUSY, HERBAL, MILKY
  ]

  /** `as_ref()`: the variant's own name. */
  function Name(c: TasteCategory): string {
    match c
    case SWEET => "SWEET"
    case SOUR => "SOUR"
    case BITTER => "BITTER"
    case SALTY => "SALTY"
    case UMAMI => "UMAMI"
    case FRUITY => "FRUITY"
    case FLORAL => "FLORAL"
    case SPICY => "SPICY"
    case CREAMY => "CREAMY"
    case TART => "TART"
    case REFRESHING => "REFRESHING"
    case RICH => "RICH"
    case LIGHT => "LIGHT"
    case EARTHY => "EARTHY"
    case CITRUSY => "CITRUSY"
    case HERBAL => "HERBAL"
    case MILKY => "MILKY"
  }

  /** The variant a name stands for, if any. */
  function Parse(s: string): (r: Option<TasteCategory>)
    ensures r.Some? ==> Name(r.value) == s
  {
    if s == "SWEET" then Some(SWEET)
    else if s == "SOUR" then Some(SOUR)
    else if s == "BITTER" then Some(BITTER)
    else if s == "SALTY" then Some(SALTY)
    else if s == "UMAMI" then Some(UMAMI)
    else if s == "FRUITY" then Some(FRUITY)
    else if s == "FLORAL" then Some(FLORAL)
    else if s == "SPICY" then Some(SPICY)
    else if s == "CREAMY" then Some(CREAMY)
    else if s == "TART" then Some(TART)
    else if s == "REFRESHING" then Some(REFRESHING)
    else if s == "RICH" then Some(RICH)
    else if s == "LIGHT" then Some(LIGHT)
    else if s == "EARTHY" then Some(EARTHY)
    else if s == "CITRUSY" then Some(CITRUSY)
    else if s == "HERBAL" then Some(HERBAL)
    else if s == "MILKY" then Some(MILKY)
    else None
  }

  /** Every name reads back as its variant, so distinct variants have
      distinct names. */
  lemma ParseName(c: TasteCategory)
    ensures Parse(Name(c)) == Some(c)
  {
  }

  /** The name list `get_tastes` returns. */
  function TasteNames(): (names: seq<string>)
    ensures |names| == |AllCategories|
    ensures forall i :: 0 <= i < |names| ==> names[i] == Name(AllCategories[i])
  {
    seq(|AllCategories|, i requires 0 <= i < |AllCategories| => Name(AllCategories[i]))
  }

  /** The iteration lists each variant exactly once. */
  lemma AllCategoriesComplete(c: TasteCategory)
    ensures c in AllCategories
    ensures NoDup(AllCategories)
  {
  }

  /** Every name is written in upper-case letters. */
  lemma NameUpperCase(c: TasteCategory)
    ensures |Name(c)| > 0
    ensures forall k :: 0 <= k < |Name(c)| ==> IsUpperAscii(Name(c)[k])
  {
  }

  /** `get_tastes` returns seventeen distinct names, one per variant, in
      declaration order. */
  lemma TasteNamesSpec()
    ensures |TasteNames()| == 17
    ensures NoDup(TasteNames())
    ensures forall c :: Name(c) in TasteNames()
  {
    var names := TasteNames();
    forall i, j | 0 <= i < j < |names| ensures names[i] != names[j] {
      ParseName(AllCategories[i]);
      ParseName(AllCategories[j]);
    }
    forall c ensures Name(c) in names {
      AllCategoriesComplete(c);
      var i :| 0 <= i < |AllCategories| && AllCategories[i] == c;
      assert names[i] == Name(c);
    }
  }

  /** Each name `get_tastes` returns is upper case. */
  lemma TasteNamesUpperCase(i: nat)
    requires i < |TasteNames()|
    ensures forall k :: 0 <= k < |TasteNames()[i]| ==> IsUpperAscii(TasteNames()[i][k])
  {
    NameUpperCase(AllCategories[i]);
  }
}
