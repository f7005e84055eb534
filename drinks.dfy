/** The drink record the front-end components receive from the API. */
module Drinks {
  import opened Wrappers

  /** `taste` may be absent from a record; `cluster` is a non-negative
      integer id; `tsneX`/`tsneY` are the 2-D projection coordinates. */
  datatype Drink = Drink(
    name: string,
    category: string,
    taste: Option<seq<string>>,
    cluster: nat,
    tsneX: real,
    tsneY: real,
    ingredientsNoUnits: seq<string>
  )

  /** `drink.taste || []`. */
  function Tastes(d: Drink): seq<string> {
    d.taste.GetOr([])
  }

  /** The `colorBy` property of the charts; any value other than
      `'category'` and `'taste'` behaves as `'cluster'`. */
  datatype ColorBy = ByCluster | ByCategory | ByTaste
}
