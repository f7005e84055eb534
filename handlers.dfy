/** The backend's request handlers: parameter validation and dispatch of
    the drink lookup, the embedding endpoint, the similarity search and
    the taste list. The document store, the embedding model and the
    vector store are parameters: their answers are given, not computed. */
module Handlers {
  import opened Wrappers
  import opened Json
  import ChromaUtils
  import Categories

  /** A stored drink document. */
  datatype Drink = Drink(
    name: string,
    recipie: seq<string>,
    category: string,
    imageUrl: string,
    drinkUrl: string,
    taste: seq<string>
  )

  /** The body of a drink request; every field is optional. */
  datatype DrinkQuery = DrinkQuery(name: Option<string>, drinkUrl: Option<string>, taste: Option<seq<string>>)

  datatype StatusCode = BadRequest | NotFound | InternalServerError

  /** A handler's outcome: a JSON body, an error status, or a panic of the
      handler task (an `unwrap` of a missing value). */
  datatype Outcome<T> = Ok(body: T) | Err(status: StatusCode) | Panic

  /** The store's answers: one document by URL, one by name, the drinks
      having all the given tastes, and every drink; `None` is a failed
      query or, for the single lookups, no match. */
  datatype Store = Store(
    byUrl: string -> Option<Drink>,
    byName: string -> Option<Drink>,
    byTastes: seq<string> -> Option<seq<Drink>>,
    all: Option<seq<Drink>>
  )

  /** How many of the three parameters are present. */
  function ParamsCount(q: DrinkQuery): (n: nat)
    ensures n <= 3
    ensures n == 0 <==> q.drinkUrl.None? && q.name.None? && q.taste.None?
    ensures n <= 1 ==> (q.drinkUrl.Some? ==> q.name.None? && q.taste.None?) && (q.name.Some? ==> q.taste.None?)
  {
    (if q.drinkUrl.Some? then 1 else 0) + (if q.name.Some? then 1 else 0) + (if q.taste.Some? then 1 else 0)
  }

  /** The lookup a valid request runs. */
  datatype Lookup = ByUrl(url: string) | ByName(name: string) | ByTastes(tastes: seq<string>) | Everything

  /** The `if let … else if let …` chain: URL before name before tastes. */
  function Dispatch(q: DrinkQuery): (l: Lookup)
    ensures l.ByUrl? <==> q.drinkUrl.Some?
    ensures l.ByName? <==> q.drinkUrl.None? && q.name.Some?
    ensures l.ByTastes? <==> q.drinkUrl.None? && q.name.None? && q.taste.Some?
    ensures l.Everything? <==> ParamsCount(q) == 0
  {
    if q.drinkUrl.Some? then ByUrl(q.drinkUrl.value)
    else if q.name.Some? then ByName(q.name.value)
    else if q.taste.Some? then ByTastes(q.taste.value)
    else Everything
  }

  /** `get_drink_handler`. */
  function GetDrinkHandler(store: Store, q: DrinkQuery): (r: Outcome<seq<Drink>>)
    ensures r == Err(BadRequest) <==> ParamsCount(q) > 1
    ensures r.Ok? && (q.drinkUrl.Some? || q.name.Some?) ==> |r.body| == 1
  {
    if ParamsCount(q) > 1 then Err(BadRequest)
    else match Dispatch(q)
      case ByUrl(url) => if store.byUrl(url).Some? then Ok([store.byUrl(url).value]) else Err(NotFound)
      case ByName(name) => if store.byName(name).Some? then Ok([store.byName(name).value]) else Err(NotFound)
      case ByTastes(tastes) => if store.byTastes(tastes).Some? then Ok(store.byTastes(tastes).value) else Err(NotFound)
      case Everything => if store.all.Some? then Ok(store.all.value) else Panic
  }

  /** A request with several parameters is refused before any lookup: the
      answer does not depend on the store. */
  lemma SeveralParamsRejected(s1: Store, s2: Store, q: DrinkQuery)
    requires ParamsCount(q) > 1
    ensures GetDrinkHandler(s1, q) == GetDrinkHandler(s2, q) == Err(BadRequest)
  {
  }

  /** A valid request runs exactly the lookup for its one parameter: the
      answer is the found drink, or the drink list, or NOT_FOUND when the
      lookup gives nothing; with no parameter every drink is returned. */
  lemma DispatchOutcome(store: Store, q: DrinkQuery)
    requires ParamsCount(q) <= 1
    ensures q.drinkUrl.Some? ==>
      (GetDrinkHandler(store, q).Ok? <==> store.byUrl(q.drinkUrl.value).Some?) &&
      (GetDrinkHandler(store, q).Ok? ==> GetDrinkHandler(store, q).body == [store.byUrl(q.drinkUrl.value).value])
    ensures q.name.Some? ==>
      (GetDrinkHandler(store, q).Ok? <==> store.byName(q.name.value).Some?) &&
      (GetDrinkHandler(store, q).Ok? ==> GetDrinkHandler(store, q).body == [store.byName(q.name.value).value])
    ensures q.taste.Some? ==>
      (GetDrinkHandler(store, q).Ok? <==> store.byTastes(q.taste.value).Some?) &&
      (GetDrinkHandler(store, q).Ok? ==> GetDrinkHandler(store, q).body == store.byTastes(q.taste.value).value)
    ensures ParamsCount(q) == 0 ==>
      (store.all.Some? ==> GetDrinkHandler(store, q) == Ok(store.all.value)) &&
      (store.all.None? ==> GetDrinkHandler(store, q) == Panic)
    ensures GetDrinkHandler(store, q) == Err(NotFound) <==> ParamsCount(q) == 1 && !GetDrinkHandler(store, q).Ok?
  {
  }

  /** `get_embedding`: the query parameters in the order the map yields
      them; only the first is looked at. */
  function GetEmbedding(params: seq<(string, string)>, embed: string -> seq<real>): (r: Outcome<seq<real>>)
    ensures r == Err(InternalServerError) <==> |params| == 0
    ensures r.Ok? <==> |params| > 0 && params[0].0 == "text"
    ensures r.Ok? ==> r.body == embed(params[0].1)
    ensures r == Err(NotFound) <==> |params| > 0 && params[0].0 != "text"
  {
    if |params| > 0 then
      if params[0].0 == "text" then Ok(embed(params[0].1)) else Err(NotFound)
    else Err(InternalServerError)
  }

  /** The map's iteration order is not fixed, so a request carrying
      `text` and one more parameter can succeed or fail depending on
      which comes first. */
  lemma EmbeddingDependsOnOrder(embed: string -> seq<real>, t: string, other: (string, string))
    requires other.0 != "text"
    ensures GetEmbedding([("text", t), other], embed).Ok?
    ensures GetEmbedding([other, ("text", t)], embed) == Err(NotFound)
  {
  }

  /** `n_results`: the field when it is an unsigned 64-bit integer, 10
      otherwise. */
  function NResults(body: map<string, Value>): (n: nat)
    ensures "n_results" in body && body["n_results"].Num? && body["n_results"].num.PosInt? ==>
      n == body["n_results"].num.n
    ensures !("n_results" in body && body["n_results"].Num? && body["n_results"].num.PosInt?) ==> n == 10
  {
    if "n_results" in body && AsU64(body["n_results"]).Some? then AsU64(body["n_results"]).value else 10
  }

  /** `chroma_similarity_search`: a request without a string `prompt`
      gets empty lists; otherwise the prompt's embedding is searched for
      `n_results` neighbours. */
  function SimilaritySearchHandler(
    body: map<string, Value>,
    embed: string -> seq<real>,
    query: (seq<real>, nat) -> ChromaUtils.QueryResult
  ): (r: ChromaUtils.SimilarityResponse)
    ensures !("prompt" in body && body["prompt"].Str?) ==> r.uris == [] && r.distances == []
    ensures "prompt" in body && body["prompt"].Str? ==>
      r == ChromaUtils.Response(query(embed(body["prompt"].s), NResults(body)))
  {
    if "prompt" in body && body["prompt"].Str? then
      ChromaUtils.Response(query(embed(body["prompt"].s), NResults(body)))
    else ChromaUtils.SimilarityResponse([], [])
  }

  /** `get_tastes`. */
  function GetTastes(): (names: seq<string>)
    ensures |names| == 17
    ensures forall c :: Categories.Name(c) in names
    ensures names == Categories.TasteNames()
  {
    Categories.TasteNamesSpec();
    Categories.TasteNames()
  }
}
