/** The adapter over the vector-store client: three call conventions tried in a fixed
    order, then normalisation of the hits into `{id, text, score}` records. */
module VectorSearch {
  import opened Wrappers

  /** The three client methods, in the order they are tried. */
  datatype Convention = Search | SearchPoints | QueryPoints

  const Conventions: seq<Convention> := [Search, SearchPoints, QueryPoints]

  /** The error raised when no convention works. */
  const UnavailableMessage: string :=
    "Unable to call Qdrant search API — check qdrant-client version."

  /** A stored point's payload: a string-keyed record of text fields. */
  type Payload = map<string, string>

  /** One hit as the client returns it; each attribute may be missing. */
  datatype Hit = Hit(id: Option<string>, payload: Option<Payload>, score: Option<real>)

  /** `query_points` answers either with a response object carrying `.points` or with
      the list of hits itself. */
  datatype QueryResponse = WithPoints(points: seq<Hit>) | PlainHits(hits: seq<Hit>)

  /** The vector-store client: one oracle per convention, each given the query vector and
      the limit, each of which may raise. */
  datatype Store = Store(
    search: (seq<real>, int) -> Outcome<seq<Hit>>,
    searchPoints: (seq<real>, int) -> Outcome<seq<Hit>>,
    queryPoints: (seq<real>, int) -> Outcome<QueryResponse>)

  /** A normalised search record. */
  datatype Chunk = Chunk(id: Option<string>, text: Option<string>, score: Option<real>)

  /** The hits one convention yields, with `.points` taken from a query response. */
  function Attempt(store: Store, c: Convention, vector: seq<real>, topK: int): (r: Outcome<seq<Hit>>)
    // the convention fails exactly when its client method raises
    ensures c == Search ==> r == store.search(vector, topK)
    ensures c == SearchPoints ==> r == store.searchPoints(vector, topK)
    ensures c == QueryPoints ==> (r.Fail? <==> store.queryPoints(vector, topK).Fail?)
    // `query_points` gives its `.points` when it has them, otherwise the response itself
    ensures c == QueryPoints && r.Ok? ==>
      store.queryPoints(vector, topK) in {Ok(WithPoints(r.value)), Ok(PlainHits(r.value))}
  {
    match c
    case Search => store.search(vector, topK)
    case SearchPoints => store.searchPoints(vector, topK)
    case QueryPoints =>
      match store.queryPoints(vector, topK)
      case Ok(WithPoints(points)) => Ok(points)
      case Ok(PlainHits(hits)) => Ok(hits)
      case Fail(m) => Fail(m)
  }

  /** The result of `_qdrant_search_flexible` and the conventions it called, in order. */
  datatype SearchRun = SearchRun(result: Outcome<seq<Hit>>, tried: seq<Convention>)

  /** `_qdrant_search_flexible`: the first convention that does not raise gives the hits;
      the error is raised only after all three have raised. */
  function SearchFlexible(store: Store, vector: seq<real>, topK: int): (r: SearchRun)
    ensures 1 <= |r.tried| <= 3 && r.tried == Conventions[..|r.tried|]
    ensures forall j :: 0 <= j < |r.tried| - 1 ==> Attempt(store, r.tried[j], vector, topK).Fail?
    ensures r.result.Ok? ==> r.result == Attempt(store, r.tried[|r.tried| - 1], vector, topK)
    ensures r.result.Fail? <==>
      forall c :: c in Conventions ==> Attempt(store, c, vector, topK).Fail?
    ensures r.result.Fail? ==> r.tried == Conventions && r.result.msg == UnavailableMessage
  {
    var first := Attempt(store, Search, vector, topK);
    if first.Ok? then SearchRun(first, [Search])
    else
      var second := Attempt(store, SearchPoints, vector, topK);
      if second.Ok? then SearchRun(second, [Search, SearchPoints])
      else
        var third := Attempt(store, QueryPoints, vector, topK);
        if third.Ok? then SearchRun(third, Conventions)
        else SearchRun(Fail(UnavailableMessage), Conventions)
  }

  /** The text a hit carries: the payload's `"text"` field, or none when the payload is
      missing, empty or has no such field. */
  function HitText(payload: Option<Payload>): (t: Option<string>)
    ensures t.Some? <==> payload.Some? && "text" in payload.value
    ensures t.Some? ==> t.value == payload.value["text"]
  {
    if payload.Some? && |payload.value| > 0 && "text" in payload.value then Some(payload.value["text"])
    else None
  }

  /** One hit as a record. */
  function ToChunk(h: Hit): (c: Chunk)
    ensures c.id == h.id && c.score == h.score && c.text == HitText(h.payload)
  {
    Chunk(h.id, HitText(h.payload), h.score)
  }

  /** All hits as records. */
  function Normalize(hits: seq<Hit>): (cs: seq<Chunk>)
    ensures |cs| == |hits|
    ensures forall i :: 0 <= i < |hits| ==> cs[i] == ToChunk(hits[i])
  {
    if hits == [] then [] else [ToChunk(hits[0])] + Normalize(hits[1..])
  }

  /** Normalising concatenated hit lists concatenates the records: order is kept. */
  lemma {:induction false} NormalizeAppend(a: seq<Hit>, b: seq<Hit>)
    ensures Normalize(a + b) == Normalize(a) + Normalize(b)
  {
    var l, r := Normalize(a + b), Normalize(a) + Normalize(b);
    assert |l| == |r|;
    forall i | 0 <= i < |l| ensures l[i] == r[i] {
      if i < |a| { assert (a + b)[i] == a[i]; } else { assert (a + b)[i] == b[i - |a|]; }
    }
  }

  /** `search_qdrant` as a value: the hits of the first working convention, normalised. */
  function SearchChunks(store: Store, vector: seq<real>, topK: int): (r: Outcome<seq<Chunk>>)
    ensures var run := SearchFlexible(store, vector, topK);
      && (r.Ok? <==> run.result.Ok?)
      // one record per hit, in the order of the hits
      && (r.Ok? ==>
            && |r.value| == |run.result.value|
            && forall i :: 0 <= i < |r.value| ==> r.value[i] == ToChunk(run.result.value[i]))
      // the only error is the one raised after all three conventions failed
      && (r.Fail? ==> r.msg == UnavailableMessage)
  {
    var run := SearchFlexible(store, vector, topK);
    if run.result.Ok? then Ok(Normalize(run.result.value)) else Fail(run.result.msg)
  }

  /** `search_qdrant`: the loop appending one record per hit. */
  method SearchQdrant(store: Store, vector: seq<real>, topK: int) returns (r: Outcome<seq<Chunk>>)
    ensures r == SearchChunks(store, vector, topK)
    ensures r.Ok? ==> |r.value| == |SearchFlexible(store, vector, topK).result.value|
  {
    var run := SearchFlexible(store, vector, topK);
    if run.result.Fail? {
      return Fail(run.result.msg);
    }
    var hits := run.result.value;
    var results: seq<Chunk> := [];
    var i := 0;
    while i < |hits|
      invariant 0 <= i <= |hits|
      invariant results == Normalize(hits[..i])
    {
      NormalizeAppend(hits[..i], [hits[i]]);
      assert hits[..i + 1] == hits[..i] + [hits[i]];
      results := results + [ToChunk(hits[i])];
      i := i + 1;
    }
    assert hits[..i] == hits;
    assert results == Normalize(hits);
    r := Ok(results);
  }

  /** When the first convention works, the other two are never called. */
  lemma {:induction false} PreferredConventionFirst(store: Store, vector: seq<real>, topK: int)
    requires store.search(vector, topK).Ok?
    ensures SearchFlexible(store, vector, topK).tried == [Search]
    ensures SearchChunks(store, vector, topK) == Ok(Normalize(store.search(vector, topK).value))
  {
  }

  /** A response with `.points` and a bare list of hits are treated alike. */
  lemma {:induction false} QueryPointsEitherShape(store: Store, vector: seq<real>, topK: int, hits: seq<Hit>)
    requires store.search(vector, topK).Fail? && store.searchPoints(vector, topK).Fail?
    requires store.queryPoints(vector, topK) == Ok(WithPoints(hits)) || store.queryPoints(vector, topK) == Ok(PlainHits(hits))
    ensures SearchChunks(store, vector, topK) == Ok(Normalize(hits))
  {
    assert Attempt(store, QueryPoints, vector, topK) == Ok(hits);
  }
}
