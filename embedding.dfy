/** The lazily loaded sentence-embedding model: a module-level slot that is unloaded at
    start, holds the model after a successful load, and is marked failed after an
    unsuccessful one, after which loading is never attempted again. */
module Embedding {
  import opened Wrappers

  /** Length of the vectors the model produces, and of the fallback vector. */
  const EmbeddingDim: nat := 384

  /** The loaded sentence-transformer, identified by its name; its internals are not modelled. */
  datatype Model = Model(name: string)

  type Vector = seq<real>

  /** The three values of the slot: `None`, a model object, or `False`. */
  datatype LoaderState = Unloaded | Loaded(model: Model) | Failed

  /** One call of the loader: only an unloaded slot tries to load, and the attempt's
      outcome decides the new state; a loaded or failed slot stays as it is. */
  function Step(s: LoaderState, load: Outcome<Model>): (r: LoaderState)
    ensures r != Unloaded
    ensures s != Unloaded ==> r == s
    // the first attempt caches the model it loads, or marks the slot failed
    ensures s == Unloaded && load.Ok? ==> Available(r) == Some(load.value)
    ensures s == Unloaded && load.Fail? ==> Available(r) == None
  {
    match s
    case Unloaded => if load.Ok? then Loaded(load.value) else Failed
    case _ => s
  }

  /** What the loader returns: the model if one is loaded, and nothing otherwise. */
  function Available(s: LoaderState): (m: Option<Model>)
    ensures m.Some? <==> s.Loaded?
  {
    if s.Loaded? then Some(s.model) else None
  }

  /** The state after a series of loader calls, each offered the outcome a load would have. */
  function Run(s: LoaderState, loads: seq<Outcome<Model>>): LoaderState
    decreases |loads|
  {
    if loads == [] then s else Run(Step(s, loads[0]), loads[1..])
  }

  /** Once a load has been attempted, later calls change nothing: in particular a failed
      load is never retried. */
  lemma {:induction false} SettledStaysSettled(s: LoaderState, loads: seq<Outcome<Model>>)
    requires s != Unloaded
    ensures Run(s, loads) == s
  {
    if loads != [] {
      SettledStaysSettled(Step(s, loads[0]), loads[1..]);
    }
  }

  /** Only the first call's load attempt matters. */
  lemma {:induction false} FirstLoadDecides(load: Outcome<Model>, later: seq<Outcome<Model>>)
    ensures Run(Unloaded, [load] + later) == Step(Unloaded, load)
    ensures load.Fail? ==> Run(Unloaded, [load] + later) == Failed
    ensures load.Ok? ==> Available(Run(Unloaded, [load] + later)) == Some(load.value)
  {
    assert ([load] + later)[1..] == later;
    SettledStaysSettled(Step(Unloaded, load), later);
  }

  /** `[0.0] * n`. */
  function Zeros(n: nat): (v: Vector)
    ensures |v| == n && forall i :: 0 <= i < n ==> v[i] == 0.0
  {
    seq(n, i => 0.0)
  }

  /** The vector `embed_text` returns once the loader has run: the model's encoding if a
      model is loaded, the zero vector of the model's width otherwise. Encoding can raise. */
  function Embed(s: LoaderState, text: string, encode: (Model, string) -> Outcome<Vector>): (r: Outcome<Vector>)
    ensures s.Loaded? ==> r == encode(s.model, text)
    ensures !s.Loaded? ==> r.Ok? && |r.value| == EmbeddingDim && forall i :: 0 <= i < |r.value| ==> r.value[i] == 0.0
  {
    match Available(s)
    case Some(m) => encode(m, text)
    case None => Ok(Zeros(EmbeddingDim))
  }

  /** Without a model, embedding never raises and always yields 384 zeros, however many
      calls come before. */
  lemma {:induction false} FallbackAfterFailure(loads: seq<Outcome<Model>>, text: string,
                                                encode: (Model, string) -> Outcome<Vector>)
    requires loads != [] && loads[0].Fail?
    ensures Embed(Run(Unloaded, loads), text, encode) == Ok(Zeros(EmbeddingDim))
  {
    FirstLoadDecides(loads[0], loads[1..]);
    assert [loads[0]] + loads[1..] == loads;
  }

  /** The slot `_embedding_model` together with the two functions that use it. */
  class Embedder {
    var state: LoaderState
    /** How many times loading has been attempted. */
    ghost var attempts: nat

    constructor ()
      ensures state == Unloaded && attempts == 0
    {
      state := Unloaded;
      attempts := 0;
    }

    /** The slot is unloaded exactly when no attempt has been made, and at most one is made. */
    ghost predicate Valid()
      reads this
    {
      attempts <= 1 && (state == Unloaded <==> attempts == 0)
    }

    /** `get_embedding_model`: `load` is what importing and constructing the model would
        give; it is only consulted while the slot is unloaded. */
    method GetModel(load: Outcome<Model>) returns (m: Option<Model>)
      requires Valid()
      modifies this
      ensures Valid()
      ensures state == Step(old(state), load)
      ensures m == Available(state)
      ensures attempts == 1
    {
      if state == Unloaded {
        attempts := attempts + 1;
        match load
        case Ok(model) =>
          state := Loaded(model);
        case Fail(_) =>
          state := Failed;
      }
      m := if state.Loaded? then Some(state.model) else None;
    }

    /** `embed_text`: load the model if needed, then encode or fall back to zeros. */
    method EmbedText(text: string, load: Outcome<Model>, encode: (Model, string) -> Outcome<Vector>)
      returns (v: Outcome<Vector>)
      requires Valid()
      modifies this
      ensures Valid()
      ensures state == Step(old(state), load)
      ensures v == Embed(state, text, encode)
    {
      var model := GetModel(load);
      if model.Some? {
        v := encode(model.value, text);
      } else {
        v := Ok(Zeros(EmbeddingDim));
      }
    }
  }

  /** Two embeddings in a row: a failed first load leaves the second call on the zero
      vector even when the second load would have succeeded. */
  method EmbedTwice(e: Embedder, t1: string, t2: string, l1: Outcome<Model>, l2: Outcome<Model>,
                    encode: (Model, string) -> Outcome<Vector>)
      returns (v1: Outcome<Vector>, v2: Outcome<Vector>)
    requires e.Valid() && e.state == Unloaded && l1.Fail?
    modifies e
    ensures e.state == Failed && e.attempts == 1
    ensures v1 == Ok(Zeros(EmbeddingDim)) && v2 == Ok(Zeros(EmbeddingDim))
  {
    v1 := e.EmbedText(t1, l1, encode);
    v2 := e.EmbedText(t2, l2, encode);
  }
}
