/**
 * `DataLoader.load_and_preprocess_data`: load the file once, then hand the frame through the
 * preprocessors in list order, each one getting what the previous one returned.
 */
module BaseLoader {
  import opened Wrappers

  /** A preprocessor's `preprocess`: a new frame, or the exception it raised. */
  type Preprocessor<!D> = D -> Result<D, string>

  /** The calls the method makes, in order: `load_data` once, then `preprocess` of the `i`-th preprocessor. */
  datatype Call = LoadData(filePath: string) | Preprocess(i: nat)

  /** `if preprocessors:`: None and the empty list both mean no preprocessing. */
  function Steps<D>(preprocessors: Option<seq<Preprocessor<D>>>): seq<Preprocessor<D>>
  {
    match preprocessors
    case None => []
    case Some(ps) => ps
  }

  /** The left fold: each step gets the previous step's frame; the first exception ends it. */
  function Fold<D>(df: D, ps: seq<Preprocessor<D>>): Result<D, string>
  {
    if ps == [] then Success(df)
    else match ps[0](df)
      case Failure(e) => Failure(e)
      case Success(next) => Fold(next, ps[1..])
  }

  /** How many preprocessors run: all of them, or up to and including the one that raised. */
  function Invoked<D>(df: D, ps: seq<Preprocessor<D>>): (n: nat)
    ensures n <= |ps|
    ensures Fold(df, ps).Success? ==> n == |ps|
  {
    if ps == [] then 0
    else match ps[0](df)
      case Failure(_) => 1
      case Success(next) => 1 + Invoked(next, ps[1..])
  }

  /** The calls to `preprocess`, `0` to `n - 1`. */
  function PreprocessCalls(n: nat): (calls: seq<Call>)
    ensures |calls| == n
    ensures forall i :: 0 <= i < n ==> calls[i] == Preprocess(i)
  {
    seq(n, i requires 0 <= i < n => Preprocess(i))
  }

  /** One more preprocessor at the end gets the frame the others produced, and its result is the result. */
  lemma {:induction false} FoldSnoc<D>(df: D, ps: seq<Preprocessor<D>>, p: Preprocessor<D>)
    ensures Fold(df, ps + [p]) == match Fold(df, ps) case Failure(e) => Failure(e) case Success(d) => p(d)
    ensures Invoked(df, ps + [p]) == if Fold(df, ps).Success? then |ps| + 1 else Invoked(df, ps)
  {
    if ps == [] {
      assert ps + [p] == [p];
    } else {
      assert (ps + [p])[1..] == ps[1..] + [p];
      match ps[0](df)
      case Failure(_) =>
      case Success(next) => FoldSnoc(next, ps[1..], p);
    }
  }

  /** Folding over two lists one after the other is folding over their concatenation. */
  lemma {:induction false} FoldAppend<D>(df: D, ps: seq<Preprocessor<D>>, qs: seq<Preprocessor<D>>)
    ensures Fold(df, ps + qs) == match Fold(df, ps) case Failure(e) => Failure(e) case Success(d) => Fold(d, qs)
  {
    if ps == [] {
      assert ps + qs == qs;
    } else {
      assert (ps + qs)[1..] == ps[1..] + qs;
      match ps[0](df)
      case Failure(_) =>
      case Success(next) => FoldAppend(next, ps[1..], qs);
    }
  }

  /**
   * The method. `load` is the subclass's `load_data`, here a parameter; `calls` records the
   * calls made: `load_data` exactly once and first, no preprocessor when it raised, otherwise
   * each preprocessor once, in list order, until one raises.
   */
  method LoadAndPreprocessData<D>(load: string -> Result<D, string>, filePath: string,
                                  preprocessors: Option<seq<Preprocessor<D>>>)
    returns (r: Result<D, string>, ghost calls: seq<Call>)
    ensures load(filePath).Failure? ==> r == Failure(load(filePath).error) && calls == [LoadData(filePath)]
    ensures load(filePath).Success? ==>
      && r == Fold(load(filePath).value, Steps(preprocessors))
      && calls == [LoadData(filePath)] + PreprocessCalls(Invoked(load(filePath).value, Steps(preprocessors)))
  {
    calls := [LoadData(filePath)];
    var loaded := load(filePath);
    if loaded.Failure? {
      return Failure(loaded.error), calls;
    }
    var df := loaded.value;
    var ps := Steps(preprocessors);
    var i := 0;
    while i < |ps|
      invariant 0 <= i <= |ps|
      invariant Fold(loaded.value, ps[..i]) == Success(df)
      invariant Invoked(loaded.value, ps[..i]) == i
      invariant calls == [LoadData(filePath)] + PreprocessCalls(i)
    {
      calls := calls + [Preprocess(i)];
      FoldSnoc(loaded.value, ps[..i], ps[i]);
      assert ps[..i + 1] == ps[..i] + [ps[i]];
      var next := ps[i](df);
      if next.Failure? {
        FoldAppend(loaded.value, ps[..i + 1], ps[i + 1..]);
        assert ps[..i + 1] + ps[i + 1..] == ps;
        InvokedStops(loaded.value, ps[..i + 1], ps[i + 1..]);
        assert PreprocessCalls(i + 1) == PreprocessCalls(i) + [Preprocess(i)];
        return Failure(next.error), calls;
      }
      df := next.value;
      i := i + 1;
      assert PreprocessCalls(i) == PreprocessCalls(i - 1) + [Preprocess(i - 1)];
    }
    assert ps[..i] == ps;
    r := Success(df);
  }

  /** Once a preprocessor has raised, the ones after it are not invoked. */
  lemma {:induction false} InvokedStops<D>(df: D, ps: seq<Preprocessor<D>>, qs: seq<Preprocessor<D>>)
    requires Fold(df, ps).Failure?
    ensures Invoked(df, ps + qs) == Invoked(df, ps)
  {
    assert ps != [];
    assert (ps + qs)[1..] == ps[1..] + qs;
    match ps[0](df)
    case Failure(_) =>
    case Success(next) => InvokedStops(next, ps[1..], qs);
  }
}
