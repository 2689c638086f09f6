/**
 * `Trainer`: holds a classifier wrapper, a vectorizer and the hyperparameter grid, and sets up
 * a grid search over a two-step pipeline. The search itself (fitting, scoring, choosing the
 * best estimator) is scikit-learn's and stays abstract.
 */
module Training {
  import opened Wrappers
  import opened Values
  import opened Registry
  import opened ClassifierModels

  /** The prefix that routes a grid entry to the pipeline's `classifier` step. */
  const ClassifierPrefix: string := "classifier__"

  /** A step of the scikit-learn pipeline: the vectorizer object or the estimator. */
  datatype Step<V> = VectorizerStep(vectorizer: V) | EstimatorStep(estimator: Estimator)

  /** What `GridSearchCV(...)` is given. */
  datatype GridSearch<V> = GridSearch(
    pipeline: seq<(string, Step<V>)>,
    paramGrid: Grid,
    cv: nat,
    scoring: string,
    verbose: int)

  /** `grid_search.best_estimator_` after `fit`: which one it is, is left to scikit-learn. */
  datatype FittedModel<V> = BestEstimator(search: GridSearch<V>, xTrain: seq<string>, yTrain: seq<Value>)

  /** `hyperparams or classifier.get_hyperparameters()`: None and the empty dict are falsy. */
  function SelectGrid(hyperparams: Option<Grid>, classifier: TextClassifier): (g: Grid)
    ensures hyperparams.Some? && hyperparams.value != [] ==> g == hyperparams.value
    ensures hyperparams.None? || hyperparams.value == [] ==> g == GetHyperparameters(classifier)
    ensures g != []
  {
    match hyperparams
    case Some(h) => if h != [] then h else GetHyperparameters(classifier)
    case None => GetHyperparameters(classifier)
  }

  /** `{"classifier__" + key: value for key, value in grid.items()}`. */
  function PrefixKeys(g: Grid): (pg: Grid)
    ensures |pg| == |g|
  {
    if g == [] then [] else [(ClassifierPrefix + g[0].0, g[0].1)] + PrefixKeys(g[1..])
  }

  /** The names the classifier step sees: each key with the routing prefix taken off. */
  function StripPrefix(pg: Grid): (g: Grid)
    requires forall i :: 0 <= i < |pg| ==> ClassifierPrefix <= pg[i].0
    ensures |g| == |pg|
  {
    if pg == [] then [] else [(pg[0].0[|ClassifierPrefix|..], pg[0].1)] + StripPrefix(pg[1..])
  }

  /** Every prefixed key carries the prefix, in the position of the key it came from, with that key's values. */
  lemma {:induction false} PrefixKeysAt(g: Grid, i: nat)
    requires i < |g|
    ensures PrefixKeys(g)[i] == (ClassifierPrefix + g[i].0, g[i].1)
  {
    if i > 0 {
      PrefixKeysAt(g[1..], i - 1);
    }
  }

  lemma PrefixInjective(a: string, b: string)
    ensures ClassifierPrefix + a == ClassifierPrefix + b ==> a == b
  {
    assert (ClassifierPrefix + a)[|ClassifierPrefix|..] == a;
    assert (ClassifierPrefix + b)[|ClassifierPrefix|..] == b;
  }

  /** Looking up `"classifier__" + k` in the prefixed grid finds exactly what `k` finds in the grid. */
  lemma {:induction false} PrefixKeysLookup(g: Grid, k: string)
    ensures Get(PrefixKeys(g), ClassifierPrefix + k) == Get(g, k)
  {
    if g != [] {
      PrefixKeysLookup(g[1..], k);
      PrefixInjective(g[0].0, k);
    }
  }

  /** Prefixing is injective, so distinct grid keys stay distinct. */
  lemma PrefixKeysDistinct(g: Grid)
    requires DistinctKeys(g)
    ensures DistinctKeys(PrefixKeys(g))
  {
    var pg := PrefixKeys(g);
    forall i, j | 0 <= i < j < |pg| ensures pg[i].0 != pg[j].0 {
      PrefixKeysAt(g, i);
      PrefixKeysAt(g, j);
      assert pg[i].0[|ClassifierPrefix|..] == g[i].0;
      assert pg[j].0[|ClassifierPrefix|..] == g[j].0;
    }
  }

  /** Taking the prefix off again gives back the grid: keys, values and order. */
  lemma {:induction false} PrefixKeysRoundTrip(g: Grid)
    ensures forall i :: 0 <= i < |PrefixKeys(g)| ==> ClassifierPrefix <= PrefixKeys(g)[i].0
    ensures StripPrefix(PrefixKeys(g)) == g
  {
    forall i | 0 <= i < |PrefixKeys(g)| ensures ClassifierPrefix <= PrefixKeys(g)[i].0 {
      PrefixKeysAt(g, i);
    }
    if g != [] {
      PrefixKeysRoundTrip(g[1..]);
      assert (ClassifierPrefix + g[0].0)[|ClassifierPrefix|..] == g[0].0;
    }
  }

  /** The search tries as many combinations over the prefixed grid as over the grid. */
  lemma {:induction false} PrefixKeysCandidates(g: Grid)
    ensures CandidateCount(PrefixKeys(g)) == CandidateCount(g)
  {
    if g != [] {
      PrefixKeysCandidates(g[1..]);
    }
  }

  class Trainer<V> {
    var classifier: TextClassifier
    var vectorizer: V
    var hyperparams: Grid

    /** `Trainer.__init__`: an empty or missing override falls back on the classifier's own grid. */
    constructor (classifier: TextClassifier, vectorizer: V, hyperparams: Option<Grid>)
      ensures this.classifier == classifier && this.vectorizer == vectorizer
      ensures this.hyperparams == SelectGrid(hyperparams, classifier)
    {
      this.classifier := classifier;
      this.vectorizer := vectorizer;
      this.hyperparams := SelectGrid(hyperparams, classifier);
    }

    /** The grid search `train` sets up and fits: vectorizer then classifier, the grid routed to the classifier, 5 folds, accuracy. */
    function Search(): (s: GridSearch<V>)
      reads this
      ensures |s.pipeline| == 2
      ensures s.pipeline[0] == ("vectorizer", VectorizerStep(vectorizer))
      ensures s.pipeline[1] == ("classifier", EstimatorStep(GetClassifier(classifier, map[])))
      ensures |s.paramGrid| == |hyperparams|
      ensures forall k :: Get(s.paramGrid, ClassifierPrefix + k) == Get(hyperparams, k)
      ensures s.cv == 5 && s.scoring == "accuracy"
    {
      forall k ensures Get(PrefixKeys(hyperparams), ClassifierPrefix + k) == Get(hyperparams, k) {
        PrefixKeysLookup(hyperparams, k);
      }
      GridSearch(
        [("vectorizer", VectorizerStep(vectorizer)), ("classifier", EstimatorStep(GetClassifier(classifier, map[])))],
        PrefixKeys(hyperparams),
        5, "accuracy", 1)
    }

    /** `Trainer.train`: the estimator the search picks on the training data. */
    method Train(xTrain: seq<string>, yTrain: seq<Value>) returns (model: FittedModel<V>)
      ensures model == BestEstimator(Search(), xTrain, yTrain)
    {
      model := BestEstimator(Search(), xTrain, yTrain);
    }
  }

  /** With no override, a trainer searches the classifier's own grid: 16 combinations for SGD, 6 for logistic regression. */
  lemma DefaultSearchSize(c: TextClassifier)
    ensures CandidateCount(PrefixKeys(SelectGrid(None, c))) == (if c == SGDTextClassifier then 16 else 6)
  {
    PrefixKeysCandidates(SelectGrid(None, c));
  }
}
