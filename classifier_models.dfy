/**
 * The two text classifiers (`sgd_classifier.py`, `logistic_classifier.py`): each hands out an
 * untrained scikit-learn estimator built from the caller's keyword arguments, and a constant
 * hyperparameter grid for the grid search.
 */
module ClassifierModels {
  import opened Wrappers
  import opened Values
  import opened Registry

  datatype TextClassifier = SGDTextClassifier | LogisticTextClassifier

  /** An untrained scikit-learn estimator and the keyword arguments it was built with. */
  datatype Estimator = SGDClassifier(params: Kwargs) | LogisticRegression(params: Kwargs)

  /** A hyperparameter grid: parameter names, in order, each with its list of candidate values. */
  type Grid = Table<seq<Value>>

  /** How many parameter combinations an exhaustive search over the grid tries. */
  function CandidateCount(g: Grid): nat
  {
    if g == [] then 1 else |g[0].1| * CandidateCount(g[1..])
  }

  /** `get_classifier(**kwargs)`: the matching estimator, the keyword arguments forwarded unchanged. */
  function GetClassifier(c: TextClassifier, kwargs: Kwargs): (e: Estimator)
    ensures e.params == kwargs
    ensures e.SGDClassifier? <==> c == SGDTextClassifier
  {
    match c
    case SGDTextClassifier => SGDClassifier(kwargs)
    case LogisticTextClassifier => LogisticRegression(kwargs)
  }

  /** `SGDTextClassifier.get_hyperparameters`. */
  function SgdHyperparameters(): (g: Grid)
    ensures Keys(g) == ["loss", "alpha", "max_iter", "tol"]
    ensures DistinctKeys(g)
    ensures forall i :: 0 <= i < |g| ==> |g[i].1| == 2
    ensures CandidateCount(g) == 16
  {
    [ ("loss", [Str("hinge"), Str("log")]),
      ("alpha", [Real(0.0001), Real(0.001)]),
      ("max_iter", [Int(1000), Int(2000)]),
      ("tol", [Real(0.001), Real(0.0001)]) ]
  }

  /** `LogisticTextClassifier.get_hyperparameters`; `C` mixes a float with two ints, as the source writes it. */
  function LogisticHyperparameters(): (g: Grid)
    ensures Keys(g) == ["C", "max_iter"]
    ensures DistinctKeys(g)
    ensures |g[0].1| == 3 && |g[1].1| == 2
    ensures CandidateCount(g) == 6
  {
    [ ("C", [Real(0.1), Int(1), Int(10)]),
      ("max_iter", [Int(100), Int(200)]) ]
  }

  function GetHyperparameters(c: TextClassifier): (g: Grid)
    ensures DistinctKeys(g)
    ensures g != []
    ensures forall i :: 0 <= i < |g| ==> g[i].1 != []
  {
    match c
    case SGDTextClassifier => SgdHyperparameters()
    case LogisticTextClassifier => LogisticHyperparameters()
  }

  /** The grid entries the tests read: `loss` for SGD and `C` for logistic regression. */
  lemma HyperparameterValues()
    ensures Get(SgdHyperparameters(), "loss") == Some([Str("hinge"), Str("log")])
    ensures Get(SgdHyperparameters(), "alpha") == Some([Real(0.0001), Real(0.001)])
    ensures Get(SgdHyperparameters(), "max_iter") == Some([Int(1000), Int(2000)])
    ensures Get(SgdHyperparameters(), "tol") == Some([Real(0.001), Real(0.0001)])
    ensures Get(LogisticHyperparameters(), "C") == Some([Real(0.1), Int(1), Int(10)])
    ensures Get(LogisticHyperparameters(), "max_iter") == Some([Int(100), Int(200)])
  {
    GetEntry(SgdHyperparameters(), 0);
    GetEntry(SgdHyperparameters(), 1);
    GetEntry(SgdHyperparameters(), 2);
    GetEntry(SgdHyperparameters(), 3);
    GetEntry(LogisticHyperparameters(), 0);
    GetEntry(LogisticHyperparameters(), 1);
  }
}

/** `ClassifierFactory.get_classifier`: the classifier wrapper for a type, looked up case-insensitively. */
module ClassifierFactory {
  import opened Wrappers
  import opened Text
  import opened Registry
  import ClassifierModels

  const Classifiers: Table<ClassifierModels.TextClassifier> := [("sgd", ClassifierModels.SGDTextClassifier), ("logistic", ClassifierModels.LogisticTextClassifier)]

  /** The wrapper is built without arguments: nothing of the configuration reaches it. */
  function GetClassifier(classifierType: string): (r: Result<ClassifierModels.TextClassifier, string>)
    ensures r.Success? <==> Lower(classifierType) in {"sgd", "logistic"}
    ensures Lower(classifierType) == "sgd" ==> r == Success(ClassifierModels.SGDTextClassifier)
    ensures Lower(classifierType) == "logistic" ==> r == Success(ClassifierModels.LogisticTextClassifier)
    ensures r.Failure? ==> r.error == "Unsupported classifier type: " + classifierType
  {
    match Get(Classifiers, Lower(classifierType))
    case Some(c) => Success(c)
    case None => Failure("Unsupported classifier type: " + classifierType)
  }

  /** The calls the tests make. */
  lemma GetClassifierExamples()
    ensures GetClassifier("logistic") == Success(ClassifierModels.LogisticTextClassifier)
    ensures GetClassifier("sgd") == Success(ClassifierModels.SGDTextClassifier)
    ensures GetClassifier("unsupported") == Failure("Unsupported classifier type: unsupported")
  {
    assert Lower("logistic") == "logistic";
    assert Lower("sgd") == "sgd";
    assert Lower("unsupported") == "unsupported";
    assert Keys(Classifiers) == ["sgd", "logistic"];
    assert "Unsupported classifier type: " + "unsupported" == "Unsupported classifier type: unsupported";
  }
}
