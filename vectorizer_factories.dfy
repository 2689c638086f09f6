/**
 * The three vectorizer factories of the repository. Each lower-cases the requested type,
 * looks it up in a two-entry table, and either builds the class with the caller's keyword
 * arguments unchanged or raises `ValueError` naming the type as the caller spelled it.
 */

/** `data_pipeline/vectorizer/factory.py`: the project's own TF-IDF and bag-of-words wrappers. */
module PipelineVectorizerFactory {
  import opened Wrappers
  import opened Text
  import opened Values
  import opened Registry

  datatype VectorizerClass = TfidfVectorizer | BOWVectorizer

  /** An instance: its class and the keyword arguments it was built with. */
  datatype Vectorizer = Vectorizer(cls: VectorizerClass, params: Kwargs)

  const Vectorizers: Table<VectorizerClass> := [("tfidf", TfidfVectorizer), ("bow", BOWVectorizer)]

  function GetVectorizer(vectorizerType: string, kwargs: Kwargs): (r: Result<Vectorizer, string>)
    ensures r.Success? <==> Lower(vectorizerType) in {"tfidf", "bow"}
    ensures Lower(vectorizerType) == "tfidf" ==> r == Success(Vectorizer(TfidfVectorizer, kwargs))
    ensures Lower(vectorizerType) == "bow" ==> r == Success(Vectorizer(BOWVectorizer, kwargs))
    ensures r.Failure? ==> r.error == "Unsupported vectorizer type: " + vectorizerType
  {
    match Get(Vectorizers, Lower(vectorizerType))
    case Some(cls) => Success(Vectorizer(cls, kwargs))
    case None => Failure("Unsupported vectorizer type: " + vectorizerType)
  }
}

/** `vectorizer/factory.py`: scikit-learn's own classes, from a table built afresh on every call. */
module SklearnVectorizerFactory {
  import opened Wrappers
  import opened Text
  import opened Values
  import opened Registry

  datatype VectorizerClass = TfidfVectorizer | CountVectorizer

  datatype Vectorizer = Vectorizer(cls: VectorizerClass, params: Kwargs)

  function GetVectorizer(vectorizerType: string, kwargs: Kwargs): (r: Result<Vectorizer, string>)
    ensures r.Success? <==> Lower(vectorizerType) in {"tfidf", "bow"}
    ensures Lower(vectorizerType) == "tfidf" ==> r == Success(Vectorizer(TfidfVectorizer, kwargs))
    ensures Lower(vectorizerType) == "bow" ==> r == Success(Vectorizer(CountVectorizer, kwargs))
    ensures r.Failure? ==> r.error == "Unsupported vectorizer type: " + vectorizerType
  {
    var vectorizers := [("tfidf", TfidfVectorizer), ("bow", CountVectorizer)];
    match Get(vectorizers, Lower(vectorizerType))
    case Some(cls) => Success(Vectorizer(cls, kwargs))
    case None => Failure("Unsupported vectorizer type: " + vectorizerType)
  }
}

/** `data_handling/vectorizer/factory.py`: the project's wrappers, returned as the base vectorizer type. */
module HandlingVectorizerFactory {
  import opened Wrappers
  import opened Text
  import opened Values
  import opened Registry

  datatype VectorizerClass = TfidfVectorizer | BOWVectorizer

  datatype Vectorizer = Vectorizer(cls: VectorizerClass, params: Kwargs)

  const Vectorizers: Table<VectorizerClass> := [("tfidf", TfidfVectorizer), ("bow", BOWVectorizer)]

  function GetVectorizer(vectorizerType: string, kwargs: Kwargs): (r: Result<Vectorizer, string>)
    ensures r.Success? <==> Lower(vectorizerType) in {"tfidf", "bow"}
    ensures Lower(vectorizerType) == "tfidf" ==> r == Success(Vectorizer(TfidfVectorizer, kwargs))
    ensures Lower(vectorizerType) == "bow" ==> r == Success(Vectorizer(BOWVectorizer, kwargs))
    ensures r.Failure? ==> r.error == "Unsupported vectorizer type: " + vectorizerType
  {
    match Get(Vectorizers, Lower(vectorizerType))
    case Some(cls) => Success(Vectorizer(cls, kwargs))
    case None => Failure("Unsupported vectorizer type: " + vectorizerType)
  }

  /**
   * The tests' calls: "tfidf" and "bow" with `max_features=3, stop_words=None`, whose keyword
   * arguments reach the built vectorizer, and "unsupported" with none. A mixed-case "BoW" is
   * accepted too.
   */
  lemma GetVectorizerExamples(kwargs: Kwargs)
    requires kwargs == map["max_features" := Int(3), "stop_words" := NoneValue]
    ensures GetVectorizer("tfidf", kwargs) == Success(Vectorizer(TfidfVectorizer, kwargs))
    ensures GetVectorizer("bow", kwargs) == Success(Vectorizer(BOWVectorizer, kwargs))
    ensures GetVectorizer("BoW", kwargs) == Success(Vectorizer(BOWVectorizer, kwargs))
    ensures GetVectorizer("unsupported", map[]) == Failure("Unsupported vectorizer type: unsupported")
  {
    assert Lower("tfidf") == "tfidf";
    assert Lower("bow") == "bow";
    assert Lower("BoW") == "bow";
    assert Lower("unsupported") == "unsupported";
    assert Keys(Vectorizers) == ["tfidf", "bow"];
    assert Get(Vectorizers, "unsupported") == None;
    assert "Unsupported vectorizer type: " + "unsupported" == "Unsupported vectorizer type: unsupported";
  }
}
