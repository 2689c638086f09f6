/**
 * `PipelineFactory.get_pipeline`: with MLflow, wrap the registered combined model for
 * inference; without it, build a fresh classifier and vectorizer from the configuration and
 * wrap them in a training or an inference pipeline.
 */
module PipelineFactory {
  import opened Wrappers
  import opened Values
  import Text
  import ClassifierModels
  import ClassifierFactory
  import HandlingVectorizerFactory

  /** The fields of the configuration the factory reads; loading and validating it is not modelled. */
  datatype ModelConfig = ModelConfig(name: string, stage: string)
  datatype MlflowConfig = MlflowConfig(model: ModelConfig)
  datatype TypeConfig = TypeConfig(Type: string)
  datatype VectorizationConfig = VectorizationConfig(Type: string, params: Kwargs)
  datatype Config = Config(
    mlflow: MlflowConfig,
    classification: TypeConfig,
    vectorization: VectorizationConfig)

  /** The pipelines the factory hands out; `A` is the combined model MLflow returns. */
  datatype Pipeline<A> =
    | TrainingPipeline(model: ClassifierModels.TextClassifier, vectorizer: HandlingVectorizerFactory.Vectorizer)
    | InferencePipeline(model: ClassifierModels.TextClassifier, vectorizer: HandlingVectorizerFactory.Vectorizer)
    | InferenceFromPipeline(combined: A)

  /**
   * `load_model_pipeline(model_name, stage)` is a call into MLflow and is passed in. The Python
   * function may also return None (its implicit fall-through), modelled by `Success(None)`.
   */
  function GetPipeline<A>(pipelineType: string, config: Config, useMlflow: bool,
                          loadModelPipeline: (string, string) -> Result<A, string>)
    : (r: Result<Option<Pipeline<A>>, string>)
    ensures useMlflow ==>
      var loaded := loadModelPipeline(config.mlflow.model.name, config.mlflow.model.stage);
      && (loaded.Failure? ==> r == Failure(loaded.error))
      && (loaded.Success? && pipelineType == "inference" ==> r == Success(Some(InferenceFromPipeline(loaded.value))))
      && (loaded.Success? && pipelineType == "training" ==> r == Failure("Training pipeline cannot use a preloaded model."))
      && (loaded.Success? && pipelineType !in {"inference", "training"} ==> r == Success(None))
    ensures !useMlflow ==>
      var model := ClassifierFactory.GetClassifier(config.classification.Type);
      var vectorizer := HandlingVectorizerFactory.GetVectorizer(config.vectorization.Type, config.vectorization.params);
      && (model.Failure? ==> r == Failure(model.error))
      && (model.Success? && vectorizer.Failure? ==> r == Failure(vectorizer.error))
      && (model.Success? && vectorizer.Success? ==>
            r == if pipelineType == "training" then Success(Some(TrainingPipeline(model.value, vectorizer.value)))
                 else if pipelineType == "inference" then Success(Some(InferencePipeline(model.value, vectorizer.value)))
                 else Failure("Unsupported pipeline type: " + pipelineType))
  {
    if useMlflow then
      match loadModelPipeline(config.mlflow.model.name, config.mlflow.model.stage)
      case Failure(e) => Failure(e)
      case Success(pipeline) =>
        if pipelineType == "inference" then Success(Some(InferenceFromPipeline(pipeline)))
        else if pipelineType == "training" then Failure("Training pipeline cannot use a preloaded model.")
        else Success(None)
    else
      match ClassifierFactory.GetClassifier(config.classification.Type)
      case Failure(e) => Failure(e)
      case Success(model) =>
        match HandlingVectorizerFactory.GetVectorizer(config.vectorization.Type, config.vectorization.params)
        case Failure(e) => Failure(e)
        case Success(vectorizer) =>
          if pipelineType == "training" then Success(Some(TrainingPipeline(model, vectorizer)))
          else if pipelineType == "inference" then Success(Some(InferencePipeline(model, vectorizer)))
          else Failure("Unsupported pipeline type: " + pipelineType)
  }

  /**
   * Errors come out in a fixed order: an unsupported classifier type first, whatever the
   * vectorizer and pipeline types; then an unsupported vectorizer type; the pipeline type last.
   */
  lemma ErrorPrecedence<A>(pipelineType: string, config: Config, loadModelPipeline: (string, string) -> Result<A, string>)
    ensures var r := GetPipeline(pipelineType, config, false, loadModelPipeline);
      var c := config.classification.Type;
      var v := config.vectorization.Type;
      && (Text.Lower(c) !in {"sgd", "logistic"} ==> r == Failure("Unsupported classifier type: " + c))
      && (Text.Lower(c) in {"sgd", "logistic"} && Text.Lower(v) !in {"tfidf", "bow"} ==>
            r == Failure("Unsupported vectorizer type: " + v))
      && (Text.Lower(c) in {"sgd", "logistic"} && Text.Lower(v) in {"tfidf", "bow"} ==>
            (r.Failure? <==> pipelineType !in {"training", "inference"}))
  {
  }

  /** The factory answers None exactly when MLflow is used, the model loads, and the type is neither known one. */
  lemma NoneOnlyWithMlflow<A>(pipelineType: string, config: Config, useMlflow: bool,
                              loadModelPipeline: (string, string) -> Result<A, string>)
    ensures GetPipeline(pipelineType, config, useMlflow, loadModelPipeline) == Success(None) <==>
      && useMlflow
      && loadModelPipeline(config.mlflow.model.name, config.mlflow.model.stage).Success?
      && pipelineType !in {"inference", "training"}
  {
  }

  /** A training pipeline is only ever built from fresh parts, never from a preloaded model. */
  lemma TrainingNeedsFreshParts<A>(pipelineType: string, config: Config, useMlflow: bool,
                                   loadModelPipeline: (string, string) -> Result<A, string>)
    ensures var r := GetPipeline(pipelineType, config, useMlflow, loadModelPipeline);
      r.Success? && r.value.Some? && r.value.value.TrainingPipeline? ==>
        && !useMlflow
        && pipelineType == "training"
        && ClassifierFactory.GetClassifier(config.classification.Type) == Success(r.value.value.model)
        && r.value.value.vectorizer.params == config.vectorization.params
  {
  }

  /** Unlike the sub-factories, the pipeline type is matched case-sensitively: "Training" is refused. */
  lemma PipelineTypeCaseSensitive<A>(config: Config, loadModelPipeline: (string, string) -> Result<A, string>)
    requires Text.Lower(config.classification.Type) == "sgd"
    requires Text.Lower(config.vectorization.Type) == "tfidf"
    ensures GetPipeline("Training", config, false, loadModelPipeline) == Failure("Unsupported pipeline type: Training")
    ensures GetPipeline("training", config, false, loadModelPipeline).Success?
  {
    assert "Training" != "training" && "Training" != "inference";
    assert "Unsupported pipeline type: " + "Training" == "Unsupported pipeline type: Training";
  }
}

/**
 * `InferencePipeline` as `pipelines/inference_pipeline.py` defines it has no `from_pipeline`,
 * so the MLflow inference branch of `get_pipeline` raises `AttributeError` once the model has loaded.
 */
module PipelineFactoryAsWritten {
  import opened Wrappers
  import opened PipelineFactory

  const MissingFromPipeline: string := "AttributeError: type object 'InferencePipeline' has no attribute 'from_pipeline'"

  /** `get_pipeline` as the repository's files have it; every other branch is the one `GetPipeline` models. */
  function GetPipelineAsWritten<A>(pipelineType: string, config: Config, useMlflow: bool,
                                   loadModelPipeline: (string, string) -> Result<A, string>)
    : (r: Result<Option<Pipeline<A>>, string>)
    ensures useMlflow && pipelineType == "inference" ==> r.Failure?
  {
    if useMlflow && pipelineType == "inference" then
      match loadModelPipeline(config.mlflow.model.name, config.mlflow.model.stage)
      case Failure(e) => Failure(e)
      case Success(_) => Failure(MissingFromPipeline)
    else GetPipeline(pipelineType, config, useMlflow, loadModelPipeline)
  }

  /** Whenever the registered model loads, the written code fails where the intended one hands out an inference pipeline. */
  lemma FromPipelineMissing<A>(config: Config, loadModelPipeline: (string, string) -> Result<A, string>)
    requires loadModelPipeline(config.mlflow.model.name, config.mlflow.model.stage).Success?
    ensures GetPipelineAsWritten("inference", config, true, loadModelPipeline) == Failure(MissingFromPipeline)
    ensures GetPipeline("inference", config, true, loadModelPipeline)
         == Success(Some(InferenceFromPipeline(loadModelPipeline(config.mlflow.model.name, config.mlflow.model.stage).value)))
  {
  }
}
