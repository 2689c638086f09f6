# Email phishing classifier: a Dafny model of its core

This project models the core of a Python e-mail phishing classifier. The modelled parts are:

- **Loading and preprocessing.** The loader runs a list of preprocessors over the loaded frame (`DataLoader.load_and_preprocess_data`). The e-mail preprocessor drops incomplete rows, splits the frame into `Phishing` and `Safe` rows, downsamples the larger class with a fixed seed, concatenates the two classes and renumbers the rows (`EmailPreprocessor.preprocess`).
- **Factories.** Each factory looks a type name up in a table, case-insensitively, and raises `ValueError` otherwise:
  - the data-loader factory;
  - the three vectorizer factories;
  - the classifier factory.
- **Classifier wrappers.** Each one builds its scikit-learn estimator and returns a fixed hyperparameter grid.
- **Trainer.** It chooses a grid, prefixes its keys with `classifier__` and sets up a five-fold accuracy grid search.
- **Pipeline factory.** It assembles a training or inference pipeline, either from fresh parts or from a model registered in MLflow.
- **API launcher.** It reads `--host=` and `--port=` from the command line.

Modules, one per source component:

| module | file | models |
|---|---|---|
| `Wrappers` | wrappers.dfy | `Option` and `Result`. A Python exception is a `Failure` carrying its message (one exception to this is listed under "Left out"). |
| `Values` | values.dfy | Python scalars used as keyword arguments and grid values. |
| `Text` | text.dfy | `str.lower` and `str.split` on one separator. |
| `Registry` | registry.dfy | A Python dict literal as an ordered table with `dict.get`, and the repr of a list of strings. |
| `EmailPreprocessor` | email_preprocessor.dfy | The balancing preprocessor, on frames given as sequences of (index label, row). |
| `BaseLoader` | base_loader.dfy | The load-then-preprocess loop, as a method. |
| `DataLoaderFactory` | data_loader_factory.dfy | `get_data_loader`. |
| `PipelineVectorizerFactory`, `SklearnVectorizerFactory`, `HandlingVectorizerFactory` | vectorizer_factories.dfy | The three `VectorizerFactory.get_vectorizer` variants. |
| `ClassifierModels`, `ClassifierFactory` | classifier_models.dfy | The two classifier wrappers and their factory. |
| `Training` | trainer.dfy | `Trainer`. It is a class, because `__init__` sets the fields that `train` reads. |
| `PipelineFactory`, `PipelineFactoryAsWritten` | pipeline_factory.dfy | `PipelineFactory.get_pipeline`: the intended version and the version as written. |
| `RunApi` | run_api.dfy | The argument scan in `run_api.main`. |

Calls into code outside the core become parameters:

- the subclass's `load_data`;
- each preprocessor's `preprocess`;
- MLflow's `load_model_pipeline`;
- Python's `int()`;
- the seeded choice that `DataFrame.sample` makes.

For the sampler, the model assumes only that it picks `k` distinct rows out of `n` (`ValidSampler`). Because `random_state=42` is fixed, the picked positions depend only on `n` and `k`.

## Model

| member | source | states |
|---|---|---|
| EmailPreprocessor.DropMissing | src/email_classifier/data_pipeline/preprocessor/email_preprocessor.py:22 | Every row kept is a row of the input with both `Label` and `Body` present. |
| EmailPreprocessor.DropMissingExact | src/email_classifier/data_pipeline/preprocessor/email_preprocessor.py:22 | An entry survives `dropna` if and only if it is in the input and complete. |
| EmailPreprocessor.DropMissingSubMultiset | src/email_classifier/data_pipeline/preprocessor/email_preprocessor.py:22 | Dropping rows never adds or duplicates a row. |
| EmailPreprocessor.DropMissingAppend | src/email_classifier/data_pipeline/preprocessor/email_preprocessor.py:22 | `dropna` filters a split frame part by part. With `DropMissingOne`, every complete row is kept, in input order and as often as it occurs. |
| EmailPreprocessor.DropMissingOne | src/email_classifier/data_pipeline/preprocessor/email_preprocessor.py:22 | A single row is kept exactly when it is complete. |
| EmailPreprocessor.WithLabel | src/email_classifier/data_pipeline/preprocessor/email_preprocessor.py:25-26 | Every row the label mask keeps is an input row with that label. |
| EmailPreprocessor.WithLabelExact | src/email_classifier/data_pipeline/preprocessor/email_preprocessor.py:25-26 | An entry passes the mask if and only if it is in the input with that label. |
| EmailPreprocessor.WithLabelAppend | src/email_classifier/data_pipeline/preprocessor/email_preprocessor.py:25-26 | The label mask filters a split frame part by part. With `WithLabelOne`, every row with the label is kept, in order and as often as it occurs. |
| EmailPreprocessor.WithLabelOne | src/email_classifier/data_pipeline/preprocessor/email_preprocessor.py:25-26 | A single row passes the mask exactly when it has the label. |
| EmailPreprocessor.WithLabelDisjoint | src/email_classifier/data_pipeline/preprocessor/email_preprocessor.py:25-26 | The phishing and safe selections together use each input row at most once. |
| EmailPreprocessor.Sample | src/email_classifier/data_pipeline/preprocessor/email_preprocessor.py:30 | `sample(k)` returns exactly `k` rows, drawn without replacement from the frame. |
| EmailPreprocessor.Balance | src/email_classifier/data_pipeline/preprocessor/email_preprocessor.py:28-32 | Both classes end at the smaller class's size. A class that is not larger is passed on unchanged, so equal classes are not sampled. Each class keeps only its own rows. |
| EmailPreprocessor.ResetIndex | src/email_classifier/data_pipeline/preprocessor/email_preprocessor.py:35 | The rows keep their order and are relabelled 0..n-1. |
| EmailPreprocessor.Preprocess | src/email_classifier/data_pipeline/preprocessor/email_preprocessor.py:7-37 | The output has twice the smaller class's size and is empty exactly when a class is empty. It is indexed 0..n-1 and has no missing `Label` or `Body`. The first half is all `Phishing` and the second half all `Safe`. |
| EmailPreprocessor.PreprocessBalanced | src/email_classifier/data_pipeline/preprocessor/email_preprocessor.py:12-13 | The output holds as many phishing rows as safe rows, each count equal to the smaller class's size. |
| EmailPreprocessor.PreprocessSubMultiset | src/email_classifier/data_pipeline/preprocessor/email_preprocessor.py:21-35 | Each half is drawn without repetition from its class's complete rows, and the whole output from the input. |
| EmailPreprocessor.PreprocessKeepsSmallerClass | src/email_classifier/data_pipeline/preprocessor/email_preprocessor.py:29-32 | The class that is not larger appears complete and in its original order. With equal counts, the output is the phishing rows followed by the safe rows. |
| BaseLoader.LoadAndPreprocessData | src/email_classifier/data_pipeline/data_loader/base_loader.py:23-42 | If loading fails, that error is returned and no preprocessor runs. Otherwise the result is the left fold of the preprocessors over the loaded frame, in list order, stopping at the first that raises. `None` and `[]` both mean no preprocessing. The call trace is `load_data` once, then `preprocess` of preprocessors 0, 1, … up to and including the one that raised. |
| BaseLoader.Invoked | src/email_classifier/data_pipeline/data_loader/base_loader.py:39-40 | No more preprocessors run than were given, and all of them run when none raises. |
| BaseLoader.FoldSnoc | src/email_classifier/data_pipeline/data_loader/base_loader.py:39-40 | An extra preprocessor at the end receives the frame the others produced. |
| BaseLoader.FoldAppend | src/email_classifier/data_pipeline/data_loader/base_loader.py:39-40 | Running two preprocessor lists in turn is the same as running their concatenation. |
| BaseLoader.InvokedStops | src/email_classifier/data_pipeline/data_loader/base_loader.py:39-40 | After a preprocessor raises, no later preprocessor is invoked. |
| DataLoaderFactory.GetDataLoader | src/email_classifier/data_loader/factory.py:10-33 | `csv` and `json`, in any case, give their loaders. Any other type raises the message with the lower-cased type and the list `['csv', 'json']`. |
| DataLoaderFactory.GetDataLoaderCaseInsensitive | src/email_classifier/data_loader/factory.py:29-32 | Two spellings that lower-case alike get the same loader or the same error. |
| PipelineVectorizerFactory.GetVectorizer | src/email_classifier/data_pipeline/vectorizer/factory.py:7-19 | The lookup succeeds exactly for `tfidf`/`bow` in any case, and the class is then built with the keyword arguments unchanged. Otherwise the error names the type as given. |
| SklearnVectorizerFactory.GetVectorizer | src/email_classifier/vectorizer/factory.py:8-19 | As above, with `bow` mapped to scikit-learn's `CountVectorizer`. |
| HandlingVectorizerFactory.GetVectorizer | src/email_classifier/data_handling/vectorizer/factory.py:7-19 | As above, for the vectorizer classes the pipeline factory uses. |
| HandlingVectorizerFactory.GetVectorizerExamples | src/tests/tests_data_pipeline/test_vectorizer.py:78-94 | The tests' `tfidf` and `bow` calls with `max_features=3, stop_words=None` give their classes with those arguments, and so does `BoW`. `unsupported` gives "Unsupported vectorizer type: unsupported". |
| ClassifierModels.GetClassifier | src/email_classifier/training/classifier_model/sgd_classifier.py:8-10 | Each wrapper builds its own estimator, SGD or logistic regression, and forwards the keyword arguments unchanged. |
| ClassifierModels.SgdHyperparameters | src/email_classifier/training/classifier_model/sgd_classifier.py:12-18 | The keys are `loss`, `alpha`, `max_iter` and `tol`, distinct and two values each, giving 16 combinations. |
| ClassifierModels.LogisticHyperparameters | src/email_classifier/training/classifier_model/logistic_classifier.py:12-16 | The keys are `C` (3 values) and `max_iter` (2 values), distinct, giving 6 combinations. |
| ClassifierModels.GetHyperparameters | src/email_classifier/training/classifier_model/logistic_classifier.py:12-16 | Each classifier's grid has distinct keys, is non-empty, and every value list is non-empty. |
| ClassifierModels.HyperparameterValues | src/email_classifier/training/classifier_model/sgd_classifier.py:14-17 | A key lookup in each grid returns exactly the source's value lists. |
| ClassifierFactory.GetClassifier | src/email_classifier/training/classifier_model/factory.py:8-21 | Succeeds exactly for `sgd`/`logistic` in any case and returns the matching wrapper. Otherwise the error names the type as given. |
| ClassifierFactory.GetClassifierExamples | src/tests/test_model.py:52-68 | `logistic` and `sgd` give their wrappers. `unsupported` gives "Unsupported classifier type: unsupported". |
| Training.SelectGrid | src/email_classifier/training/trainer/Trainer.py:21 | A non-empty override is used as given. `None` or an empty dict falls back on the classifier's grid. The chosen grid is never empty. |
| Training.PrefixKeys | src/email_classifier/training/trainer/Trainer.py:43 | The prefixed grid has one entry per grid entry. |
| Training.PrefixKeysAt | src/email_classifier/training/trainer/Trainer.py:43 | Entry `i` of the prefixed grid is entry `i` of the grid with `classifier__` put before its key. |
| Training.PrefixKeysLookup | src/email_classifier/training/trainer/Trainer.py:43 | In the prefixed grid, `classifier__k` finds exactly what `k` finds in the grid. |
| Training.PrefixKeysRoundTrip | src/email_classifier/training/trainer/Trainer.py:43 | Every prefixed key starts with `classifier__`. Removing the prefix gives back the grid: keys, values and order. |
| Training.PrefixKeysDistinct | src/email_classifier/training/trainer/Trainer.py:43 | Prefixing keeps distinct keys distinct, so no grid entry is lost. |
| Training.PrefixKeysCandidates | src/email_classifier/training/trainer/Trainer.py:41-47 | The search over the prefixed grid tries as many combinations as the grid defines. |
| Training.DefaultSearchSize | src/email_classifier/training/trainer/Trainer.py:21 | Without an override, the search tries 16 combinations for SGD and 6 for logistic regression. |
| Training.Trainer.constructor | src/email_classifier/training/trainer/Trainer.py:10-21 | Stores the classifier and vectorizer, and the grid `hyperparams or classifier.get_hyperparameters()`. |
| Training.Trainer.Search | src/email_classifier/training/trainer/Trainer.py:35-47 | The pipeline has two steps, `vectorizer` then `classifier`, and the classifier step is built with no arguments. Every grid entry reaches the classifier under `classifier__`. The search uses 5 folds and accuracy scoring. |
| Training.Trainer.Train | src/email_classifier/training/trainer/Trainer.py:23-55 | The result is the best estimator of that search fitted on the given training data. |
| PipelineFactory.GetPipeline | src/email_classifier/pipelines/factory.py:9-30 | With MLflow: the loaded model for `inference`; an error for `training`; `None` for any other type; a load error passed on. Without MLflow: classifier error first, then vectorizer error, then training or inference pipeline, otherwise "Unsupported pipeline type". |
| PipelineFactory.ErrorPrecedence | src/email_classifier/pipelines/factory.py:22-30 | An unsupported classifier type is reported before an unsupported vectorizer type, which is reported before an unsupported pipeline type. |
| PipelineFactory.NoneOnlyWithMlflow | src/email_classifier/pipelines/factory.py:10-19 | The factory returns `None` if and only if MLflow is used, the model loads, and the type is neither `inference` nor `training`. |
| PipelineFactory.TrainingNeedsFreshParts | src/email_classifier/pipelines/factory.py:18-26 | A training pipeline is only ever built from a fresh classifier and vectorizer, and the configured vectorizer parameters reach the vectorizer. |
| PipelineFactory.PipelineTypeCaseSensitive | src/email_classifier/pipelines/factory.py:25-30 | The pipeline type, unlike the component types, is matched case-sensitively: `Training` is refused. |
| PipelineFactoryAsWritten.GetPipelineAsWritten | src/email_classifier/pipelines/factory.py:16-17 | As written, the MLflow inference branch always fails. |
| PipelineFactoryAsWritten.FromPipelineMissing | src/email_classifier/pipelines/factory.py:17 | When the registered model loads, the written code raises, where the intended code returns the inference pipeline. |
| RunApi.FlagValue | src/api/run_api.py:13 | `arg.split("=")[1]` is the text after the flag up to the next `=`. |
| RunApi.FlagValueExamples | src/api/run_api.py:13 | `--host=v` gives `v`, `--host=v=x` gives `v`, and a bare `--host=` gives the empty host. |
| RunApi.FirstBadPortAppend | src/api/run_api.py:11-15 | The first rejected port value in a concatenated argument list comes from its first part whenever that part has one. |
| RunApi.ParseServerArgs | src/api/run_api.py:4-15 | The first `--port=` value that `int()` rejects raises. Otherwise the host is the last `--host=` value, or `127.0.0.1`, and the port is the last `--port=` value, or `8000`. |
| Text.Lower | src/email_classifier/data_loader/factory.py:29 | `str.lower()` keeps the length and maps each character on its own, upper-case ASCII letters to lower case. |
| Text.Split | src/api/run_api.py:13 | `split("=")` gives one more part than there are separators, and no part contains the separator. |
| Text.JoinSplit | src/api/run_api.py:13 | `str.split` on one separator loses nothing: joining the parts gives back the string. |
| Registry.Get | src/email_classifier/data_loader/factory.py:30 | `dict.get` returns `None` exactly for a missing key, and otherwise a value stored under that key. |
| Registry.ListRepr | src/email_classifier/data_loader/factory.py:32 | The repr of a list is bracketed, and only the empty list prints as `[]`. |
| Registry.ListReprTwo | src/email_classifier/data_loader/factory.py:32 | Two keys print as `['a', 'b']`. |
| Registry.GetEntry | src/email_classifier/data_loader/factory.py:10-13 | With distinct keys, looking up a key of the literal finds its own value. |

## Left out

- Text.Lower maps only ASCII `A`–`Z`. Python's `str.lower` also folds other Unicode letters, so a type name spelt with non-ASCII capitals can behave differently.
- `DataFrame.sample` with `random_state=42` is modelled as an abstract selector of distinct rows. The rows NumPy's generator actually picks are not modelled.
- Python's `int()` is passed to `RunApi.ParseServerArgs` as a parameter. Its grammar (signs, whitespace, underscores) is not modelled.
- `RunApi.ParseServerArgs` stops at the argument scan. Starting the server with `uvicorn.run(app_path, host, port)` is I/O and is not modelled.
- `Training.Trainer.Train` does not model fitting, cross-validation or the choice of the best estimator. These are scikit-learn's, so the result records the search and the data it was fitted on. The printed best parameters and score are output only.
- `Trainer.evaluate` (Trainer.py:57-87) is not modelled. It computes floating-point metrics through scikit-learn and prints them.
- The loaders' `load_data` (CSV and JSON reading) is file I/O. It is a parameter of `BaseLoader.LoadAndPreprocessData`.
- `BaseLoader.LoadAndPreprocessData` records the calls it makes in a ghost trace. The pandas objects themselves are not modelled.
- The bodies of `TrainingPipeline` and `InferencePipeline` (`run`: vectorize, fit or predict, log) are not part of this model. Only which pipeline the factory hands out is modelled.
- MLflow's `load_model_pipeline` and its caching are calls into MLflow. They are a parameter of `PipelineFactory.GetPipeline`.
- Loading the configuration file is not modelled. `PipelineFactory.Config` holds only the fields the factory reads.
- Error messages are compared as strings. The Python exception classes (`ValueError`, `AttributeError`) are not distinguished.
- The SGD grid's `"log"` loss name is recorded as written. Whether the installed scikit-learn still accepts it is not modelled.
- PipelineVectorizerFactory.GetVectorizer assumes the vectorizer class accepts the keyword arguments it is given. In Python, `vectorizer_cls(**kwargs)` raises `TypeError` for a keyword its constructor does not take (`data_pipeline/vectorizer/tfidf_vectorizer.py` takes only `max_features` and `stop_words`). The constructors' signatures are outside this model.
- SklearnVectorizerFactory.GetVectorizer assumes the same of scikit-learn's `TfidfVectorizer` and `CountVectorizer`. An unknown keyword raises `TypeError` there.
- HandlingVectorizerFactory.GetVectorizer assumes the same of the vectorizer classes it builds. An unknown keyword raises `TypeError` there.
- ClassifierModels.GetClassifier assumes `SGDClassifier(**kwargs)` and `LogisticRegression(**kwargs)` accept the keyword arguments. An unknown keyword raises `TypeError` there.
- PipelineFactory.GetPipeline inherits that assumption. It passes `config.vectorization.params` to the vectorizer factory, so a parameter the vectorizer does not take would raise `TypeError`, which the model does not produce.
- RunApi.ParseServerArgs fails with the rejected port text itself. It does not carry the `ValueError` message Python's `int()` would raise (`invalid literal for int() with base 10: …`).
- Registry.ListRepr quotes each item with single quotes. It does not model how `repr` escapes or switches quotes for items that contain quote characters or backslashes; the only keys printed are `csv` and `json`.
- The vectorizers' own behaviour (tokenising, TF-IDF weighting) is scikit-learn's and is not modelled. Only the class chosen and the keyword arguments forwarded are.

## Findings

| source | as written | input that shows it | evidently intended | confidence | as-written member | corrected member |
|---|---|---|---|---|---|---|
| src/email_classifier/pipelines/factory.py:17 | `InferencePipeline.from_pipeline(pipeline)` is called. `InferencePipeline` (pipelines/inference_pipeline.py) defines only `run` and inherits no `from_pipeline`, so the call raises `AttributeError`. | `get_pipeline("inference", config, use_mlflow=True)` with a model that loads | Return an inference pipeline built around the loaded combined model | not executed (base_pipeline.py was read; it defines no `from_pipeline`) | PipelineFactoryAsWritten.FromPipelineMissing | PipelineFactory.GetPipeline |
