# Credit-class prediction and recommendations: a Dafny model

This project models the request-handling core of the credit-scoring service.
The model covers four pieces:

- **The prediction route `/`** (`Backend/src/routes/predict.js`). It writes the
  request body, serialised with `JSON.stringify`, to a classifier process. It
  gathers the process's standard output and standard error. When the process
  closes, it answers with the trimmed output (exit code 0) or a 500 error
  carrying the standard-error text. The process is an abstract trace of output
  chunks plus an exit code (module `InferenceBridge`).
- **The classifier script** (`Backend/ML/predict.py`). It reads one JSON object,
  coerces the numeric fields, one-hot encodes the three categorical fields,
  aligns the frame to the sixteen trained columns, asks the model for a class
  index and prints its label. It exits with status 1 when the input does not
  parse or the model raises. The model, `pd.to_numeric` and the dummy columns
  are parameters (module `Classifier`).
- **The recommendation route `/recommend`** (`predict.js`). It builds a cache
  key with `JSON.stringify({ predictedClass, ...userInputs })`. It answers from
  the process-wide cache on a hit. On a miss it renders the prompt template,
  calls the generator, and stores and returns the trimmed text. A failed
  generation caches nothing. The cache is a class holding a `map`. The
  generator is an injected function from prompt to outcome (module
  `RecommendationEngine`).
- **The recommendation page** (`Frontend/src/Components/Recommendations.jsx`).
  `renderRecommendations` splits the text into lines and classifies each
  trimmed line as blank, heading, numbered item, bullet item or paragraph. It
  groups runs of items of one kind into lists through the
  `currentList`/`listType` accumulator and `flushList`. `formatText` rewrites
  `**x**`, `*x*` and `_x_` as HTML emphasis (module `RecommendationsView`).

Two shared modules support them:

- `Text` holds the JavaScript string primitives: ECMAScript whitespace,
  `trim`, and `split` on one character.
- `Json` holds `JSON.stringify` of a flat object, following the JSON text
  format of RFC 8259. It includes the proof that the serialisation is
  injective.

The imperative parts keep their form:

- the stream-collecting handler is a method with a loop;
- the alignment loop of the classifier is a method over a `map`;
- the cache is a class whose method updates its `entries` field;
- `renderRecommendations` and `flushList` are methods with the page's
  accumulator.

Each of these methods is proved against a specification function (`Reply`,
`Aligned`, `Serve`, `Blocks`). The lemmas state the properties of those
functions.

Three behaviours of the code are worth noting:

- **Cache key.** The cache key is order-sensitive, as `JSON.stringify` keeps
  property order. `RecommendationEngine.CacheKeyIsOrderSensitive` states it,
  and the key is not canonicalised.
- **Spawn failure.** The route registers no `error` listener on the spawned
  process, so a spawn failure does not produce the 500 reply.
- **Concurrent writes.** Concurrent identical misses can both write the cache.
  The model is sequential, and in it a stored key is never generated or
  written again.

## Model

| member | source | states |
|---|---|---|
| Text.TrimIsSpaceBoundedInfix | Backend/src/routes/predict.js:47 | `trim` returns a contiguous piece of its input, removes only whitespace on both sides, and leaves no whitespace at either end |
| Text.TrimEmptyIffAllSpace | Frontend/src/Components/Recommendations.jsx:76-77 | a trimmed line is empty exactly when the line is all whitespace |
| Text.TrimIdempotent | Backend/src/routes/predict.js:106 | trimming twice is trimming once |
| Text.TrimDropsTrailingSpace | Backend/src/routes/predict.js:46-47 | whitespace printed after a trimmed string, such as a newline, is removed by `trim` |
| Text.Split | Frontend/src/Components/Recommendations.jsx:53 | `split("\n")` gives at least one piece, no piece contains the separator, and joining the pieces gives back the text |
| Text.SplitJoin | Frontend/src/Components/Recommendations.jsx:53 | splitting undoes joining when no part contains the separator |
| Json.Lookup | Backend/src/routes/predict.js:61 | property access finds a property with that name, and `undefined` means no property has it |
| Json.Without | Backend/src/routes/predict.js:61 | the rest pattern keeps exactly the properties with other names |
| Json.LookupAppend | Backend/src/routes/predict.js:61 | property access searches the properties in order and finds the first one with that name |
| Json.WithoutKeepsOrder | Backend/src/routes/predict.js:61 | the rest pattern keeps property order: it distributes over concatenation and keeps a single property exactly when its name differs, which fixes its result |
| Json.NatDigits | Backend/src/routes/predict.js:64 | a number below 10^21 is spelled in decimal digits whose value is the number, with no leading zero |
| Json.EscapeChar | Backend/src/routes/predict.js:64 | quote, backslash and control characters are escaped with a leading backslash, and every other character stands for itself |
| Json.Stringify | Backend/src/routes/predict.js:64 | an object whose numbers are below 10^21 in magnitude serialises to text between braces |
| Json.StringifyInjective | Backend/src/routes/predict.js:54 | two objects serialise to the same text exactly when they have the same properties, values and order |
| InferenceBridge.Predict | Backend/src/routes/predict.js:29-52 | the `data` listeners concatenate each stream in arrival order; exit code 0 answers the trimmed output, and any other code, `null` included, answers "Prediction failed" with the standard-error text |
| InferenceBridge.StdinEvents | Backend/src/routes/predict.js:54-55 | standard input gets one write, followed by end of input |
| InferenceBridge.StdinDeterminesBody | Backend/src/routes/predict.js:54-55 | two bodies give the same standard input exactly when they are equal |
| InferenceBridge.TextsOfAppend | Backend/src/routes/predict.js:32-40 | the text gathered from two consecutive parts of a trace is the concatenation of their texts |
| InferenceBridge.SameTextsSameReply | Backend/src/routes/predict.js:32-51 | only the two gathered texts decide the reply |
| InferenceBridge.ChunkBoundariesDoNotMatter | Backend/src/routes/predict.js:32-40 | splitting a chunk at a character boundary leaves the reply unchanged |
| InferenceBridge.InterleavingDoesNotMatter | Backend/src/routes/predict.js:32-40 | swapping adjacent output and error chunks leaves the reply unchanged |
| InferenceBridge.ReplyIgnoresOtherStream | Backend/src/routes/predict.js:45-51 | on exit 0 standard error is ignored; otherwise standard output is ignored, and the details are the standard-error text |
| InferenceBridge.ClassifierLabelReachesReply | Backend/src/routes/predict.js:45-47 | a run that printed a label and a newline is answered with exactly that label |
| Classifier.FrameOf | Backend/ML/predict.py:22-23 | the one-row frame has one column per property name of the input, holding the value of the last property with that name |
| Classifier.CoercedByIdentity | Backend/ML/predict.py:34 | a coercion that changes no value leaves the frame unchanged |
| Classifier.CoercedIdempotent | Backend/ML/predict.py:34 | converting an already converted frame changes nothing when the coercion is idempotent, as `pd.to_numeric` is |
| Classifier.CoercionSparesOtherColumns | Backend/ML/predict.py:34 | a non-numeric column keeps its value whatever the coercion is |
| Classifier.Encoded | Backend/ML/predict.py:37 | after `get_dummies` no categorical column remains |
| Classifier.Align | Backend/ML/predict.py:40-43 | the row has the sixteen selected columns in order; each present column keeps its value and each missing one is 0 |
| Classifier.Run | Backend/ML/predict.py:21-62 | the exit code is 0 or 1; an unparsable input, a missing required column or a model error gives exit 1 with nothing on standard output; otherwise the output is the label of the prediction followed by a newline |
| Classifier.ClassLabelMap | Backend/ML/predict.py:58-59 | 0 to 3 map to P1 to P4, and every other prediction maps to "Unknown" |
| Classifier.ClassLabelInjective | Backend/ML/predict.py:58-59 | distinct classes get distinct labels |
| Classifier.ClassLabelHasNoSpace | Backend/ML/predict.py:58-62 | a label is non-empty and has no whitespace at either end |
| Classifier.AlignedDependsOnlyOnSelected | Backend/ML/predict.py:40-43 | frames that agree on the selected columns give the same row |
| Classifier.SelectedColumnsDistinct | Backend/ML/predict.py:13-18 | the sixteen selected columns are distinct |
| Classifier.NoSelectedColumnIsDummy | Backend/ML/predict.py:37-43 | no selected or categorical column name has the form of a dummy column |
| Classifier.CategoricalsReachModelAsZero | Backend/ML/predict.py:37-43 | the categorical positions of the row are always 0, and the others hold the coerced frame's values |
| Classifier.DummiesAreDropped | Backend/ML/predict.py:37-43 | the model's input does not depend on the dummy columns created |
| RecommendationEngine.KeyObjectIsPermutation | Backend/src/routes/predict.js:61-64 | the key object holds exactly the body's properties, each once |
| RecommendationEngine.ClassMovesToFront | Backend/src/routes/predict.js:61-64 | the key object is the class, then the properties before it and those after it, each in body order |
| RecommendationEngine.CacheKeyInjective | Backend/src/routes/predict.js:61-64 | two bodies share a key exactly when they carry the same class and the same other properties in the same order |
| RecommendationEngine.CacheKeySeesEveryField | Backend/src/routes/predict.js:61-64 | changing any one property value changes the key |
| RecommendationEngine.CacheKeyIsOrderSensitive | Backend/src/routes/predict.js:64 | without a class, two bodies share a key exactly when they are equal, so reordered fields give a different key |
| RecommendationEngine.PromptLinesShape | Backend/src/routes/predict.js:72-101 | the template has 30 lines; line 3 names the class and lines 5 to 20 are the sixteen profile lines in order |
| RecommendationEngine.PromptEmbedsProfile | Backend/src/routes/predict.js:72-101 | the prompt text contains the class line and every profile line |
| RecommendationEngine.PromptFrameIsFixed | Backend/src/routes/predict.js:72-101 | every other line of the template is the same for all requests |
| RecommendationEngine.PromptIgnoresOtherFields | Backend/src/routes/predict.js:77-92 | bodies that agree on the sixteen profile fields give the same prompt |
| RecommendationEngine.FlagLineSaysYesOnlyForStringOne | Backend/src/routes/predict.js:87-88 | a flag line reads "Yes" exactly when the flag is the string "1", and "No" otherwise |
| RecommendationEngine.RecommendationCache.constructor | Backend/src/routes/predict.js:21 | the cache starts empty |
| RecommendationEngine.RecommendationCache.Recommend | Backend/src/routes/predict.js:59-127 | the reply, the generator call and the new cache are those of `Serve` on the body's key and prompt |
| RecommendationEngine.ServeOnlyAdds | Backend/src/routes/predict.js:108-109 | a request changes and removes no entry, and adds at most its own key |
| RecommendationEngine.ServeHitSkipsGenerator | Backend/src/routes/predict.js:66-70 | the generator is skipped exactly on a hit, and a hit answers the stored text with the cache unchanged; a miss calls it with the request's prompt |
| RecommendationEngine.RepeatAfterSuccessIsHit | Backend/src/routes/predict.js:67-111 | after a successful request, the same request is a hit with the same reply, whatever the generator would do |
| RecommendationEngine.MissStoresTrimmedText | Backend/src/routes/predict.js:103-111 | a successful miss answers the trimmed text and stores exactly that under the key |
| RecommendationEngine.FailureIsNotCached | Backend/src/routes/predict.js:112-126 | a failed generation leaves the cache unchanged and answers the fixed error; the same request again calls the generator again |
| RecommendationEngine.CalledKeysWereUncached | Backend/src/routes/predict.js:66-70 | in any run of requests, the generator is called only for keys not cached before the run |
| RecommendationEngine.AtMostOneGenerationPerKey | Backend/src/routes/predict.js:64-109 | for a run served by one generator that succeeds on every prompt it is given, each key reaches the generator at most once |
| RecommendationsView.FlushList | Frontend/src/Components/Recommendations.jsx:59-73 | an open list with items is pushed once, and the accumulator is reset |
| RecommendationsView.ReadLine | Frontend/src/Components/Recommendations.jsx:75-115 | one `forEach` step keeps the blocks pushed plus the blocks still to come unchanged |
| RecommendationsView.RenderRecommendations | Frontend/src/Components/Recommendations.jsx:50-119 | the elements are the grouping of the classified lines of the text, and `null` or empty text gives none |
| RecommendationsView.ContinueAtEnd | Frontend/src/Components/Recommendations.jsx:117 | at the end of the text the final flush emits exactly the open list |
| RecommendationsView.BlankIffAllSpace | Frontend/src/Components/Recommendations.jsx:76-80 | a line is blank exactly when it is all whitespace |
| RecommendationsView.HeadingTakesPrecedence | Frontend/src/Components/Recommendations.jsx:82-97 | a line `**x**` is a heading even when it also looks like a list item |
| RecommendationsView.NumberedItemShape | Frontend/src/Components/Recommendations.jsx:97-100 | a numbered item is digits, a dot, whitespace and the item text, and is not a heading |
| RecommendationsView.NumberedItemFromShape | Frontend/src/Components/Recommendations.jsx:97-100 | every non-heading line of that shape is a numbered item with that text |
| RecommendationsView.BulletItemShape | Frontend/src/Components/Recommendations.jsx:101-104 | a bullet item is `-` or `*`, whitespace and the item text, and is neither a heading nor numbered |
| RecommendationsView.BulletItemFromShape | Frontend/src/Components/Recommendations.jsx:101-104 | every non-heading line of that shape is a bullet item with that text |
| RecommendationsView.BareMarkerIsParagraph | Frontend/src/Components/Recommendations.jsx:76-114 | a bare `1.`, `-` or `*` becomes a paragraph, because trimming removes the whitespace the item patterns need |
| RecommendationsView.ItemOfTrimmedLine | Frontend/src/Components/Recommendations.jsx:76-104 | an item text is non-empty and starts with a non-space character |
| RecommendationsView.NothingRendersNothing | Frontend/src/Components/Recommendations.jsx:51 | `null` and the empty text render no elements |
| RecommendationsView.NoEmptyList | Frontend/src/Components/Recommendations.jsx:59-60 | no list is ever emitted empty |
| RecommendationsView.GroupKeepsEveryLine | Frontend/src/Components/Recommendations.jsx:75-118 | the blocks carry the text of every non-blank line once, in input order |
| RecommendationsView.BlankLineSeparates | Frontend/src/Components/Recommendations.jsx:77-79 | a blank line closes any open list: the lines before and after it are grouped separately |
| RecommendationsView.RunFormsOneList | Frontend/src/Components/Recommendations.jsx:97-104 | a maximal run of items of one kind forms exactly one list of their texts |
| RecommendationsView.KindSwitchClosesList | Frontend/src/Components/Recommendations.jsx:98-104 | switching between numbered and bullet items closes the current list |
| RecommendationsView.FindClose | Frontend/src/Components/Recommendations.jsx:44-46 | the lazy group ends at the first occurrence of the delimiter on the same line, and finds none only when every later occurrence lies past a line terminator |
| RecommendationsView.ReplaceWithoutDelimiter | Frontend/src/Components/Recommendations.jsx:44-46 | a replacement leaves text without the delimiter unchanged |
| RecommendationsView.FormatTextWithoutMarkup | Frontend/src/Components/Recommendations.jsx:43-48 | text with no `*` and no `_` is returned unchanged |
| RecommendationsView.ReplaceStep | Frontend/src/Components/Recommendations.jsx:44-46 | a delimited single-line run free of the delimiter is wrapped in the tags, and replacing continues after the closing delimiter |
| RecommendationsView.ReplaceWithoutOccurrence | Frontend/src/Components/Recommendations.jsx:44-46 | text in which the delimiter never occurs is unchanged |
| RecommendationsView.StarEmphasis | Frontend/src/Components/Recommendations.jsx:43-48 | `*x*` becomes `<em>x</em>` for non-empty single-line x without markup |
| RecommendationsView.UnderscoreEmphasis | Frontend/src/Components/Recommendations.jsx:43-48 | `_x_` becomes `<em>x</em>` for single-line x without markup |
| RecommendationsView.BoldBeforeEmphasis | Frontend/src/Components/Recommendations.jsx:43-48 | `**x**` becomes `<strong>x</strong>`, because the bold rule runs before the single-asterisk rule |

## Left out

- Nested objects, arrays and non-integral numbers in request bodies are not modelled. Values are null, booleans, integers and strings.
- NatDigits: spells every integer in full decimal. JavaScript writes numbers of magnitude 10^21 and above in exponent form (`1e+21`), so the spelling agrees with the program only below 10^21.
- Stringify: numbers are unbounded integers, not doubles. `JSON.parse` rounds integers beyond 2^53 before the route sees them, and `JSON.stringify` writes magnitudes from 10^21 up in exponent form; neither is modelled, and the same holds for `${...}` in the prompt.
- InferenceBridge.ChunkBoundariesDoNotMatter: output chunks are modelled as decoded text. The route decodes each `data` Buffer on its own with `toString()`, so a multi-byte UTF-8 character cut across two chunks becomes two replacement characters; the lemma covers cuts at character boundaries only.
- JavaScript orders integer-like property names (array indices) before other names. This ordering is not modelled; property order is the order of the member sequence.
- JavaScript strings are UTF-16 code units. Dafny characters are Unicode scalar values, so lone surrogates and their `\uXXXX` escaping are not modelled.
- The spawned process's `error` event (spawn failure) is not modelled. The route registers no listener for it.
- `pd.to_numeric` with `errors="coerce"`, the trained model and `joblib` loading are parameters. `get_dummies` is modelled by its effect on column names.
- Logging to the console and the classifier's diagnostic lines on standard error are not modelled.
- Concurrency between requests is not modelled: requests are served one after another.
- The React state, `fetch`, navigation, and the HTML and SVG markup around each block are not modelled. Only the text each element passes to `formatText` is kept.
- The wiring in `Backend/src/server.js` is not modelled. The routes receive the parsed body as a member sequence; a missing or non-object body is not modelled.
- The generative-text call is an injected function from the prompt to its outcome. Which network error occurred, and the logging of its response, are not modelled.
- Classifier.Run: model outputs that are not integers (class_map lookup of other Python objects) are not modelled; the prediction is an integer or a failure.
- RecommendationEngine.RecommendationCache.Recommend: its contract ties the reply and new cache to `Serve`. The hit, miss, store and failure properties are stated by the lemmas on `Serve`, not repeated in the method's ensures.
