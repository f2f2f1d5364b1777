# Image classification and similarity search — a Dafny model

The system lets a user pick or drop one image in a web page and send it to a
server for one of two tasks: classification ("is this a shop?") or
similarity search against an indexed image collection. This project models,
in Dafny, the parts of it that decide things:

- **The page** (`image-frontend/src/App.js`): the seven state cells of the
  `App` component as a class `AppState.Session`, with a method per handler —
  file intake and the file reader's outcome, drag enter/over/leave/drop, the
  start of a task and its settlement — plus the pure projections: the type
  information shown for a selected file (`FileIntake.GetFileTypeInfo`) and
  the display fields derived from a result (`ResultRenderer.RenderResult`).
- **The server's request handling** (`backend/main.py`): the ordered checks
  of both task endpoints, the HEIC test and routing of a saved upload, the
  mapping of failures to HTTP errors, the clean-up of the request's scratch
  directory, and the health report.
- **The models' post-processing** (`backend/task1_model.py`,
  `backend/task2_model.py`): the label, confidence and names of a
  classification; the filtering, ranking, thresholding and naming of a
  similarity search; and shop-name extraction from OCR output.

Files: `wrappers.dfy` (Option, Result), `strings.dfy` (case mapping,
prefix/suffix tests, split and join), `api.dfy` (the JSON bodies both sides
share), `file_intake.dfy`, `result_renderer.dfy`, `app_state.dfy`,
`shop_names.dfy`, `classifier.dfy`, `similarity.dfy`, `server.dfy`, and
`interplay.dfy` (lemmas relating the page and the server).

Inputs the model does not compute are parameters: the file reader's result,
the outcome of each POST, the softmax probabilities, the vector index's
answer to a query (a function from the number of neighbours asked for to
the rows it returns), the OCR engine's lines, `re.findall` (a function from
pattern and text to matches), the names `tempfile` chooses, whether copying
an upload fails and whether a HEIC conversion succeeds. Floating-point
values are Dafny `real`s and only compared.

Three behaviours of the code are worth stating plainly: a file rejected
for size or type leaves the earlier selection and its preview in place;
the search answer has no `shop_names` entry when no candidate survived;
and the type label is the text between the first and the second '/' of
the MIME type (`split('/')[1]`), not everything after the first '/'.

`extract_shop_names` is the same code in both model classes
(`backend/task1_model.py:38-75`, `backend/task2_model.py:49-86`); it is
modelled once, as `ShopNames.ExtractShopNames`, and used by both.

## Model

| member | source | states |
|---|---|---|
| `Strings.Split` | image-frontend/src/App.js:269 | `split` on one character: at least one piece, and no piece contains the separator |
| `Strings.SplitJoin` | image-frontend/src/App.js:269 | joining the pieces of a split with the separator gives back the string |
| `Strings.SplitAtFirst` | image-frontend/src/App.js:269 | the text before the first separator is the first piece, the pieces of the rest follow |
| `Strings.LastSegmentIsFileName` | image-frontend/src/App.js:252 | `split('/').pop()` is the tail of the path after its last '/', free of '/', or the whole path when it has none |
| `FileIntake.LooksLikeImage` | image-frontend/src/App.js:39-40 | a declared "image/" type is enough whatever the name; a refused file's lower-cased name ends with none of the nine extensions |
| `FileIntake.IsHeicFile` | image-frontend/src/App.js:49-50 | the types "image/heic" and "image/heif" are HEIC whatever the name; every file the HEIC test recognises passes the image test, so intake accepts it (without preview) within the size limit |
| `FileIntake.Judge` | image-frontend/src/App.js:28-50 | intake's verdict, first failing check first: no file; size strictly over 10 MiB; neither an "image/" type nor a listed extension of the lower-cased name; accepted, split by the HEIC test |
| `FileIntake.ErrorOf` | image-frontend/src/App.js:34-45 | an inline error exactly for the size and type rejections |
| `FileIntake.ExactLimitAccepted` | image-frontend/src/App.js:34 | a file of exactly 10 MiB is within the limit |
| `FileIntake.HeicTestCaseSensitivity` | image-frontend/src/App.js:49-50 | the HEIC test lower-cases the name but compares the type exactly ("IMAGE/HEIC" is not HEIC) |
| `FileIntake.TypeLabel` | image-frontend/src/App.js:269 | the type label is never empty (`|| 'Unknown'`) |
| `FileIntake.TypeLabelOfSubtype` | image-frontend/src/App.js:269 | for "top/sub" the label is the upper-cased subtype |
| `FileIntake.TypeLabelWithoutSlash` | image-frontend/src/App.js:269 | a type without '/' is labelled "Unknown" |
| `FileIntake.GetFileTypeInfo` | image-frontend/src/App.js:263-270 | nothing for no file; HEIC/HEIF: label "HEIC/HEIF", no preview, the note; otherwise previewable with the type label and no note |
| `FileIntake.PreviewPolicyAgrees` | image-frontend/src/App.js:49-59 | for an accepted file, the type panel's preview flag agrees with whether intake starts a read |
| `ResultRenderer.Tags` | image-frontend/src/App.js:172 | tags appear exactly when shown and the list is present and non-empty, and are then the list itself |
| `ResultRenderer.TopRows` | image-frontend/src/App.js:244-255 | at most three match rows, the i-th built from the i-th result |
| `ResultRenderer.RenderResult` | image-frontend/src/App.js:150-261 | nothing without a result; "SHOP DETECTED" iff the label is "shop", "MATCH FOUND" iff a match exists; tags iff that holds and names are non-empty; the first three matches with rank, similarity and file name |
| `ResultRenderer.ShownNamesAreFileNames` | image-frontend/src/App.js:252 | a shown match name has no '/' and is the tail of its path |
| `ResultRenderer.FixturePathTail` | image-frontend/src/App.js:252 | the file name shown for "a/b/c.jpg" is "c.jpg" |
| `ResultRenderer.SearchFixture` | image-frontend/src/App.js:214-257 | a match at 0.87 for "a/b/c.jpg" with no names shows "MATCH FOUND", one row (rank 1, "c.jpg") and no tags |
| `ResultRenderer.ClassificationFixture` | image-frontend/src/App.js:153-181 | "shop" at 0.92 with the name "Acme" shows "SHOP DETECTED", 0.92 and the single tag "Acme" |
| `AppState.ErrorText` | image-frontend/src/App.js:113 | the alert text is the server's detail when present and non-empty, the transport message otherwise |
| `AppState.Session.ActionsDisabled` | image-frontend/src/App.js:370-391 | in a valid state, enabled buttons mean an accepted file is selected, nothing is running and no inline error shows |
| `AppState.Session.constructor` | image-frontend/src/App.js:12-18 | the initial state: nothing selected, no preview, no result, idle, no error, not dragging |
| `AppState.Session.ValidateAndProcessFile` | image-frontend/src/App.js:25-61 | the error is reset to the verdict's message; no file clears selection and preview; a rejection keeps the earlier selection and preview; acceptance selects the file, with no preview and no read for HEIC/HEIF and a read started otherwise; the buttons are then disabled iff loading or not accepted; nothing else changes |
| `AppState.Session.ReadLoaded` | image-frontend/src/App.js:54 | the data URL becomes the preview, nothing else changes |
| `AppState.Session.ReadFailed` | image-frontend/src/App.js:55-58 | "Failed to read image file" and no preview, the selection kept, buttons disabled |
| `AppState.Session.ImageChange` | image-frontend/src/App.js:63-66 | intake of the first chosen file; a cancelled choice clears the selection |
| `AppState.Session.DragEnter` | image-frontend/src/App.js:68-72 | drag-over becomes true; selection, result and loading untouched |
| `AppState.Session.DragOver` | image-frontend/src/App.js:82-86 | drag-over becomes true; selection, result and loading untouched |
| `AppState.Session.DragLeave` | image-frontend/src/App.js:74-80 | drag-over becomes false only when the pointer left the drop zone |
| `AppState.Session.Drop` | image-frontend/src/App.js:88-101 | drag-over becomes false; with files, intake of the first one only and the input cleared; with none, nothing else changes |
| `AppState.Session.Start` | image-frontend/src/App.js:103-108 | without a file: the "Please select an image first" alert, no request, no change; with one: running with that kind and one POST of the file under "image" to its path; enabled buttons imply a request |
| `AppState.Session.SettleClassify` | image-frontend/src/App.js:109-119 | a response replaces the result tagged as classification; an error alerts "Classification failed: " with the detail or message and keeps the result; idle afterwards either way |
| `AppState.Session.SettleSearch` | image-frontend/src/App.js:128-138 | as for classification, tagged as search and alerting "Search failed: " |
| `ShopNames.Unique` | backend/task2_model.py:82 | `list(set(...))`: no duplicates, exactly the same elements |
| `ShopNames.ExtractShopNames` | backend/task2_model.py:49-86 | [] when OCR raised or read nothing; otherwise every match of the four patterns in the space-joined lines of the first page, each once |
| `ShopNames.DistinctSubsetNoLonger` | backend/task2_model.py:82 | a duplicate-free list whose elements all occur in another list is no longer than it |
| `ShopNames.SameElementsSameLength` | backend/task2_model.py:82 | duplicate-free lists with the same elements are equally long |
| `ShopNames.ShopNameListsAgree` | backend/task2_model.py:82 | extraction is determined up to order |
| `Classifier.Load` | backend/task1_model.py:13-30 | a missing model file raises FileNotFoundError before loading; a load failure is wrapped "Failed to load model: " |
| `Classifier.Predict` | backend/task1_model.py:77-108 | missing image raises FileNotFoundError first; inference failures are wrapped "Prediction failed: "; otherwise label "shop" iff shop probability strictly larger, probability the chosen label's and the larger one, both raw probabilities passed through, names read only for a shop |
| `Classifier.TieIsNotShop` | backend/task1_model.py:89-90 | equal probabilities give "not_shop" and no names |
| `Classifier.PredictionDeterminedUpToNameOrder` | backend/task1_model.py:89-104 | two predictions for the same inputs agree on everything but the order of names |
| `Similarity.ActualK` | backend/task2_model.py:97 | the neighbours asked for are min(top_k, ntotal) |
| `Similarity.PyIndex` | backend/task2_model.py:110-119 | Python indexing: negative positions count from the end, out of range has no value |
| `Similarity.StepAt` | backend/task2_model.py:103-120 | a row is dropped for id -1, id past the id map, or an image number past the path list; a valid row is kept with rank position+1, its similarity and the mapped path |
| `Similarity.Collect` | backend/task2_model.py:101-120 | never more results than raw rows |
| `Similarity.CollectFailureSticks` | backend/task2_model.py:92-150 | an error part-way through ends the whole search with that error |
| `Similarity.CollectRanks` | backend/task2_model.py:102-120 | every kept result is the one its rank's row yields, and ranks strictly increase (skipping dropped rows) |
| `Similarity.CollectComplete` | backend/task2_model.py:103-120 | every qualifying row is kept |
| `Similarity.BestIsLargestWhenSorted` | backend/task2_model.py:130 | the best similarity is the first kept one, the largest when rows come best first |
| `Similarity.Search` | backend/task2_model.py:88-150 | missing image raises FileNotFoundError first; query and index errors are wrapped "Search failed: "; no survivors: no match, 0.0, no names entry; otherwise the first kept similarity, a match iff it reaches the threshold, names only for a match; never more results than min(top_k, ntotal) neighbours asked for |
| `Server.IsValidImage` | backend/main.py:157-161 | a declared "image/" content type is enough whatever the name; a refused named upload's lower-cased name ends with none of the listed extensions |
| `Server.IsHeic` | backend/main.py:83-86 | the content types "image/heic" and "image/heif" are HEIC whatever the name; every HEIC upload passes both endpoints' image tests |
| `Server.Gate` | backend/main.py:151-166 | model loaded (500) before file name (400) before image test (400 listing the extensions); passes iff all three hold |
| `Server.SearchImagesAreClassifyImages` | backend/main.py:157-161 | every upload the search endpoint accepts as an image the classification endpoint accepts too |
| `Server.AvifOnlyClassified` | backend/main.py:201-211 | "x.avif" sent as an octet stream passes classification's checks and is refused by search's |
| `Server.HealthCheck` | backend/main.py:137-144 | status "ok", HEIC support, each task "loaded" iff its model is loaded, else "failed" |
| `Server.HealthAgreesWithGate` | backend/main.py:151-152 | the health report says "failed" for a task iff its endpoint answers with the model-not-loaded error |
| `Server.TempDir.constructor` | backend/main.py:168 | a fresh scratch directory is empty |
| `Server.TempDir.RemoveIfEmpty` | backend/main.py:185-188 | only an empty directory is removed |
| `Server.ProcessImageFileAsWritten` | backend/main.py:78-123 | copy failure: removed and re-raised; not HEIC: the saved path; HEIC converted: the JPEG path, original removed; HEIC not converted: the saved path, with the converted file left behind |
| `Server.ProcessImageFile` | backend/main.py:78-123 | the same routing, with the only file added being the one returned |
| `Server.HandleUploadAsWritten` | backend/main.py:147-188 | the same responses as `HandleUpload`; the scratch directory remains exactly when a HEIC upload was saved and its conversion failed |
| `Server.HandleUpload` | backend/main.py:147-188 | the gate's error first; then a processing or model failure is a 500 with the endpoint's prefix, success is the model's data; the scratch directory never remains |
| `Interplay.AcceptedFilesPassServerChecks` | backend/main.py:201-205 | a named file the page accepts passes both endpoints' checks |
| `Interplay.HeicTestsAgree` | backend/main.py:83-86 | the page and the server recognise the same files as HEIC/HEIF |
| `Interplay.SearchFailureAlert` | backend/main.py:229-231 | a model error in search reaches the user as "Search failed: " three times over |
| `Interplay.EmptySearchShowsNoMatch` | backend/task2_model.py:122-128 | a search with no survivors is shown as "NO MATCH", 0, no tags, no rows |
| `Interplay.ShownClassificationTags` | image-frontend/src/App.js:172 | shown classification tags are the OCR names, and only for a strictly larger shop probability |
| `Interplay.ShownSearchTags` | image-frontend/src/App.js:233 | shown search tags are the OCR names, and only when the best similarity reached the threshold |

## Findings

| source | as written | input that shows it | evidently intended | confidence | as-written member | corrected member |
|---|---|---|---|---|---|---|
| backend/main.py:106-115 | when HEIC conversion fails, the converted-file name created at line 107 is left in the scratch directory; the endpoint's clean-up then removes only the returned file, `os.rmdir` fails and the error is swallowed, so the directory and the empty file remain | an upload named "a.heic" whose conversion fails | remove the unused converted file, so a request leaves no scratch files behind | high; not executed | `Server.HandleUploadAsWritten` | `Server.HandleUpload` |

The routing itself is modelled twice as well: `Server.ProcessImageFileAsWritten`
adds the converted file's name to the directory on a failed conversion,
and `Server.ProcessImageFile` adds only the file it returns.
`Server.HandleUpload` uses the corrected routing.

## Left out

- Markup, styling, animations and the upload area's placeholder choice: presentation only.
- Percentage formatting (`toFixed(1)`) and progress-bar widths: floating-point formatting; the view carries the raw fractions.
- The `{success, data}` envelope of the server's answers: the page reads `data.data`, and a response is modelled by the inner `data` alone.
- The HTTP client, its base-URL choice and multipart encoding (RFC 7578): a POST is an abstract outcome (`AppState.PostOutcome`).
- Decoding a file to a data URL (RFC 2397): only the reader's success or failure is modelled, as `ReadLoaded` and `ReadFailed`. As in the source, nothing ties a reader's outcome to the file that is selected when it arrives.
- `testConnection`, `alert` and `console.error`: alerts are returned as values; logging and the connectivity check are I/O.
- Two task starts before the page re-renders: a scheduling effect of the UI framework. `AppState.Session.Start` does not refuse a start while running, as in the source.
- The unused `SUPPORTED_FORMATS` list of the page, and the server's `read_root`: neither takes part in any decision.
- `Strings.Lower`: ASCII letters only, where JavaScript's `toLowerCase` and Python's `lower` map all of Unicode.
- `Strings.Upper`: ASCII letters only, where JavaScript's `toUpperCase` maps all of Unicode.
- Creating, copying into and removing temporary files, and Pillow's HEIC conversion: the file system is the set of names in the scratch directory, and the outcomes are inputs.
- The thread pool, CORS, loading the models at import and the `uvicorn` entry point: concurrency and framework configuration.
- Network inference, softmax, embedding, normalisation and the vector index search: foreign numerics whose outputs are inputs; float32 values are reals.
- `SimilaritySearch.__init__`: loading the index, the id map, the image paths and the network; a failure there leaves the search model unloaded, which the gate covers.
- `_get_embedding`: the embedding itself is foreign numerics; its failure ("Failed to get embedding: …", wrapped as "Search failed: …") is one of the query's failures in `Similarity.Search`.
- The vector index's answer: the query is a parameter, assumed, as the index guarantees, to return no more rows than it is asked for (the index pads a short answer with id -1, which the model skips).
- The OCR engine, its lazy creation and the regular-expression engine: `re.findall` is a function parameter; the four patterns are kept as constants.
- `ShopNames.ExtractShopNames`: the order of the returned names, which `list(set(...))` leaves unspecified, is not fixed by the contract.
- `Similarity.Search`: the text of an IndexError raised on an out-of-range negative index is reduced to "index out of range"; `top_k` is a natural number.
- `Server.IsAvif`: modelled, and, as in the source, nothing depends on it.
- `test_server.py`: a two-route stub without logic.
