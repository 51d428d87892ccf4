# Cloaking pages and their server, modelled in Dafny

The system is a small web application that "cloaks" images against recognition models:

- **Face cloak page** (`FaceCloak.jsx`). A user drops a photo, optionally turns on targeted cloaking and picks a target face, sets an intensity and sends the photo to the Flask endpoint `/face-cloak`. The page then shows the cloaked image, the two prediction lists and a dashboard of whitelisted metrics.
- **Art cloak page** (`ArtCloack.jsx`). It does the same against `/art-cloak` and shows the classifier's top predictions before and after.
- **Playground** (`Playground.jsx`). A chat page. Each message carries a tag and optionally an image read as a data URL. A placeholder turn stands in for the answer until the request settles.
- **Server** (`models/app.py`). It validates the multipart request, runs the networks and answers either with an `{"error": ...}` body and status 400, or with `{"cloaked_image", "response"}` and status 200.

The model keeps each page in its own form:

- Each page is a class.
- React's batched state setters become one commit of a `Cells` value per event.
- The `useEffect` cleanups become explicit revocation lists.
- An asynchronous handler is split into its synchronous part and a separate `Resolve` event for when the request settles, because the handler does not order requests.

On the server side:

- The handlers are functions from the form data, and from what the networks produce, to a `Response`.
- The networks themselves are inputs: `FaceAnalysis` and `ArtAnalysis`.

Lemmas in `ClientServer` connect the two sides. Each one takes the form a page builds, runs it through the handler, delivers the answer as axios does and reads it back as the page does.

Modules:

- `Json`: JSON values, JavaScript truthiness and field access.
- `Reals`: the `min` and `max` both sides use.
- `Browser`: files, object-URL handles, multipart form data, how an axios request settles, and the preview-cleanup effect with its no-leak invariant.
- `CloakResponse`: how a successful answer is read, covering the effective root, the prediction lists and the metric whitelist.
- `MetricDisplay`: the metric dashboard, covering labels, the grid keys and bar widths.
- `FaceCloak`, `ArtCloak`, `Playground`: the three pages.
- `Server`: `cloak_face_api`, `face_cloak_from_base64`, the metric dictionary of `cloak_face_facenet`, and `cloak_image`.
- `ClientServer`: how answers are delivered, and the round trips.

Behaviour the code has that its own interface text or structure suggests otherwise:

- The drop zones announce "image only • max 10 MB" (`src/pages/FaceCloak.jsx:167`, `src/pages/ArtCloack.jsx:108`), but no handler checks the size. The model accepts any file.
- The intensity sliders stop at 0.1 and 0.2 (`src/pages/FaceCloak.jsx:199-206`, `src/pages/ArtCloack.jsx:141-146`), but the server never clamps the intensity it reads (`models/app.py:123`, `models/app.py:417`). A text part that is not a number makes `float()` raise. The service runs with `debug=True` (`models/app.py:504`), so that exception reaches the browser without cross-origin headers, and the page sees a network error.
- The face page's cleanup effect lists both previews as dependencies (`src/pages/FaceCloak.jsx:115-132`). Picking a target therefore revokes the source preview that is still on screen (`FaceCloak.ShownPreviewRevoked`). A second pick revokes it again (`FaceCloak.PreviewRevokedTwice`).
- The chat page reads the answer's fields inside the `setMessages` updater (`src/pages/Playground.jsx:93-101`), which React runs while rendering, after the handler's `try` has ended. A `null` body therefore escapes the `catch`, the render throws, and the page is torn down instead of showing the error text. An object-valued `response` gets past the updater but fails when `{msg.content}` renders it (`Playground.jsx:183`), with the same result (`Playground.RenderThrows`, `Playground.PlaygroundPage.ResolveChat`).
- The art page's drop handler sets `loading` to false (`src/pages/ArtCloack.jsx:22`). A second cloak can therefore start while the first is pending (`ArtCloak.TwoCloaksInFlight`). Neither page discards a stale answer, so the older answer is shown under the newer file (`ArtCloak.StaleAnswerShown`).

## Model

| member | source | states |
|---|---|---|
| Browser.LookupFirst | src/pages/FaceCloak.jsx:44-50 | a form lookup finds nothing exactly when no field has the name; otherwise it returns the value of the first field with that name |
| Browser.LookupCons | src/pages/FaceCloak.jsx:44-50 | a lookup in a form that starts with a field returns that field when the names match, and otherwise the lookup in the rest |
| Browser.LookupAppend | src/pages/FaceCloak.jsx:44-50 | a lookup in a concatenation of forms returns the first part's field when there is one, and otherwise the second part's |
| Browser.PreviewCleanup | src/pages/FaceCloak.jsx:115-132 | the effect revokes nothing when neither preview changed; otherwise it revokes exactly the two previous handles, the one still shown included |
| Browser.CommitKeepsNoLeak | src/pages/FaceCloak.jsx:115-132 | after a commit that binds old or freshly made handles, plus that commit's cleanup, every handle made is either revoked or bound to a preview |
| Browser.UnmountRevokesAll | src/pages/FaceCloak.jsx:115-132 | the cleanup at unmount leaves every handle made revoked |
| CloakResponse.Payload | src/pages/FaceCloak.jsx:69 | `res?.data \|\| {}` is always truthy: it is the data when the data is truthy, and `{}` otherwise |
| CloakResponse.EffectiveRoot | src/pages/FaceCloak.jsx:70 | the root is the nested `response` when that is truthy, and the payload otherwise; a truthy payload gives a truthy root |
| CloakResponse.PredictionsReadBack | src/pages/FaceCloak.jsx:69-78 | the two prediction lists a body carries, nested under `response` or at the top level, are exactly the lists the page reads back |
| CloakResponse.Whitelisted | src/pages/FaceCloak.jsx:81-102 | the copied keys are exactly the whitelisted keys that the root defines, each copied with its value unchanged |
| CloakResponse.PickedMetrics | src/pages/FaceCloak.jsx:103 | `metrics` is null exactly when the root defines no whitelisted key; otherwise it is the non-empty whitelisted copy |
| CloakResponse.ExtractMetrics | src/pages/FaceCloak.jsx:99-103 | the `forEach` loop over the whitelist yields exactly `PickedMetrics` of the root |
| MetricDisplay.SpaceUnderscores | src/pages/FaceCloak.jsx:360-361 | replacing every `_` with a space keeps the length and changes nothing else |
| MetricDisplay.CapitalizeWordsAt | src/pages/FaceCloak.jsx:360-362 | the `\b\w` upper-casing raises exactly the word characters that start a word and keeps every other character |
| MetricDisplay.CapitalizeWordsLength | src/pages/FaceCloak.jsx:360-362 | the upper-casing keeps the length |
| MetricDisplay.LabelAt | src/pages/FaceCloak.jsx:358-362 | each label character is the key's character, with `_` turned into a space and the first letter of each word in capitals |
| MetricDisplay.LabelShape | src/pages/FaceCloak.jsx:358-362 | a label is as long as its key and has no underscore |
| MetricDisplay.GridKeys | src/pages/FaceCloak.jsx:358-359 | the grid shows exactly the metrics present in the whitelist, except `attack_success`, which has its own badge, in whitelist order, with no key repeated when the whitelist repeats none |
| MetricDisplay.PredictionBarWidth | src/pages/FaceCloak.jsx:434-438 | the bar width is the probability in percent, clamped to [2, 100] |
| MetricDisplay.MetricBarWidth | src/pages/FaceCloak.jsx:366-383 | only similarity and score metrics get a bar; its width lies in [0, 100], and it is the value times 100 (times 800 for `similarity_drop`) when that falls in range |
| MetricDisplay.BarredMetrics | src/pages/FaceCloak.jsx:366-367 | the six similarity and score metrics that the server sends all get a bar |
| FaceCloak.SubmitForm | src/pages/FaceCloak.jsx:44-50 | the form carries the file, the target only when targeted, the flag as `"true"`/`"false"` and the intensity as a number, and has no other field |
| FaceCloak.FaceCloakPage.constructor | src/pages/FaceCloak.jsx:7-17 | the initial state: nothing selected, intensity 0.01, not targeted, nothing in flight, no handle made |
| FaceCloak.FaceCloakPage.Drop | src/pages/FaceCloak.jsx:19-26 | without a file nothing changes; otherwise the file becomes the source, the cloaked image is cleared, and a fresh object URL is shown with the cleanup run |
| FaceCloak.FaceCloakPage.PickTarget | src/pages/FaceCloak.jsx:236-242 | the target becomes the first chosen file, which may be none; only a real file gets a fresh preview, and the cleanup runs |
| FaceCloak.FaceCloakPage.SetTargeted | src/pages/FaceCloak.jsx:218-222 | only the targeted flag changes; turning it off keeps the target |
| FaceCloak.FaceCloakPage.SetIntensity | src/pages/FaceCloak.jsx:199-206 | only the intensity changes, within [0, 0.1] |
| FaceCloak.FaceCloakPage.StartCloaking | src/pages/FaceCloak.jsx:28-50 | without a source the page alerts "upload an image first"; when targeted without a target it alerts for a target; otherwise it clears the results, starts loading and sends `SubmitForm` |
| FaceCloak.FaceCloakPage.Resolve | src/pages/FaceCloak.jsx:57-112 | a non-null answer sets the cloaked image, raw data, predictions and metrics from the response; a null answer or a failure alerts with the reason, even after unmount; loading always ends; after unmount no cell changes |
| FaceCloak.FaceCloakPage.Discard | src/pages/FaceCloak.jsx:310-319 | every source, target and result cell goes back to empty, and the cleanup revokes both previous previews |
| FaceCloak.FaceCloakPage.Clear | src/pages/FaceCloak.jsx:518-528 | available while a preview is shown and there is no cloaked image; it empties the page as Discard does |
| FaceCloak.FaceCloakPage.Reset | src/pages/FaceCloak.jsx:310-319 | available beside a cloaked image once loading has ended; it empties the page as Discard does |
| FaceCloak.FaceCloakPage.Unmount | src/pages/FaceCloak.jsx:115-132 | the last cleanup leaves every object URL made revoked |
| FaceCloak.ShownPreviewRevoked | src/pages/FaceCloak.jsx:115-132 | after a drop and a target pick, the source preview is still shown although its handle is revoked |
| FaceCloak.PreviewRevokedTwice | src/pages/FaceCloak.jsx:115-132 | a second target pick revokes the shown source preview a second time |
| ArtCloak.CloakForm | src/pages/ArtCloack.jsx:31-33 | the form carries the image file and the intensity as a number, and nothing else |
| ArtCloak.ReplacePreview | src/pages/ArtCloack.jsx:63-73 | replacing the single preview keeps the no-leak invariant, keeps the revocations distinct and leaves the shown handle unrevoked |
| ArtCloak.ArtCloakPage.constructor | src/pages/ArtCloack.jsx:7-12 | the initial state: no file, no preview, intensity 0.01, nothing in flight |
| ArtCloak.ArtCloakPage.Drop | src/pages/ArtCloack.jsx:14-23 | an empty drop only clears the cloaked image, because `createObjectURL(undefined)` throws; otherwise a fresh preview and the file replace the old ones and loading ends |
| ArtCloak.ArtCloakPage.SetIntensity | src/pages/ArtCloack.jsx:141-146 | only the intensity changes, within [0, 0.2] |
| ArtCloak.ArtCloakPage.Cloak | src/pages/ArtCloack.jsx:25-33 | without a file nothing happens; otherwise loading starts, results are cleared and `CloakForm` is sent |
| ArtCloak.ArtCloakPage.Resolve | src/pages/ArtCloack.jsx:43-60 | a non-null answer sets the cloaked image and predictions; a failure or null answer only ends loading |
| ArtCloak.ArtCloakPage.Clear | src/pages/ArtCloack.jsx:166-170 | the cloaked image, preview and file go and the preview is revoked; the predictions stay |
| ArtCloak.ArtCloakPage.Reset | src/pages/ArtCloack.jsx:222-227 | as Clear, and the predictions are emptied too |
| ArtCloak.ArtCloakPage.Unmount | src/pages/ArtCloack.jsx:63-73 | every object URL made is revoked exactly once |
| ArtCloak.TwoCloaksInFlight | src/pages/ArtCloack.jsx:14-33 | a drop during a pending cloak re-enables the button, so two requests end up in flight |
| ArtCloak.StaleAnswerShown | src/pages/ArtCloack.jsx:43-53 | the first request's answer is shown while the second file is the current one |
| Playground.FindTag | src/pages/Playground.jsx:45 | `tags.find` returns nothing exactly when no tag has the id, and otherwise a tag with that id |
| Playground.TagMessages | src/pages/Playground.jsx:13-18 | each known tag's message is "I want to <title> this image." |
| Playground.UnknownTagMessage | src/pages/Playground.jsx:46 | an unknown tag gives the empty message |
| Playground.TrimStartEmpty | src/pages/Playground.jsx:38 | trimming the front leaves nothing exactly for a blank text, and otherwise starts with a non-space |
| Playground.TrimEndEmpty | src/pages/Playground.jsx:38 | trimming the back leaves nothing exactly for a blank text |
| Playground.TrimEmptyIffBlank | src/pages/Playground.jsx:38 | `input.trim()` is empty exactly when the input is all JavaScript white space |
| Playground.AppendTurn | src/pages/Playground.jsx:49-66 | sending appends the user turn and then the placeholder, keeping the log before them |
| Playground.Settle | src/pages/Playground.jsx:93-107 | settling replaces the last entry by the reply and keeps the rest |
| Playground.SendThenSettle | src/pages/Playground.jsx:49-107 | a send followed by its settle adds exactly the user turn and the reply |
| Playground.RenderThrowsCases | src/pages/Playground.jsx:93-101 | a null body, an object `response` and an array `response` holding an object make the render throw; a text answer, an array of texts, a missing `response` and a failed request do not |
| Playground.ReplyShowsAnswer | src/pages/Playground.jsx:93-101 | an answer with `response` and an optional `image` becomes the assistant turn showing both, and the settled log ends with the user turn and that turn |
| Playground.ChatPayload | src/pages/Playground.jsx:69-77 | the payload carries the message, tag and tag message, and an `image` field exactly when the preview is a non-empty data URL |
| Playground.PlaygroundPage.constructor | src/pages/Playground.jsx:6-11 | the initial state: empty input, empty log, no image, no tag |
| Playground.PlaygroundPage.SelectImage | src/pages/Playground.jsx:20-30 | a chosen file is selected and a read of it starts; no file changes nothing |
| Playground.PlaygroundPage.ReaderLoaded | src/pages/Playground.jsx:25-27 | the read's result becomes the preview, unless the page has crashed in the meantime |
| Playground.PlaygroundPage.RemoveImage | src/pages/Playground.jsx:32-35 | the selected image and its preview go |
| Playground.PlaygroundPage.SelectTag | src/pages/Playground.jsx:130-133 | the chosen tag becomes the selected tag |
| Playground.PlaygroundPage.SetInput | src/pages/Playground.jsx:211-212 | the input becomes the typed text |
| Playground.PlaygroundPage.SendMessage | src/pages/Playground.jsx:37-77 | blank input without an image does nothing; without a tag the page alerts; otherwise the turn and the placeholder are appended, loading starts and `ChatPayload` is sent |
| Playground.PlaygroundPage.ResolveChat | src/pages/Playground.jsx:93-112 | the placeholder becomes the reply or the error text, and every answer in the log renders; a null body, or a `response` React cannot render as a child, instead makes the next render throw, which tears the page down with the placeholder still last; either way loading ends and the input and image are cleared |
| Playground.SendAndSettle | src/pages/Playground.jsx:37-112 | a full exchange adds exactly the user turn and the reply to the earlier log, and crashes the page exactly when the answer makes the render throw |
| Server.ErrorBody | models/app.py:411 | an error answer's body is the single field `error` holding the message |
| Server.FlaskViews | models/app.py:406-409 | `request.form.get` and `request.files.get` both see the first part with the name, each for its own kind of part |
| Server.Lower | models/app.py:418-419 | lower-casing keeps the length and lowers each character |
| Server.FloatField | models/app.py:417 | `float(form.get(name, default))` gives the default when the field is absent and the number when one was sent |
| Server.MethodOf | models/app.py:418 | the method is FGSM exactly when the part is missing or lower-cases to `fgsm`, PGD exactly when it lower-cases to `pgd`, and unknown otherwise |
| Server.FlagOnly | models/app.py:419 | a lone `targeted` part makes the request targeted exactly when it is not a file and its text lower-cases to `true` |
| Server.TargetedSpellings | models/app.py:419 | `true`, `True` and `TRUE` all make a request targeted |
| Server.UntargetedSpellings | models/app.py:419 | a missing flag, `false`, `1`, `yes`, `true ` with a space, and a number part all leave a request untargeted |
| Server.ParseFaceRequest | models/app.py:405-429 | a request is accepted exactly when it has an image, a parsable intensity, and a target whenever it is targeted; no image gives 400 "No image provided"; an image with an unparsable intensity crashes; a missing target gives 400 "Targeted attack requires target_image"; the base64 parts are preferred over the uploads; an accepted request carries the parsed intensity, method and flag |
| Server.BuildMetrics | models/app.py:298-333 | building the metric dictionary step by step yields `MetricsOf` |
| Server.MetricKeys | models/app.py:298-333 | the dictionary has the eleven base keys, plus the four target keys exactly when targeted |
| Server.MetricRelations | models/app.py:304-323 | the similarity drop is 1 minus the similarity after; the attack succeeds exactly when that similarity is below 0.85; the score is at most 1; the moved norm equals the distance |
| Server.TargetPush | models/app.py:325-333 | the push is the target similarity after minus before, and its strength is that push floored at 0 |
| Server.FaceCloakFromBase64 | models/app.py:356-393 | targeted without a target gives that error; no face gives "No face detected"; a cloak results exactly when neither applies, the method is known and the measurements are defined |
| Server.Envelope | models/app.py:443-446 | the success body has exactly `cloaked_image` and `response` |
| Server.CloakFaceApi | models/app.py:397-446 | refusals are answered as parsed; no face gives 400; an accepted request with a face answers 200 with the metric envelope exactly when the method is known and the measurements are defined, and crashes otherwise |
| Server.ArgMax | models/app.py:141 | `torch.argmax` returns the first index of a largest probability |
| Server.IndexOf | models/app.py:145 | `list.index` returns the first position of the name, and fails exactly when the name is absent |
| Server.TopPredictions | models/app.py:166-186 | each list has three entries, each holding a class name and its probability |
| Server.ParseArtRequest | models/app.py:121-127 | a request is accepted exactly when its intensity parses and it has an image; an unparsable intensity crashes even without an image, because it is read first; otherwise a missing image gives 400 "No image file provided"; mode defaults to `"untargeted"` |
| Server.ResolveTarget | models/app.py:139-147 | without a name the target is the argmax class; an unknown name gives 400 "Invalid class name"; a known name gives its own index |
| Server.ArtBody | models/app.py:169-186 | the body carries the mode, the target class and both top-3 lists |
| Server.CloakImage | models/app.py:119-197 | refusals are answered as parsed; an accepted request naming an unknown class gets 400 "Invalid class name"; the answer is 200 exactly when parsing and target resolution succeed, and then it carries the envelope of `ArtBody` |
| ClientServer.FaceFormOmits | src/pages/FaceCloak.jsx:44-50 | the page's form has no `image_base64`, `target_image_base64` or `method` part |
| ClientServer.FaceFormFields | src/pages/FaceCloak.jsx:44-50 | the server sees the page's file, flag, intensity and target in the parts it reads |
| ClientServer.LowerFlags | models/app.py:419 | the two flag texts the page sends are already lower-case |
| ClientServer.FaceFormAccepted | models/app.py:405-429 | every form the page can send is accepted, with its intensity, FGSM, its flag and its target |
| ClientServer.BaseKeysWhitelisted | src/pages/FaceCloak.jsx:81-98 | every base metric the server sends is on the page's whitelist |
| ClientServer.TargetKeysWhitelisted | src/pages/FaceCloak.jsx:81-98 | every target metric the server sends is on the page's whitelist |
| ClientServer.PredictionFieldsNotMetrics | src/pages/FaceCloak.jsx:80 | the prediction lists are not metric keys |
| ClientServer.InterpretEnvelope | src/pages/FaceCloak.jsx:67-103 | the page reads a success envelope as the cloaked image, the metrics it contains and empty prediction lists |
| ClientServer.MetricsReadable | models/app.py:298-333 | the metric dictionary is non-empty, whitelisted and free of prediction fields |
| ClientServer.FaceApiSuccess | models/app.py:397-446 | a page form with a measurable face gets a 200 answer with the metric envelope |
| ClientServer.FaceRoundTrip | src/pages/FaceCloak.jsx:57-103 | the page shows exactly the server's metric dictionary and the cloaked image |
| ClientServer.OnlySuccessResolves | src/pages/FaceCloak.jsx:57-64 | a request reaches the success path exactly on a 2xx answer, with the body unchanged; a rejection carries response data exactly when the server answered |
| ClientServer.ErrorMessageReachesAlert | src/pages/FaceCloak.jsx:105-109 | for any non-2xx status, the message of the server's error body is the alert reason; an empty message falls back to axios's status message |
| ClientServer.NoFaceReason | src/pages/FaceCloak.jsx:105-109 | with no face detected the alert reason is "No face detected" |
| ClientServer.TargetlessRefused | models/app.py:424-427 | a targeted form without a target is refused with 400, and its error text reaches the alert |
| ClientServer.CrashReason | models/app.py:417 | a form whose intensity is a text part, which stands for one `float()` rejects, crashes the handler; with the debug server that reaches the page as a network error, which is the alert reason |
| ClientServer.ArtFormFields | models/app.py:121-124 | the server reads the page's file and intensity and sees no target class and no mode |
| ClientServer.ArtRoundTrip | src/pages/ArtCloack.jsx:43-53 | the art page's form gets a 200 answer whose two prediction lists the page shows as the server's top-3 lists |

## Left out

- The neural networks, the FGSM and PGD perturbations, image decoding, resizing and base64 encoding. What they produce (detection, embeddings, probabilities, the encoded image) is an input of the model.
- An image that PIL cannot open, and `base64_to_pil` failures, which raise and so end like any other crash. The model assumes uploads decode.
- Floating point. Metrics and probabilities are exact reals, so rounding, NaN and infinities are not modelled. The dashboard's `toFixed`/`toPrecision` formatting is left out.
- JavaScript coercion of non-number values in `p.prob` and in metric values (a numeric string times 100, `parseFloat` of text) is not modelled. Such values count as 0. A `null` prediction entry, or one whose `class` is an object (`src/pages/FaceCloak.jsx:442,468`, `src/pages/ArtCloack.jsx:259,285`), makes the render throw. Neither case is modelled.
- Server.Lower: lowers ASCII letters only, whereas Python's `str.lower` follows Unicode.
- Server.TextOf: a part appended as a number is read as a number by `float()` only. Elsewhere it reads as the empty text, because its decimal spelling is not modelled.
- Server.FloatField: a text part yields `None`, meaning that `float()` raised. The text of a numeral sent as a string is not parsed.
- ClientServer.Deliver: a crash is delivered as the network error of a cross-origin answer without CORS headers. This holds for the debug server the service starts (`models/app.py:504`). It follows from how Flask propagates exceptions in debug mode and how Werkzeug's debugger serves them, which are not part of this model. A production server would instead send a 500 page with the headers.
- Server.CloakImage and Server.ArtBody: require the classifier's output to be well formed (`Classified`: probability vectors as long as the class list, valid top-3 indices), which `torch.topk` guarantees.
- The network itself, timeouts, the 30 s axios timeout, console logging and the 2 s delay before the chat reply. Requests settle through the separate `Resolve` and `ResolveChat` events.
- `URL.createObjectURL` and `FileReader` internals. A handle is a fresh number and a read result is an input.
- Playground unmount by navigation: the page keeps no object URL, so no leak invariant applies. Only the crashes that a chat answer causes are modelled, as `crashed`: a null body, or a `response` that is an object or an array holding one.
- The chat server behind `/chat` is not part of this model. Its answer is an input.
- The markup, styling, dropzone configuration and the raw-data viewer, which only render state that is modelled. The render failures named above are the exceptions.
