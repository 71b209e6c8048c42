# image-edit: the generation relay and the edit history, in Dafny

This project models the two parts of the image-edit web app that hold logic.

**The generation relay** (`POST /routes/upload`, module `Relay`, `relay.dfy`). The handler receives a multipart form with an image file and a prompt. It checks the form and the API key. It submits one job to the image-generation provider, with the image as a base64 data URI (RFC 2397, section 2). It then polls the provider's result endpoint at most 60 times. It ends in exactly one `Outcome`:

- `NoFile`
- `NoApiKey`
- `SubmitFailed`
- `ImageFromUrl`
- `ImageFromBase64`
- `GenerationFailed`
- `TimedOut`
- `InternalError`

`Respond` maps each outcome to its HTTP response: 200 `image/jpeg`, or a JSON error with status 400, 500 or 504.

The network is abstract. A `Provider` holds three things: the reply to the submission, the sequence of poll replies, and whether fetching a sample URL succeeds. Every request the handler sends is recorded, in order, as a `Call`. That makes "no call before the checks", "zero polls" and "at most 60 polls" statements about the recorded calls.

The handler is specified by functions: `Handle`, `PollLoop` for the loop, and `Step` for one poll reply. `Post` and its loop `AwaitResult` are the step-by-step method. Each is proved equal to its function.

**The edit history** (the `Home` component of `app/page.tsx`). Module `History` (`history.dfy`) is the pure part. It is a `Cursor`: the list of `HistoryItem`s plus an index into it. It has these operations:

- `Start`, for attaching a file.
- `Commit`, for a successful edit. It implements the updater `prev.slice(0, historyIndex + 1)` followed by an append, with JavaScript's `slice` semantics.
- `Undo` and `Redo`.

Module `Editor` (`editor.dfy`) is the component as a class, `Home`. Its fields are `stage`, `attachedImage`, `originalImage`, `currentFile`, `prompt`, `isProcessing`, `imageHistory` and `historyIndex`. Its methods are the handlers. Each method's postcondition ties the new history and index to the matching `History` function. The invariant `Valid()` says two things:

- Before a file is attached, there is no history and nothing is shown.
- Afterwards, `0 <= historyIndex < |imageHistory|`, and the displayed image and the current file are the entry at the index.

Four points of the handler's behaviour are worth noting:

- It does not reject an empty file. It checks only that a file is present (`app/routes/upload/route.ts:7`).
- A missing API key is its own error, checked before any submission (`app/routes/upload/route.ts:18-24`). It is not folded into the submission failure.
- A sample counts as a URL when it starts with `"http"` (`app/routes/upload/route.ts:76`).
- Every exception is answered with 500 "Internal server error" (`app/routes/upload/route.ts:107-113`). An exception can come from parsing the form, from the submission, from a poll, or from fetching the sample.

## Model

| member | source | states |
|---|---|---|
| `Relay.Post` | app/routes/upload/route.ts:1-56 | The step-by-step handler produces exactly the outcome and the sequence of outbound calls of the specification `Handle`. |
| `Relay.AwaitResult` | app/routes/upload/route.ts:57-106 | The loop polls attempt by attempt, returns at the first terminal reply and times out after the 60th attempt. It produces exactly the outcome and calls of `PollLoop`. |
| `Relay.PollOnce` | app/routes/upload/route.ts:60-100 | One attempt: it stops exactly when `Step` stops, with `Step`'s outcome, after the poll and the fetch of a URL sample. Otherwise it has made exactly the one poll. |
| `Relay.Handle` | app/routes/upload/route.ts:1-114 | Whatever the form, the key and the provider, one request makes at most 60 polls. |
| `Relay.MimeTypeOf` | app/routes/upload/route.ts:16 | The MIME type sent is never empty. It is the file's own type whenever the file reports one, and `image/jpeg` when it reports none. |
| `Relay.PromptOrEmpty` | app/routes/upload/route.ts:37 | The prompt sent is the form's prompt when that is present and non-empty. Otherwise it is `""`, and it is `""` only then. |
| `Relay.DataUri` | app/routes/upload/route.ts:36 | Builds `data:<type>;base64,<data>`. Its inverse is `ParseDataUri`: `DataUriRoundTrip` and `ParseDataUriSound` carry its contract. |
| `Relay.BuildPayload` | app/routes/upload/route.ts:35-41 | The create-job body. `SubmittedPayload` carries its contract: the data URI, the prompt or `""`, seed -1, no upsampling and safety tolerance 6. |
| `Relay.DataUriRoundTrip` | app/routes/upload/route.ts:36 | A data URI built from a MIME type without a comma reads back, through the model's own reader `ParseDataUri`, as exactly that type (parameters included) and that base64 data. |
| `Relay.ParseDataUriSound` | app/routes/upload/route.ts:36 | Every URI the model's reader accepts is the data URI of what it reads, with a comma-free type. So the data URI is the inverse of the reader. |
| `Relay.ClassifyStatus` | app/routes/upload/route.ts:73-91 | A status is done exactly when it is Ready, Complete or Finished. It is failed exactly when it is Failed or Error. Anything else means still running. |
| `Relay.Step` | app/routes/upload/route.ts:70-100 | One poll reply decides: a thrown poll is an internal error, a non-ok reply keeps polling, and only a URL sample is fetched. A URL image always comes with the fetch of that URL. A stop is never a timeout. The if-and-only-if for continuing is `StepContinuesIff`. |
| `Relay.PollLoop` | app/routes/upload/route.ts:57-106 | After the last attempt the loop times out with no call. Every earlier attempt starts with a poll of the job. Its budget is `PollLoopBudget`, its calls are `PollLoopCalls`, and its stopping rule is `FirstStopDecides` and `TimesOutIffNoStop`. |
| `Relay.PollLoopBudget` | app/routes/upload/route.ts:57-106 | From any attempt on, the loop polls at most once per remaining attempt. It times out only after polling once per remaining attempt and making no other call. |
| `Relay.PollLoopCalls` | app/routes/upload/route.ts:57-101 | The loop polls only the submitted job. Its one sample fetch, if any, is its last call. An image from a URL always follows a fetch of that URL. It ends only in an image, a generation failure, a timeout or an internal error. |
| `Relay.Respond` | app/routes/upload/route.ts:7-113 | Each outcome gets one response with status 200, 400, 500 or 504. 200 comes exactly for images, and exactly with `image/jpeg`. 400 comes exactly for a missing file, 504 exactly for a timeout. Every error is JSON. Only a generation failure carries details, and those are the provider's. The error texts are "Generation failed", "Request timed out after 60 seconds" and "Internal server error" for the loop's failures. |
| `Relay.MissingFileRejectedFirst` | app/routes/upload/route.ts:7-12 | A missing file gives 400 "No file provided" with no outbound call, whatever the API key and the provider. |
| `Relay.MissingApiKeyRejected` | app/routes/upload/route.ts:18-24 | A file without an API key gives 500 "API key not configured" with nothing submitted or polled. |
| `Relay.SubmittedPayload` | app/routes/upload/route.ts:14-43 | The first call submits `"data:" + mime + ";base64," + base64(bytes)`, where mime is the file's type or `image/jpeg`. It also submits the prompt (or `""`), seed -1, no upsampling and safety tolerance 6. For a MIME type without a comma, the model's reader `ParseDataUri` reads the image back unchanged. |
| `Relay.MissingRequestIdMeansNoPolls` | app/routes/upload/route.ts:47-52 | A submission answered with no `request_id` gives 500 "Failed to submit request" after the one submission and zero polls. |
| `Relay.ExceptionsAreInternalErrors` | app/routes/upload/route.ts:107-113 | An exception becomes 500 "Internal server error". An unreadable form gives it before any call, a raised submission after its one `Submit`, and a raised poll right after that poll. |
| `Relay.OneJobPerRequest` | app/routes/upload/route.ts:26-101 | One request submits one job, as its first call, and never a second. Every poll names the `request_id` that submission returned, with the request's API key. A sample fetch can only be the last call. |
| `Relay.PollBudget` | app/routes/upload/route.ts:57-106 | One request makes at most 60 polls. A timeout (504) comes after exactly 60. |
| `Relay.StepContinuesIff` | app/routes/upload/route.ts:70-100 | A poll continues the loop exactly in three cases: the reply is non-ok; the status is done but the sample is missing or empty; or the status is in neither set. |
| `Relay.ContinuingPollFallsThrough` | app/routes/upload/route.ts:57-101 | A continuing poll costs one call and leaves the outcome to the later attempts. |
| `Relay.FailedStatusStopsAtOnce` | app/routes/upload/route.ts:91-99 | A Failed or Error status ends the loop on that very poll with 500 "Generation failed". It carries the provider's details unchanged. |
| `Relay.DoneWithSampleStops` | app/routes/upload/route.ts:73-88 | A done status with a non-empty sample ends the loop on that poll. An `http…` sample is fetched, and a failed fetch is an internal error. Any other sample is decoded from base64. The answer is 200 `image/jpeg`. |
| `Relay.FirstStopDecides` | app/routes/upload/route.ts:57-101 | The first poll that ends the loop decides the outcome. It comes after exactly one poll per attempt up to it. |
| `Relay.TimesOutIffNoStop` | app/routes/upload/route.ts:57-106 | The loop times out if and only if none of its remaining polls ends it. |
| `Relay.ReadyOnSecondPoll` | app/routes/upload/route.ts:47-81 | Example: job "abc" is "Processing" at the first poll and "Ready" with a URL at the second. The calls are the submission, two polls and the fetch, and the image comes from that URL. |
| `History.Slice` | app/page.tsx:113 | JavaScript's `slice`. The result is never longer than the input. `SlicePrefix` gives its value for `slice(0, end)`, the only form the component uses. `SliceFromEnd` and `SliceClamped` cover negative and out-of-range indices. |
| `History.SlicePrefix` | app/page.tsx:113 | `slice(0, end)` with a non-negative end keeps the first `end` entries, or all of them. |
| `History.SliceFromEnd` | app/page.tsx:113 | A negative start counts from the end: `slice(-k, length)` with `k > 0` keeps the last `k` entries, or all of them. |
| `History.SliceClamped` | app/page.tsx:113 | An end past the length is clamped to the length, and a start at or past a non-negative end gives an empty slice. |
| `History.Start` | app/page.tsx:72-74 | Attaching a file gives a history of that one image with the cursor on it. Neither undo nor redo is enabled. |
| `History.Undo` | app/page.tsx:138-146 | Undo never changes the history itself. |
| `History.Redo` | app/page.tsx:148-156 | Redo never changes the history itself. |
| `History.Commit` | app/page.tsx:112-121 | After an edit, the new image is the last entry and the index moves one step on. The full contract is `CommitAppendsAfterCursor`. |
| `History.CommitAppendsAfterCursor` | app/page.tsx:111-121 | A successful edit leaves the history as `old[..index+1] + [new]`. The new index is `old index + 1`, which is the last position, so the cursor is on the new image. Redo is then disabled and undo enabled. |
| `History.UndoSteps` | app/page.tsx:138-146 | Undo keeps the cursor in the history. It steps back onto the previous image exactly when the index is positive, and otherwise changes nothing. |
| `History.RedoSteps` | app/page.tsx:148-156 | Redo keeps the cursor in the history. It steps forward onto the next image exactly when the index is below the last, and otherwise changes nothing. |
| `History.UndoThenRedo` | app/page.tsx:138-156 | An enabled undo followed by redo restores the cursor exactly. |
| `History.RedoThenUndo` | app/page.tsx:138-156 | An enabled redo followed by undo restores the cursor exactly. |
| `History.RunKeepsCursorInHistory` | app/page.tsx:63-156 | Any sequence of attach, edit, undo and redo steps from an attached image keeps `0 <= index < length`. Undo and redo steps alone never change the history. |
| `Editor.ProcessedFile` | app/page.tsx:107-109 | The file kept for the next edit holds exactly the bytes of the edited image, typed `image/jpeg`. |
| `Editor.Home.constructor` | app/page.tsx:30-40 | The initial state: stage initial, no history, index 0, empty prompt, not processing. |
| `Editor.Home.EditPrompt` | app/page.tsx:289 | Typing sets the prompt and nothing else. |
| `Editor.Home.HandleFile` | app/page.tsx:63-75 | Attaching sets the history to exactly `[{imageUrl, file}]` and the index to 0. It shows the image, makes the file current and sets the stage to attached. |
| `Editor.Home.BeginProcessing` | app/page.tsx:77-91 | Without a current file or with an empty prompt nothing changes. Otherwise the stage becomes processing, `isProcessing` becomes true, and the current file and prompt are posted. |
| `Editor.Home.CompleteProcessing` | app/page.tsx:93-135 | On success, the history and index become `Commit` of the old ones, the new image is shown and current, and the prompt is cleared. On a non-ok response or an error, history, index, display and prompt are unchanged. Either way the stage returns to attached and `isProcessing` to false. |
| `Editor.Home.ProcessImage` | app/page.tsx:77-136 | The whole of `processImage`: the guard, the post, then the outcome above. |
| `Editor.Home.HandleUndo` | app/page.tsx:138-146 | The history and index become `Undo` of the old ones. When the index was positive, the index decreases by one and the displayed image and file become `history[index-1]`. Otherwise nothing changes, and the history is never modified. |
| `Editor.Home.HandleRedo` | app/page.tsx:148-156 | The history and index become `Redo` of the old ones. When the index was below the last, the index increases by one and the displayed image and file become `history[index+1]`. Otherwise nothing changes, and the history is never modified. |
| `Editor.UndoThenRedoRestores` | app/page.tsx:138-156 | On the component, an enabled undo followed by redo restores the index, the displayed image and the current file. |
| `Editor.UndoAfterEdit` | app/page.tsx:111-146 | After a successful edit, undo shows again the image the edit started from, and redo becomes enabled. |

## Left out

- The network calls themselves are abstract: the submission, the polls and the sample fetch. A `Provider` supplies their results, and the model records the requests. The bytes of a fetched sample are not modelled, only whether fetching it throws.
- The base64 encoding of the upload is a function parameter (`base64`), not a verified encoder. Decoding an inline sample is represented by the response body `DecodedImage(data)`.
- Parsing the multipart form and the JSON bodies is not modelled. A form whose parsing throws is `Unreadable`. A poll reply whose body cannot be parsed is `PollRaised`. `file.arrayBuffer()` throwing is not modelled.
- Poll replies beyond the provider's scripted sequence are treated as non-ok replies.
- A poll's `status` is a string, so a missing status behaves like any unrecognised one. A `sample` or `request_id` that is present but not a string is not modelled. Neither is a `details` value that is not a string: the handler passes any JSON value through, but the model's `details` is an optional string. A poll body that parses to `null` is not modelled either; reading `status` from it throws, which gives 500.
- The one-second waits between polls are not modelled; only the attempt count is. Console logging and `alert` are not modelled either.
- `Relay.DataUriRoundTrip`: requires a MIME type without `,`. A file type containing a comma would not read back as the same type. `ParseDataUri` is the model's own reader, the inverse of `DataUri`; it is not the provider's decoder, which is not part of this model.
- Two malformed inputs are not modelled. The form's `file` field can be a string instead of a `File`: an empty string is rejected as no file, and any other string makes `file.arrayBuffer()` throw, which gives 500. The model's form file is only absent or a file. A drop that carries no file makes `handleFile` throw at `URL.createObjectURL` before any state changes. `HandleFile` always receives a file.
- Object URLs (`URL.createObjectURL`) and the processed `File` come in as plain values: the URL as a parameter, the file as `ProcessedFile(bytes)`.
- `Editor.Home.CompleteProcessing`: requires the stage to still be processing. Any handler run between the request and its response is not modelled. That includes a file dropped while processing, and `processImage`'s closure keeping a stale `historyIndex`. React's batched state updates are not modelled either: each handler is one atomic step.
- All rendering, animation and DOM work in app/page.tsx is not modelled. That includes `handleClick`, `downloadImage`, the clipboard buttons, `imageDimensions` and the unused `isRateLimited`, `transcriptionText` and `copiedMessage` state. The undo and redo buttons are disabled while processing, but the handlers do not check this, so the model does not require it either.
- `app/components/FractalImage.tsx` and `app/components/DropZone.tsx` are presentation only and are not part of this model.
