# Selfie style editor: a Dafny model

This project models the core of a browser application that restyles a photo with a generative
image model. The user uploads an image. The editor crops it to the chosen aspect ratio. The
user then picks a style template or types a prompt. The editor builds a final prompt from the
generation options, asks the model for three variants, shows the ones that came back, and
records the first in a per-image history kept in the browser's store. A dialog creates and
edits style templates.

The model has three parts.

- **`components/Editor.tsx`** becomes the `EditorSession` and `GenerationHistory` modules, with `CropGeometry`, `FinalPrompt` and `TemplateList` beside them.
  - The editor's state variables are the fields of the class `EditorSession.Editor`. Its event handlers are methods on that class, and the browser store is a `map` field.
  - Each handler is also a function on the value `Session` (`ResetState`, `Run`, `CompleteState`, ...). Each method is proved to move the fields exactly as that function says, and the lemmas are stated about the functions.
  - The class invariant is `ValidSession`: there is a key exactly when there is an image, the processed image belongs to the image, there are one to three variants, and the selection is one of them. Every handler keeps it.
  - `Synced` says the history shown is the one stored under the current key. It is not an invariant. A generation that completes after a reset or a new upload records its result into the history now shown but stores it under the key it started with. From then on the two disagree until the next reset or upload, which restore `Synced`. Every other handler keeps `Synced` when it held before, and accepts the state where it does not.
  - The crop and preview geometry, the final prompt, the template list and the history keys are pure functions with lemmas.
- **`services/geminiService.ts`** becomes `GeminiService`.
  - The remote model is a function parameter mapping an attempt and the parts sent to a response.
  - Modelled: the data-URL split, the request parts, the classification of a reply, the all-settled join of three attempts, the API-key guards and the thumbnail result.
  - `GenerateSingleImage` and `EditImageWithTemplate` are methods that mirror the source's pushes and its scan for the first image part. They are proved against the functions `Attempt` and `EditResult`.
- **`components/EditTemplateModal.tsx`** becomes `TemplateModal`.
  - Its fields are in the class `TemplateModal.Modal`.
  - The save validation, the identifier derived from the name (the slug), the default thumbnail and the trimming are functions with lemmas.

`JsStrings` gives the JavaScript string operations the code relies on. These are `trim` (with ECMAScript's white-space set), ASCII `toLowerCase`, `split` on one character, `join`, the decimal rendering of a size and `Number` on digits. `Wrappers` holds `Option` and `Result`.

## Model

| member | source | states |
|---|---|---|
| JsStrings.TrimStart | components/Editor.tsx:242 | the result is a suffix of the input, everything removed before it is white space, and it does not start with white space |
| JsStrings.TrimEnd | components/Editor.tsx:242 | the result is a prefix of the input, everything removed after it is white space, and it does not end with white space |
| JsStrings.TrimInfix | components/EditTemplateModal.tsx:57-58 | the trimmed text is the infix of the input that starts after its leading white space |
| JsStrings.TrimSurround | components/EditTemplateModal.tsx:57-58 | everything trimming removes, before and after the kept infix, is white space |
| JsStrings.TrimEnds | components/EditTemplateModal.tsx:57-58 | a non-empty trimmed text neither starts nor ends with white space |
| JsStrings.TrimBlank | components/EditTemplateModal.tsx:48 | trimming gives the empty string exactly when every character is white space, so `!s.trim()` means blank |
| JsStrings.TrimIdempotent | components/Editor.tsx:242 | trimming twice is trimming once |
| JsStrings.TrimOfTrimmed | components/Editor.tsx:242 | a text without white space at either end is its own trim |
| JsStrings.TrimKeepsEnd | components/Editor.tsx:242 | a text that does not end in white space only loses its leading white space |
| JsStrings.SplitOn | components/Editor.tsx:31 | a split always has at least one segment |
| JsStrings.SplitSegmentsFree | services/geminiService.ts:12 | no segment of a split contains the separator |
| JsStrings.JoinSplit | services/geminiService.ts:12 | joining the segments with the separator gives the text back |
| JsStrings.SplitWithoutSeparator | services/geminiService.ts:12 | a text without the separator splits into itself alone |
| JsStrings.SplitAtFirst | services/geminiService.ts:12 | splitting at the first separator gives the part before it, then the segments of the rest |
| JsStrings.NatToDecimal | components/Editor.tsx:134 | a rendered size is a non-empty string of digits without a leading zero, and has one digit exactly below ten |
| JsStrings.DecimalRoundTrip | components/Editor.tsx:31 | `Number` of a rendered number gives the number back |
| JsStrings.NatToDecimalInjective | components/Editor.tsx:134 | different sizes render differently |
| CropGeometry.CropRect | components/Editor.tsx:50-63 | the crop lies inside the image, has exactly the target ratio, is centred, and keeps one whole side |
| CropGeometry.CropKeepsSide | components/Editor.tsx:53-63 | an image relatively wider than the target keeps its height and is clipped left and right; any other keeps its width and is clipped top and bottom |
| CropGeometry.CropIsLargest | components/Editor.tsx:50-63 | no rectangle of the target ratio that fits in the image is wider or taller than the crop |
| CropGeometry.ParseRatio | components/Editor.tsx:31-32 | the ratio `cropImage` computes from a `W:H` string; its meaning is stated by `ParseRatioOfRendered` and `CropFor` |
| CropGeometry.ParseRatioOfRendered | components/Editor.tsx:31-32 | the ratio string `"W:H"` reads as `W / H` |
| CropGeometry.CropFor | components/Editor.tsx:31-63 | a crop exists exactly when the ratio string parses to a positive ratio, and it then has that ratio |
| CropGeometry.AspectRatioClass | components/Editor.tsx:92-102 | the result is the square class exactly when the ratio is neither `2:3` nor `16:9` |
| CropGeometry.ClassRatioOfBracketed | components/Editor.tsx:94-97 | a bracketed aspect class is read from what lies between the brackets |
| CropGeometry.RatioOfRenderedParts | components/Editor.tsx:94-97 | `W/H` written in decimal reads back as `W / H` |
| CropGeometry.ClassRatioOfRendered | components/Editor.tsx:94-97 | the class `aspect-[W/H]` sets the ratio `W / H` |
| CropGeometry.PreviewMatchesCrop | components/Editor.tsx:92-102 | for `1:1`, `2:3` and `16:9` the preview box's ratio is the ratio the image is cropped to |
| FinalPrompt.Build | components/Editor.tsx:228-243 | `constructFinalPrompt`; what it builds is stated by `UntrimmedCases`, `BuildDefault` and `BuildEndsWithClauses`, and `Editor.ConstructFinalPrompt` is proved equal to it |
| FinalPrompt.UntrimmedCases | components/Editor.tsx:228-241 | each clause appears exactly when its option is set, the mode clause (lower-cased) before the resolution clause, each after `", "` |
| FinalPrompt.BuildDefault | components/Editor.tsx:228-243 | with the default mode and no resolution the final prompt is the trimmed base prompt |
| FinalPrompt.BuildEndsWithClauses | components/Editor.tsx:239-242 | once a clause is added, trimming only removes leading white space |
| FinalPrompt.PaintingExample | components/Editor.tsx:228-243 | a cinematic 4K painting prompt gets both clauses, in order |
| FinalPrompt.PaintingUntrimmed | components/Editor.tsx:228-241 | the untrimmed form of that example |
| FinalPrompt.PaintingTrimmed | components/Editor.tsx:242 | trimming leaves that example as it is |
| FinalPrompt.LowerCinematic | components/Editor.tsx:233 | `Cinematic` lower-cases to `cinematic` |
| TemplateList.Create | components/Editor.tsx:320-322 | the new template comes first, followed by the old list unchanged |
| TemplateList.CreateAllowsDuplicateIds | components/Editor.tsx:320-322 | creating a template whose id is already listed keeps both |
| TemplateList.Update | components/Editor.tsx:324-328 | same length; each template with the id is replaced and every other is kept in place |
| TemplateList.UpdateUnknownId | components/Editor.tsx:324-328 | updating with an id nobody has changes nothing |
| TemplateList.UpdateIdempotent | components/Editor.tsx:324-328 | updating twice with one template is updating once |
| TemplateList.Delete | components/Editor.tsx:331 | deletion never lengthens the list |
| TemplateList.DeleteMembers | components/Editor.tsx:331 | a template remains exactly when it was listed and its id differs |
| TemplateList.DeleteAppend | components/Editor.tsx:331 | deletion keeps order: deleting from a concatenation deletes from each part |
| TemplateList.DeleteUnknownId | components/Editor.tsx:331 | deleting an id nobody has changes nothing |
| TemplateList.DeleteIdempotent | components/Editor.tsx:331 | deleting twice is deleting once |
| GenerationHistory.HistoryKey | components/Editor.tsx:134 | the bucket key `gen_history_<name>_<size>`; `HistoryKeyInjective` states that it identifies the image by name and size |
| GenerationHistory.Load | components/Editor.tsx:132-151 | the history the loading effect shows for a key; `LoadEmptyCases`, `LoadAfterSave` and `LoadAfterEvict` state what it gives |
| GenerationHistory.Save | components/Editor.tsx:265 | `localStorage.setItem` of a history; `LoadAfterSave` and `SaveLeavesOtherKeys` state its effect |
| GenerationHistory.Evict | components/Editor.tsx:217-219 | `localStorage.removeItem` of the current key, when there is one; `LoadAfterEvict` states its effect |
| GenerationHistory.HistoryKeyInjective | components/Editor.tsx:134 | two images share a history bucket only when they have the same name and size |
| GenerationHistory.DigitsAfterLastUnderscore | components/Editor.tsx:134 | keys whose size suffixes differ in length differ |
| GenerationHistory.LoadEmptyCases | components/Editor.tsx:132-151 | without a key, with nothing stored or with an unparsable value the history is empty; a stored list loads as itself |
| GenerationHistory.LoadAfterSave | components/Editor.tsx:137-139 | a stored list loads back as that list |
| GenerationHistory.SaveLeavesOtherKeys | components/Editor.tsx:265 | storing one bucket leaves the others as they were |
| GenerationHistory.LoadAfterEvict | components/Editor.tsx:217-219 | after removal the bucket loads as empty and the others are untouched |
| GenerationHistory.Record | components/Editor.tsx:264 | the new entry first, then the older entries, at most ten in all |
| GenerationHistory.RecordAllKeepsMostRecent | components/Editor.tsx:262-267 | any run of recordings keeps the ten most recent entries, newest first |
| GenerationHistory.BoundedStore | components/Editor.tsx:262-267 | with every bucket capped, loading, saving a recorded history and removing keep the cap |
| GeminiService.Base64Payload | services/geminiService.ts:12-15 | the second `split(',')` segment of a data URL, or the format failure; `PayloadIsSecondSegment`, `PayloadOfDataUrl` and `PayloadRefused` state it |
| GeminiService.FileToPart | services/geminiService.ts:4-29 | `fileToGenerativePart`; `FileToPartOfDataUrl` states the part of a readable file |
| GeminiService.PayloadIsSecondSegment | services/geminiService.ts:12-18 | the payload is the text between the first comma and the next |
| GeminiService.PayloadOfDataUrl | services/geminiService.ts:12-18 | a data URL built from a type and a non-empty payload gives the payload back |
| GeminiService.PayloadRefused | services/geminiService.ts:12-15 | a text without a comma, or with nothing after its first comma, is refused with the format message |
| GeminiService.FileToPartOfDataUrl | services/geminiService.ts:4-29 | a readable file's part carries its payload and the file's own MIME type, or `application/octet-stream` when the file has none |
| GeminiService.RequestParts | services/geminiService.ts:40-55 | the parts of one request; `RequestPartsShape` states their order and the failure reported first |
| GeminiService.RequestPartsShape | services/geminiService.ts:40-55 | with a style image the parts are style, subject and text, otherwise subject and text; the style image's read failure is reported first |
| GeminiService.FirstImageIndex | services/geminiService.ts:73-79 | no image part comes before the index, and the part at the index is an image |
| GeminiService.FirstImageAt | services/geminiService.ts:73-79 | the first image part is the one with no image before it |
| GeminiService.Classify | services/geminiService.ts:67-82 | the outcome of one reply; `ClassifyFailures` and `ClassifySucceeds` state every case |
| GeminiService.ClassifyFailures | services/geminiService.ts:67-82 | a reply with no candidate, stopped for safety or without content fails with the safety message and the block reason or `Unknown`; content without an image part fails with the no-image message |
| GeminiService.ClassifySucceeds | services/geminiService.ts:67-82 | a reply succeeds exactly when its first candidate has content with an image and was not stopped for safety; the result is that image's data URL |
| GeminiService.SuccessesAppend | services/geminiService.ts:94-96 | keeping the fulfilled values distributes over concatenation |
| GeminiService.SuccessesCount | services/geminiService.ts:94-98 | there are no more values than settlements, and none exactly when every attempt was rejected |
| GeminiService.FirstReasonWhenAllFailed | services/geminiService.ts:99-104 | the first reason is the first attempt's message, or `Unknown error` when empty |
| GeminiService.Aggregate | services/geminiService.ts:91-108 | the join of the settled attempts; `AggregateOutcome` and `FirstReasonWhenAllFailed` state it |
| GeminiService.AggregateOutcome | services/geminiService.ts:91-108 | the join succeeds exactly when some attempt did, with the fulfilled values in start order; otherwise it fails with the first attempt's reason |
| GeminiService.OneFailureTwoImages | services/geminiService.ts:91-108 | one failure and two images give the two images, in order |
| GeminiService.EditResult | services/geminiService.ts:31-114 | `editImageWithTemplate` as a value; `EditOutcome` and `OnlySentRequestsMatter` state it, and the method `EditImageWithTemplate` is proved equal to it |
| GeminiService.EditOutcome | services/geminiService.ts:31-114 | with a key, exactly three attempts; success gives one to three images in start order; failure means all three failed and carries the first reason |
| GeminiService.OnlySentRequestsMatter | services/geminiService.ts:32-89 | the result depends on the model only through the requests actually sent, and without a key none is sent |
| GeminiService.GenerateSingleImage | services/geminiService.ts:38-83 | the pushed parts, the request and the scan for the first image part give exactly the attempt's outcome |
| GeminiService.EditImageWithTemplate | services/geminiService.ts:31-114 | the key guard, three attempts in order and the join give `EditResult`, with one to three images on success |
| GeminiService.GenerateTemplateIdea | services/geminiService.ts:117-152 | refused without a key, otherwise the model's template |
| GeminiService.GeneratePromptFromStyleImage | services/geminiService.ts:154-186 | refused without a key, and with the read failure when the image cannot be read |
| GeminiService.GenerateThumbnailForPrompt | services/geminiService.ts:188-212 | `generateThumbnailForPrompt`; `ThumbnailOutcome` states every outcome |
| GeminiService.ThumbnailOutcome | services/geminiService.ts:188-212 | success exactly with a key and at least one returned image, and the result is then `data:image/jpeg;base64,` followed by the first image's bytes, whose payload reads back as those bytes; a rejected call fails with its own message, an empty list with the thumbnail message |
| GeminiService.ApiKeyGuards | services/geminiService.ts:32-34 | every entry point refuses without a key, before any request |
| TemplateModal.DropRun | components/EditTemplateModal.tsx:52 | the rest after a run of other characters is a suffix that starts with a letter or digit |
| TemplateModal.ReplaceRuns | components/EditTemplateModal.tsx:52 | the replacement is empty exactly when the text is |
| TemplateModal.ReplaceRunsHead | components/EditTemplateModal.tsx:52 | the replacement starts with the first character when it is kept, with `_` otherwise |
| TemplateModal.ReplaceRunsChars | components/EditTemplateModal.tsx:52 | the replacement is made of `[a-z0-9_]` |
| TemplateModal.ReplaceRunsNoDouble | components/EditTemplateModal.tsx:52 | the replacement has no two `_` in a row |
| TemplateModal.ReplaceRunsShape | components/EditTemplateModal.tsx:52 | the three facts above together |
| TemplateModal.ReplaceRunsKeepsSlugChars | components/EditTemplateModal.tsx:52 | the replacement keeps every letter and digit, in order |
| TemplateModal.TrimKeepsSlugChars | components/EditTemplateModal.tsx:52 | trimming keeps every letter and digit |
| TemplateModal.Slug | components/EditTemplateModal.tsx:52 | the identifier derived from a name; `SlugShape`, `SlugIdempotent`, `SlugCollision` and the slug examples state it |
| TemplateModal.SlugShape | components/EditTemplateModal.tsx:52 | a derived identifier is well formed (`[a-z0-9_]`, no `__`, no trailing `_`) and keeps exactly the letters and digits of the lower-cased name |
| TemplateModal.ReplaceRunsOfWellFormed | components/EditTemplateModal.tsx:52 | a well-formed text is left as it is by the replacement |
| TemplateModal.WellFormedSlugFixed | components/EditTemplateModal.tsx:52 | a well-formed identifier is its own slug |
| TemplateModal.SlugIdempotent | components/EditTemplateModal.tsx:52 | deriving the identifier of an identifier changes nothing |
| TemplateModal.ReplaceRunsOneGap | components/EditTemplateModal.tsx:52 | one other character between two words becomes `_` |
| TemplateModal.TwoWordSlug | components/EditTemplateModal.tsx:52 | two words separated by one other character are joined by `_` |
| TemplateModal.NeonPunkSlug | components/EditTemplateModal.tsx:52 | `Neon Punk` becomes `neon_punk` |
| TemplateModal.HyphenatedSlug | components/EditTemplateModal.tsx:52 | `neon-punk` becomes `neon_punk` |
| TemplateModal.SlugCollision | components/EditTemplateModal.tsx:52 | two different names can give the same identifier |
| TemplateModal.SymbolsSlug | components/EditTemplateModal.tsx:52 | a name without letters, digits or white space gives the empty identifier |
| TemplateModal.SymbolsOnlySlug | components/EditTemplateModal.tsx:52 | `!!!` gives the empty identifier |
| TemplateModal.SavedId | components/EditTemplateModal.tsx:52 | `template?.id` or the slug of the trimmed name; `EditKeepsId` and `CreateIdIsSlug` state it |
| TemplateModal.ThumbnailFor | components/EditTemplateModal.tsx:53 | the current thumbnail or the placeholder for the id; `SaveThumbnail` states it |
| TemplateModal.SaveTemplate | components/EditTemplateModal.tsx:47-61 | `handleSave`; `SaveRefused`, `SaveFields`, `SaveThumbnail`, `EditKeepsId`, `CreateIdIsSlug` and `ReopenedSaveKeepsTemplate` state it |
| TemplateModal.SaveRefused | components/EditTemplateModal.tsx:47-51 | saving is refused, with the validation message, exactly when the name or the prompt is blank |
| TemplateModal.SaveFields | components/EditTemplateModal.tsx:55-59 | the saved name and prompt are the trimmed fields: non-empty, without white space at either end |
| TemplateModal.PlaceholderNonEmpty | components/EditTemplateModal.tsx:53 | the placeholder thumbnail is never empty |
| TemplateModal.SaveThumbnail | components/EditTemplateModal.tsx:53 | the current thumbnail is kept when set and non-empty, otherwise the placeholder for the saved id is used; it is never empty |
| TemplateModal.EditKeepsId | components/EditTemplateModal.tsx:52 | editing a template with an id keeps that id, whatever the new name |
| TemplateModal.CreateIdIsSlug | components/EditTemplateModal.tsx:52-53 | a new template's id is the well-formed slug of its name, with the placeholder for that slug when there is no thumbnail |
| TemplateModal.ReopenedSaveKeepsTemplate | components/EditTemplateModal.tsx:20-61 | opening a template and saving without edits gives it back with trimmed fields |
| TemplateModal.Modal.constructor | components/EditTemplateModal.tsx:13-15 | the fields start empty, with no thumbnail |
| TemplateModal.Modal.Open | components/EditTemplateModal.tsx:20-26 | opening fills the fields from the template, an absent value giving an empty field and an empty thumbnail none |
| TemplateModal.Modal.Close | components/EditTemplateModal.tsx:124 | closing only hides the dialog |
| TemplateModal.Modal.EditName | components/EditTemplateModal.tsx:76 | typing replaces the name |
| TemplateModal.Modal.EditPrompt | components/EditTemplateModal.tsx:89 | typing replaces the prompt |
| TemplateModal.Modal.GenerateThumbnail | components/EditTemplateModal.tsx:30-45 | a request is made exactly when the prompt is non-empty; a generated thumbnail replaces the current one and a failure leaves it |
| TemplateModal.Modal.Save | components/EditTemplateModal.tsx:47-61 | the result is `SaveTemplate` of the dialog's fields |
| EditorSession.ResetState | components/Editor.tsx:198-222 | `handleReset` on the state; `ResetReturnsToInitial` and `ResetAndUploadKeepCap` state it |
| EditorSession.UploadState | components/Editor.tsx:193-196 | `handleImageUpload` followed by the loading effect; `UploadLoadsHistory` and `ReuploadLosesHistory` state it |
| EditorSession.CropState | components/Editor.tsx:159-179 | the crop effect settling; `CropSettles` and `CropKeepsKey` state it |
| EditorSession.Run | components/Editor.tsx:245-255 | `runGeneration` up to the call; `GenerationGuard`, `RunKeepsImage` and `GenerationKeepsInvariants` state it |
| EditorSession.CompleteState | components/Editor.tsx:256-275 | the service's result applied; `CompletionOutcome`, `CompletionKeepsInvariants` and `StaleCompletionDesyncs` state it |
| EditorSession.SelectTemplateState | components/Editor.tsx:278-281 | `handleSelectTemplate`; `SelectTemplateMarksActive` states it |
| EditorSession.CustomPromptState | components/Editor.tsx:283-287 | `handleCustomPrompt`; `CustomPromptGuard` states it |
| EditorSession.RegenerateState | components/Editor.tsx:289-292 | `handleRegenerate`; `RegenerateRepeatsRequest` and `RegenerateNeedsPrompt` state it |
| EditorSession.DownloadOf | components/Editor.tsx:294-302 | `handleDownload`: nothing without a selection, otherwise the selection under `DownloadName`, which `DownloadNames` states |
| EditorSession.StartIdea | components/Editor.tsx:304-308 | `handleGenerateTemplate` up to the call; `IdeaExcludesGeneration` states it |
| EditorSession.IdeaDone | components/Editor.tsx:309-317 | the idea's result applied; `IdeaExcludesGeneration` and `IdeaKeepsInvariants` state it |
| EditorSession.DeleteState | components/Editor.tsx:330-340 | `handleDeleteTemplate`; `DeleteClearsActive` and `DeleteKeepsInvariants` state it |
| EditorSession.RevertState | components/Editor.tsx:342-348 | `handleRevertToHistory`; `RevertShowsOneImage` and `RevertKeepsInvariants` state it |
| EditorSession.SelectVariantState | components/Editor.tsx:399 | choosing a variant; `SelectVariantKeepsInvariants` states it |
| EditorSession.ResetReturnsToInitial | components/Editor.tsx:198-222 | a reset is a fresh editor over the same templates, without the current image's bucket; resetting twice is resetting once |
| EditorSession.UploadLoadsHistory | components/Editor.tsx:132-151 | after an upload the new image's stored history is shown, the previous bucket is gone and every other is kept |
| EditorSession.ReuploadLosesHistory | components/Editor.tsx:193-222 | uploading an image with the current one's name and size shows an empty history |
| EditorSession.CropSettles | components/Editor.tsx:153-183 | the processed image keeps the image's name and type, is the image itself after a failed crop, and nothing else changes |
| EditorSession.GenerationGuard | components/Editor.tsx:245-255 | a generation cannot start while loading or generating or without a processed image, and then nothing changes; otherwise the prompt and style are recorded, the outcome cleared and the final prompt built from the current options |
| EditorSession.CompletionOutcome | components/Editor.tsx:256-275 | success shows the variants with the first selected, records it as the newest of at most ten entries and stores that history under the key; failure sets only the error; loading ends either way |
| EditorSession.CompletionKeepsInvariants | components/Editor.tsx:256-275 | a completion keeps the invariants, keeps the history in step with the store when started for the current key, and keeps the cap |
| EditorSession.StaleCompletionDesyncs | components/Editor.tsx:262-268 | a completion whose key is no longer the current one leaves the shown history out of step with the store |
| EditorSession.StaleCompletionThenRevert | components/Editor.tsx:193-275 | upload, crop, start a generation, reset, and the generation completing leave the editor out of step with its store; reverting to the recorded image is still accepted there and shows it as the only variant |
| EditorSession.SelectTemplateMarksActive | components/Editor.tsx:278-281 | the template becomes active even when the generation cannot start |
| EditorSession.CustomPromptGuard | components/Editor.tsx:283-287 | a blank prompt does nothing; a request is made exactly when a generation can start and the prompt is not blank, under the custom style name |
| EditorSession.RegenerateRepeatsRequest | components/Editor.tsx:289-292 | after a generation completes, regenerating sends the same request again |
| EditorSession.RegenerateNeedsPrompt | components/Editor.tsx:289-292 | without a recorded prompt or style name, regenerating does nothing |
| EditorSession.DownloadNames | components/Editor.tsx:298 | different non-empty ids download under different names; an id `custom` or an empty id shares the custom-prompt name |
| EditorSession.IdeaExcludesGeneration | components/Editor.tsx:304-318 | right after an idea starts, no image generation and no second idea can start; a new idea is prepended (a reset while the idea is pending clears the flag, so this holds only until then) |
| EditorSession.DeleteClearsActive | components/Editor.tsx:330-340 | no template with the id remains; deleting the active one clears the outcome and the active style, so regenerating does nothing; otherwise only the list changes |
| EditorSession.RevertShowsOneImage | components/Editor.tsx:342-348 | the stored image becomes the only variant and the selection, under the history style name, with no request made |
| EditorSession.SelectVariantKeepsInvariants | components/Editor.tsx:399 | choosing a shown variant keeps the invariants |
| EditorSession.IdeaKeepsInvariants | components/Editor.tsx:304-318 | starting and finishing an idea keep the invariants |
| EditorSession.TemplateEditsKeepInvariants | components/Editor.tsx:320-328 | creating and updating templates keep the invariants |
| EditorSession.DeleteKeepsInvariants | components/Editor.tsx:330-340 | deleting a template keeps the invariants |
| EditorSession.RevertKeepsInvariants | components/Editor.tsx:342-348 | reverting keeps the invariants |
| EditorSession.RunKeepsImage | components/Editor.tsx:245-255 | starting a generation changes neither the image nor the key |
| EditorSession.GenerationKeepsKey | components/Editor.tsx:245-292 | the handlers that start a generation keep the key the current image's key |
| EditorSession.GenerationKeepsInvariants | components/Editor.tsx:245-292 | the handlers that start a generation keep the invariants |
| EditorSession.CompletionKeepsKey | components/Editor.tsx:256-275 | a completion keeps the key the current image's key |
| EditorSession.CropKeepsKey | components/Editor.tsx:153-183 | settling a crop keeps the key the current image's key |
| EditorSession.OtherHandlersKeepKey | components/Editor.tsx:304-348 | the template handlers, reverting and choosing a variant keep the key the current image's key |
| EditorSession.ResetAndUploadKeepCap | components/Editor.tsx:193-222 | resetting and uploading keep the history and every bucket within ten entries |
| EditorSession.Editor.constructor | components/Editor.tsx:105-125 | the editor starts in the initial state with the invariants holding |
| EditorSession.Editor.Reset | components/Editor.tsx:198-222 | the fields become `ResetState` of the old ones, and the invariants and `Synced` hold |
| EditorSession.Editor.Upload | components/Editor.tsx:193-196 | the fields become `UploadState` of the old ones, with the key the new image's key, and the invariants and `Synced` hold |
| EditorSession.Editor.CropSettled | components/Editor.tsx:159-179 | only the processed image changes, as `CropState` says; accepted in every state satisfying `ValidSession`, a desynced one included, and keeps `ValidSession` and, when it held, `Synced` |
| EditorSession.Editor.SetAspectRatio | components/Editor.tsx:427 | only the aspect ratio changes; accepted in every state satisfying `ValidSession`, a desynced one included, and keeps `ValidSession` and, when it held, `Synced` |
| EditorSession.Editor.SetResolution | components/Editor.tsx:425 | only the resolution changes; accepted in every state satisfying `ValidSession`, a desynced one included, and keeps `ValidSession` and, when it held, `Synced` |
| EditorSession.Editor.SetGenerationMode | components/Editor.tsx:429 | only the mode changes; accepted in every state satisfying `ValidSession`, a desynced one included, and keeps `ValidSession` and, when it held, `Synced` |
| EditorSession.Editor.SetStyleImage | components/Editor.tsx:451 | only the style image changes; accepted in every state satisfying `ValidSession`, a desynced one included, and keeps `ValidSession` and, when it held, `Synced` |
| EditorSession.Editor.ConstructFinalPrompt | components/Editor.tsx:228-243 | the pushed clauses, the join and the trim give `FinalPrompt.Build` of the current options |
| EditorSession.Editor.BeginGeneration | components/Editor.tsx:245-255 | the fields and the request are those of `Run`; accepted in every state satisfying `ValidSession`, a desynced one included, and keeps `ValidSession` and, when it held, `Synced` |
| EditorSession.Editor.AwaitGeneration | components/Editor.tsx:256-275 | the service's result for the request's final prompt is applied as `CompleteState`; the invariants hold, and the history stays in step when the key did not change |
| EditorSession.Editor.CompleteGeneration | components/Editor.tsx:258-274 | the fields become `CompleteState` of the old ones |
| EditorSession.Editor.SelectTemplate | components/Editor.tsx:278-281 | the fields and the request are those of `SelectTemplateState`; accepted in every state satisfying `ValidSession`, a desynced one included, and keeps `ValidSession` and, when it held, `Synced` |
| EditorSession.Editor.CustomPrompt | components/Editor.tsx:283-287 | the fields and the request are those of `CustomPromptState`; accepted in every state satisfying `ValidSession`, a desynced one included, and keeps `ValidSession` and, when it held, `Synced` |
| EditorSession.Editor.Regenerate | components/Editor.tsx:289-292 | the fields and the request are those of `RegenerateState`; accepted in every state satisfying `ValidSession`, a desynced one included, and keeps `ValidSession` and, when it held, `Synced` |
| EditorSession.Editor.DownloadSelected | components/Editor.tsx:294-302 | the result is `DownloadOf` the current state |
| EditorSession.Editor.SelectVariant | components/Editor.tsx:399 | only the selection changes; accepted in every state satisfying `ValidSession`, a desynced one included, and keeps `ValidSession` and, when it held, `Synced` |
| EditorSession.Editor.BeginTemplateIdea | components/Editor.tsx:304-308 | the fields and the answer are those of `StartIdea`; accepted in every state satisfying `ValidSession`, a desynced one included, and keeps `ValidSession` and, when it held, `Synced` |
| EditorSession.Editor.CompleteTemplateIdea | components/Editor.tsx:309-317 | the fields become `IdeaDone` of the service's result; accepted in every state satisfying `ValidSession`, a desynced one included, and keeps `ValidSession` and, when it held, `Synced` |
| EditorSession.Editor.CreateTemplate | components/Editor.tsx:320-322 | only the list changes, to `Create` of it; accepted in every state satisfying `ValidSession`, a desynced one included, and keeps `ValidSession` and, when it held, `Synced` |
| EditorSession.Editor.UpdateTemplate | components/Editor.tsx:324-328 | only the list changes, to `Update` of it; accepted in every state satisfying `ValidSession`, a desynced one included, and keeps `ValidSession` and, when it held, `Synced` |
| EditorSession.Editor.DeleteTemplate | components/Editor.tsx:330-340 | the fields become `DeleteState` of the old ones; accepted in every state satisfying `ValidSession`, a desynced one included, and keeps `ValidSession` and, when it held, `Synced` |
| EditorSession.Editor.RevertToHistory | components/Editor.tsx:342-348 | the fields become `RevertState` of the old ones; accepted in every state satisfying `ValidSession`, a desynced one included, and keeps `ValidSession` and, when it held, `Synced` |

## Left out

- Browser APIs are left out: `FileReader`, `Image`, canvas drawing, `canvas.toBlob`, object URLs and their revocation, and DOM links and clicks. A file is a value that says what reading it gives. A crop settles as a size and contents, or as a failure.
- Floating point is left out. The crop is computed over exact rationals, so canvas sizes are not truncated to integers. Images with a zero or `NaN` size, and ratio strings that do not parse, are not cropped.
- The crop effect's cancellation flag (`isCancelled`) is left out. It is not stored in state. A crop is modelled as settling for the current image.
- Concurrency and React's scheduling are left out. Each handler is one atomic step, and each effect is applied as the step that follows its trigger.
  - A generation is split into its start and its completion. `StaleCompletionDesyncs` shows what a completion does when it arrives after a new upload.
  - The final prompt is built from the options captured when the generation started, which is what the source's `constructFinalPrompt` reads at that point.
- `localStorage` is reduced to what loading distinguishes: a stored list, or a value that is empty or that `JSON.parse` rejects. A stored value that parses to something other than a list of strings is not modelled.
- `toLowerCase` is modelled for ASCII letters only, and leaves every other character as it is.
- The exact model names, the long instruction prompts of `generateTemplateIdea` and `generatePromptFromStyleImage`, the response schema and the JSON decoding of a template are left out. The model's reply is a parameter.
- `console` logging, `alert` calls, and the modal's `isGeneratingThumbnail` flag (only used to disable a button) are left out.
- The `instanceof Error` fallbacks (`An unknown error occurred.`, `Failed to generate a new idea.`) are not modelled. Every failure carries a message.
- `EditorSession.Editor.Valid`: the class invariant is `ValidSession` alone. `Synced` is a conditional postcondition of the handlers, because a stale completion breaks it (`StaleCompletionDesyncs`, `StaleCompletionThenRevert`). `KeyedByImage` is carried as a separate postcondition by the methods that set the image. The other handlers keep it by the lemmas `GenerationKeepsKey`, `CompletionKeepsKey`, `CropKeepsKey` and `OtherHandlersKeepKey`.
- Template ids are meant to be unique, but neither the template-list handlers (`components/Editor.tsx:320-328`) nor the dialog's id derivation (`components/EditTemplateModal.tsx:52`) enforces it. The model follows the code: `CreateAllowsDuplicateIds` keeps a duplicate, and `SlugCollision` shows two names giving one id.
- The gallery, the option widgets and the uploader components render only. Only the state changes they trigger are modelled.
- `TemplateList.Delete`: its contract states only the length bound. Membership and order are the lemmas `DeleteMembers` and `DeleteAppend`.
- `TemplateModal.ReplaceRuns`: its contract states only that an empty text gives an empty result. The shape of the result is in `ReplaceRunsShape` and the lemmas after it.
