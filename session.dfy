/** The editor's session: the state the editor keeps between events, what each handler does
    to it, and the properties those transitions keep. The state as a value (`Session`) and the
    transitions as functions on it state what the handlers of the `Editor` class do. */
module EditorSession {
  import opened Wrappers
  import opened JsStrings
  import opened TemplateList
  import opened GenerationHistory
  import FinalPrompt
  import GeminiService

  type ImageFile = GeminiService.ImageFile

  const CustomStyleName: string := "Custom Style"
  const HistoryStyleName: string := "From History"
  const DefaultAspectRatio: string := "1:1"

  /** Every state variable of the editor, the history bucket store included. The object URL
      of the processed image is not kept: it is derived from the processed file. */
  datatype Session = Session(
    originalImage: Option<ImageFile>,
    processedImage: Option<ImageFile>,
    imageVariants: Option<seq<string>>,
    selectedImage: Option<string>,
    isLoading: bool,
    error: Option<string>,
    activeTemplate: Option<Template>,
    activeStyleName: Option<string>,
    templates: seq<Template>,
    isGenerating: bool,
    lastPrompt: Option<string>,
    resolution: string,
    aspectRatio: string,
    generationMode: string,
    styleImage: Option<ImageFile>,
    history: seq<string>,
    historyKey: Option<string>,
    storage: Storage)

  /** The state the editor starts in, over the given templates and store. */
  function Initial(templates: seq<Template>, storage: Storage): Session {
    Session(None, None, None, None, false, None, None, None, templates, false, None,
            "", DefaultAspectRatio, FinalPrompt.DefaultMode, None, [], None, storage)
  }

  /** The bucket key of an image. */
  function KeyOf(file: ImageFile): string {
    HistoryKey(file.name, file.size)
  }

  /** What the state variables always satisfy: a key exactly when there is an image; a
      processed image only for an image, with its name; one to three variants; a selection
      among the variants. */
  predicate ValidSession(s: Session) {
    && (s.historyKey.Some? <==> s.originalImage.Some?)
    && (s.processedImage.Some? ==> s.originalImage.Some? && s.processedImage.value.name == s.originalImage.value.name)
    && (s.imageVariants.Some? ==> 1 <= |s.imageVariants.value| <= GeminiService.Attempts)
    && (s.selectedImage.Some? ==> s.imageVariants.Some? && s.selectedImage.value in s.imageVariants.value)
  }

  /** The key is the current image's key. */
  predicate KeyedByImage(s: Session) {
    s.originalImage.Some? ==> s.historyKey == Some(KeyOf(s.originalImage.value))
  }

  /** The shown history and every stored bucket are within the cap. */
  ghost predicate WithinCap(s: Session) {
    |s.history| <= MaxEntries && Bounded(s.storage)
  }

  /** The shown history is the one stored under the current key. */
  predicate Synced(s: Session) {
    s.history == Load(s.storage, s.historyKey)
  }

  // ---------------------------------------------------------------------------------------
  // Reset and upload

  /** `handleReset`: every variable back to its initial value except the templates, and the
      current image's bucket removed from the store. */
  function ResetState(s: Session): Session {
    s.(originalImage := None, processedImage := None, imageVariants := None, selectedImage := None,
       error := None, activeTemplate := None, activeStyleName := None, lastPrompt := None,
       isLoading := false, isGenerating := false, resolution := "", aspectRatio := DefaultAspectRatio,
       generationMode := FinalPrompt.DefaultMode, styleImage := None,
       storage := Evict(s.storage, s.historyKey), history := [], historyKey := None)
  }

  /** A reset is a fresh editor over the same templates and the store without the current
      image's bucket; a second reset changes nothing. */
  lemma ResetReturnsToInitial(s: Session)
    ensures ResetState(s) == Initial(s.templates, Evict(s.storage, s.historyKey))
    ensures s.historyKey.Some? ==> s.historyKey.value !in ResetState(s).storage
    ensures ResetState(ResetState(s)) == ResetState(s)
    ensures ValidSession(ResetState(s)) && KeyedByImage(ResetState(s)) && Synced(ResetState(s))
  {
  }

  /** `handleImageUpload` and the loading effect it triggers: a reset, the new image, its key,
      and the history stored under that key in the store the reset left. */
  function UploadState(s: Session, file: ImageFile): Session {
    var r := ResetState(s);
    r.(originalImage := Some(file), historyKey := Some(KeyOf(file)), history := Load(r.storage, Some(KeyOf(file))))
  }

  /** After an upload the editor shows the new image's stored history, the previous image's
      bucket is gone, and every other bucket is kept. */
  lemma UploadLoadsHistory(s: Session, file: ImageFile, other: string)
    ensures var u := UploadState(s, file);
      && u.originalImage == Some(file) && u.processedImage.None? && u.imageVariants.None?
      && u.historyKey == Some(KeyOf(file))
      && (s.historyKey != Some(KeyOf(file)) ==> u.history == Load(s.storage, Some(KeyOf(file))))
      && (s.historyKey.Some? ==> Load(u.storage, s.historyKey) == [])
      && (Some(other) != s.historyKey ==> Load(u.storage, Some(other)) == Load(s.storage, Some(other)))
      && ValidSession(u) && KeyedByImage(u) && Synced(u)
  {
  }

  /** Uploading an image with the same name and size as the current one loses its history: the
      reset removes the very bucket the upload then loads. */
  lemma ReuploadLosesHistory(s: Session, file: ImageFile)
    requires KeyedByImage(s) && s.originalImage.Some?
    requires file.name == s.originalImage.value.name && file.size == s.originalImage.value.size
    ensures UploadState(s, file).history == []
  {
  }

  /** How the crop effect settles: with a cropped file of the given size and contents, or with
      a failure, in which case the original image is used as it is. */
  datatype CropOutcome = Cropped(size: nat, read: GeminiService.FileRead) | CropFailed

  /** The crop effect settling for the current image: the cropped file keeps the image's name
      and type. */
  function CropState(s: Session, outcome: CropOutcome): Session
    requires s.originalImage.Some?
  {
    var original := s.originalImage.value;
    match outcome
    case Cropped(size, read) =>
      s.(processedImage := Some(GeminiService.ImageFile(original.name, size, original.mimeType, read)))
    case CropFailed => s.(processedImage := s.originalImage)
  }

  /** Settling the crop gives a processed image derived from the current one, and changes
      nothing else. */
  lemma CropSettles(s: Session, outcome: CropOutcome)
    requires ValidSession(s) && s.originalImage.Some?
    ensures var c := CropState(s, outcome);
      && c.processedImage.Some?
      && c.processedImage.value.name == s.originalImage.value.name
      && c.processedImage.value.mimeType == s.originalImage.value.mimeType
      && (outcome.CropFailed? ==> c.processedImage == s.originalImage)
      && c == s.(processedImage := c.processedImage)
      && ValidSession(c)
  {
  }

  // ---------------------------------------------------------------------------------------
  // Generation

  /** What a started generation captures: the processed image, the prompt and the options the
      final prompt is built from, the style image, and the key the result is recorded under. */
  datatype GenerationRequest = GenerationRequest(image: ImageFile, prompt: string, mode: string, resolution: string,
                                                 styleImage: Option<ImageFile>, historyKey: Option<string>)

  /** The final prompt a request sends: built from the options as they were when the
      generation started. */
  function SentPrompt(req: GenerationRequest): string {
    FinalPrompt.Build(req.prompt, req.mode, req.resolution)
  }

  /** `runGeneration` starts only when nothing is loading or being generated and there is a
      processed image. */
  predicate CanGenerate(s: Session) {
    !s.isLoading && !s.isGenerating && s.processedImage.Some?
  }

  /** `runGeneration` up to the call: the guard, then the prompt and style name recorded and
      the previous outcome cleared. */
  function Run(s: Session, prompt: string, styleName: string): (Session, Option<GenerationRequest>) {
    if !CanGenerate(s) then (s, None)
    else
      (s.(lastPrompt := Some(prompt), activeStyleName := Some(styleName), isLoading := true,
          error := None, imageVariants := None, selectedImage := None),
       Some(GenerationRequest(s.processedImage.value, prompt, s.generationMode, s.resolution,
                              s.styleImage, s.historyKey)))
  }

  /** A generation that cannot start changes nothing; one that starts records the prompt and
      style name, clears error, variants and selection, sets the loading flag, and sends the
      final prompt built from the current options. */
  lemma GenerationGuard(s: Session, prompt: string, styleName: string)
    ensures var (t, req) := Run(s, prompt, styleName);
      && (!CanGenerate(s) <==> req.None?)
      && (req.None? ==> t == s)
      && (req.Some? ==>
            && t.lastPrompt == Some(prompt) && t.activeStyleName == Some(styleName)
            && t.isLoading && t.error.None? && t.imageVariants.None? && t.selectedImage.None?
            && req.value.image == s.processedImage.value
            && SentPrompt(req.value) == FinalPrompt.Build(prompt, s.generationMode, s.resolution)
            && req.value.styleImage == s.styleImage && req.value.historyKey == s.historyKey
            && t.history == s.history && t.storage == s.storage && t.templates == s.templates)
      && (ValidSession(s) ==> ValidSession(t))
      && (ValidSession(s) && req.Some? ==> req.value.historyKey.Some?)
  {
  }

  /** The service's result applied: on success the variants and the first one selected, and,
      when the generation started with a key, the first result recorded into the current
      history and stored under that key; on failure the message; loading over either way. */
  function CompleteState(s: Session, req: GenerationRequest, result: Result<seq<string>>): Session
    requires result.Ok? ==> 1 <= |result.value| <= GeminiService.Attempts
  {
    match result
    case Ok(results) =>
      var recorded := if req.historyKey.Some? then Record(s.history, results[0]) else s.history;
      s.(imageVariants := Some(results), selectedImage := Some(results[0]), isLoading := false,
         history := recorded,
         storage := if req.historyKey.Some? then Save(s.storage, req.historyKey.value, recorded) else s.storage)
    case Err(message) => s.(error := Some(message), isLoading := false)
  }

  /** On success the first result is the newest history entry and the selection, the history
      stays within ten and is what the store now holds under the key; on failure only the error
      and the loading flag change. */
  lemma CompletionOutcome(s: Session, req: GenerationRequest, result: Result<seq<string>>)
    requires result.Ok? ==> 1 <= |result.value| <= GeminiService.Attempts
    ensures var c := CompleteState(s, req, result);
      && !c.isLoading
      && (result.Ok? ==>
            && c.imageVariants == Some(result.value) && c.selectedImage == Some(result.value[0])
            && c.error == s.error
            && (req.historyKey.Some? ==>
                  && c.history == Record(s.history, result.value[0])
                  && |c.history| <= MaxEntries && c.history[0] == result.value[0]
                  && c.history[1..] == s.history[..|c.history| - 1]
                  && Load(c.storage, req.historyKey) == c.history)
            && (req.historyKey.None? ==> c.history == s.history && c.storage == s.storage))
      && (result.Err? ==> c == s.(error := Some(result.message), isLoading := false))
  {
    if result.Ok? && req.historyKey.Some? {
      LoadAfterSave(s.storage, req.historyKey.value, Record(s.history, result.value[0]));
    }
  }

  /** A completion keeps the invariants, keeps the shown history in step with the store when
      the generation was started for the current image, and keeps the history within the cap. */
  lemma CompletionKeepsInvariants(s: Session, req: GenerationRequest, result: Result<seq<string>>)
    requires result.Ok? ==> 1 <= |result.value| <= GeminiService.Attempts
    ensures ValidSession(s) ==> ValidSession(CompleteState(s, req, result))
    ensures Synced(s) && req.historyKey == s.historyKey ==> Synced(CompleteState(s, req, result))
    ensures WithinCap(s) ==> WithinCap(CompleteState(s, req, result))
  {
    if result.Ok? && req.historyKey.Some? {
      var h := Record(s.history, result.value[0]);
      LoadAfterSave(s.storage, req.historyKey.value, h);
      if WithinCap(s) {
        BoundedStore(s.storage, req.historyKey, s.history, result.value[0]);
      }
    }
  }

  /** A generation completing after another image was uploaded records into the new image's
      history but stores it under the old image's key, so the two disagree. */
  lemma StaleCompletionDesyncs(s: Session, req: GenerationRequest, result: string)
    requires req.historyKey.Some? && req.historyKey != s.historyKey && Synced(s)
    requires s.historyKey.Some? ==> !(s.historyKey.value in s.storage && s.storage[s.historyKey.value] == Entries([result] + s.history))
    requires |s.history| < MaxEntries
    ensures !Synced(CompleteState(s, req, Ok([result])))
  {
    var c := CompleteState(s, req, Ok([result]));
    var h := Record(s.history, result);
    assert h == [result] + s.history;
    if s.historyKey.Some? {
      SaveLeavesOtherKeys(s.storage, req.historyKey.value, h, s.historyKey.value);
      assert Load(c.storage, s.historyKey) == Load(s.storage, s.historyKey);
    }
    assert |c.history| == |s.history| + 1;
  }

  /** `handleSelectTemplate`: the template becomes the active one whether or not the
      generation starts. */
  function SelectTemplateState(s: Session, t: Template): (Session, Option<GenerationRequest>) {
    Run(s.(activeTemplate := Some(t)), t.prompt, t.name)
  }

  lemma SelectTemplateMarksActive(s: Session, t: Template)
    ensures SelectTemplateState(s, t).0.activeTemplate == Some(t)
    ensures SelectTemplateState(s, t).1.Some? <==> CanGenerate(s)
    ensures CanGenerate(s) ==> SelectTemplateState(s, t).0.lastPrompt == Some(t.prompt)
                               && SelectTemplateState(s, t).0.activeStyleName == Some(t.name)
  {
  }

  /** `handleCustomPrompt`: nothing while loading or generating or for a blank prompt;
      otherwise no active template and a generation under the custom style name. */
  function CustomPromptState(s: Session, prompt: string): (Session, Option<GenerationRequest>) {
    if s.isLoading || s.isGenerating || Trim(prompt) == "" then (s, None)
    else Run(s.(activeTemplate := None), prompt, CustomStyleName)
  }

  lemma CustomPromptGuard(s: Session, prompt: string)
    ensures IsBlank(prompt) ==> CustomPromptState(s, prompt) == (s, None)
    ensures CustomPromptState(s, prompt).1.Some? <==> CanGenerate(s) && !IsBlank(prompt)
    ensures !s.isLoading && !s.isGenerating && !IsBlank(prompt) ==>
      CustomPromptState(s, prompt).0.activeTemplate.None?
    ensures CustomPromptState(s, prompt).1.Some? ==>
      CustomPromptState(s, prompt).0.activeStyleName == Some(CustomStyleName)
  {
    TrimBlank(prompt);
  }

  /** `handleRegenerate`: nothing unless a non-empty prompt and style name were recorded;
      otherwise the generation runs again with them. */
  function RegenerateState(s: Session): (Session, Option<GenerationRequest>) {
    if s.lastPrompt.None? || s.lastPrompt.value == "" || s.activeStyleName.None? || s.activeStyleName.value == ""
    then (s, None)
    else Run(s, s.lastPrompt.value, s.activeStyleName.value)
  }

  /** After a generation has completed, regenerating sends the same request again: the
      completion keeps the recorded prompt, style name, options, image and key. */
  lemma RegenerateRepeatsRequest(s: Session, prompt: string, styleName: string, result: Result<seq<string>>)
    requires CanGenerate(s) && prompt != "" && styleName != ""
    requires result.Ok? ==> 1 <= |result.value| <= GeminiService.Attempts
    ensures var (started, req) := Run(s, prompt, styleName);
      var done := CompleteState(started, req.value, result);
      RegenerateState(done).1 == req
  {
    var (started, req) := Run(s, prompt, styleName);
    var done := CompleteState(started, req.value, result);
    assert done.lastPrompt == Some(prompt) && done.activeStyleName == Some(styleName);
    assert CanGenerate(done);
    assert done.processedImage == s.processedImage && done.styleImage == s.styleImage;
    assert done.historyKey == s.historyKey;
  }

  /** Without a recorded prompt, regenerating does nothing. */
  lemma RegenerateNeedsPrompt(s: Session)
    requires s.lastPrompt.None? || s.activeStyleName.None?
    ensures RegenerateState(s) == (s, None)
  {
  }

  /** The downloaded file of a selected image. */
  datatype Download = Download(href: string, fileName: string)

  /** `stylized-<id>.png`, with `custom` for no active template or one without an id. */
  function DownloadName(active: Option<Template>): string {
    "stylized-" + (if active.Some? && active.value.id != "" then active.value.id else "custom") + ".png"
  }

  /** `handleDownload`: nothing without a selected image. */
  function DownloadOf(s: Session): Option<Download> {
    if s.selectedImage.None? || s.selectedImage.value == "" then None
    else Some(Download(s.selectedImage.value, DownloadName(s.activeTemplate)))
  }

  /** Templates with different non-empty ids download under different names, but a template
      whose id is `custom` shares the name of a custom-prompt image. */
  lemma DownloadNames(a: Template, b: Template)
    ensures a.id != "" && b.id != "" && a.id != b.id ==> DownloadName(Some(a)) != DownloadName(Some(b))
    ensures a.id == "custom" ==> DownloadName(Some(a)) == DownloadName(None)
    ensures a.id == "" ==> DownloadName(Some(a)) == DownloadName(None)
  {
    if a.id != "" && b.id != "" && DownloadName(Some(a)) == DownloadName(Some(b)) {
      var p, q := "stylized-" + a.id + ".png", "stylized-" + b.id + ".png";
      assert p[9..|p| - 4] == a.id;
      assert q[9..|q| - 4] == b.id;
    }
  }

  // ---------------------------------------------------------------------------------------
  // Template ideas and the template list

  /** `handleGenerateTemplate` up to the call: refused while generating or loading. */
  function StartIdea(s: Session): (Session, bool) {
    if s.isGenerating || s.isLoading then (s, false) else (s.(isGenerating := true, error := None), true)
  }

  /** The generated idea prepended to the list, or the failure's message; generating over. */
  function IdeaDone(s: Session, result: Result<Template>): Session {
    match result
    case Ok(t) => s.(templates := Create(s.templates, t), isGenerating := false)
    case Err(message) => s.(error := Some(message), isGenerating := false)
  }

  /** Right after an idea starts no image generation and no second idea can start, and the
      idea, once generated, is the first template. A reset while the idea is pending clears the
      flag, so this holds only until the next reset. */
  lemma IdeaExcludesGeneration(s: Session, prompt: string, styleName: string, result: Result<Template>)
    requires StartIdea(s).1
    ensures !CanGenerate(StartIdea(s).0)
    ensures Run(StartIdea(s).0, prompt, styleName).1.None?
    ensures !StartIdea(StartIdea(s).0).1
    ensures result.Ok? ==> IdeaDone(StartIdea(s).0, result).templates == [result.value] + s.templates
    ensures result.Err? ==> IdeaDone(StartIdea(s).0, result).templates == s.templates
  {
  }

  /** `handleDeleteTemplate`: the template list without the id, and, when the active template
      has that id, the generation outcome and the active style cleared. */
  function DeleteState(s: Session, id: string): Session {
    var s1 := s.(templates := Delete(s.templates, id));
    if s.activeTemplate.Some? && s.activeTemplate.value.id == id then
      s1.(imageVariants := None, selectedImage := None, error := None, activeTemplate := None,
          activeStyleName := None, lastPrompt := None)
    else s1
  }

  lemma DeleteClearsActive(s: Session, id: string)
    ensures var d := DeleteState(s, id);
      && (forall t :: t in d.templates ==> t.id != id)
      && (s.activeTemplate.Some? && s.activeTemplate.value.id == id ==>
            d.activeTemplate.None? && d.imageVariants.None? && d.selectedImage.None?
            && d.error.None? && d.activeStyleName.None? && d.lastPrompt.None?
            && RegenerateState(d) == (d, None))
      && (!(s.activeTemplate.Some? && s.activeTemplate.value.id == id) ==> d == s.(templates := d.templates))
      && d.history == s.history && d.storage == s.storage
      && (ValidSession(s) ==> ValidSession(d))
  {
    DeleteMembers(s.templates, id);
  }

  /** `handleRevertToHistory`: the stored image as the only variant, selected, under the
      history style name; no request is made. */
  function RevertState(s: Session, url: string): Session {
    s.(selectedImage := Some(url), imageVariants := Some([url]), error := None, activeStyleName := Some(HistoryStyleName))
  }

  /** Reverting shows exactly that image, and, when a prompt was recorded, regenerating after
      it runs that prompt again under the history style name. */
  lemma RevertShowsOneImage(s: Session, url: string)
    ensures var r := RevertState(s, url);
      && r.imageVariants == Some([url]) && r.selectedImage == Some(url) && r.error.None?
      && r.history == s.history && r.storage == s.storage && r.isLoading == s.isLoading
      && (ValidSession(s) ==> ValidSession(r))
      && (s.lastPrompt.Some? && s.lastPrompt.value != "" ==>
            RegenerateState(r) == Run(r, s.lastPrompt.value, HistoryStyleName))
  {
  }

  /** Choosing one of the shown variants. */
  function SelectVariantState(s: Session, url: string): Session {
    s.(selectedImage := Some(url))
  }

  /** Choosing a shown variant keeps the invariants, and the link to the store when there was
      one. */
  lemma SelectVariantKeepsInvariants(s: Session, url: string)
    requires ValidSession(s) && s.imageVariants.Some? && url in s.imageVariants.value
    ensures ValidSession(SelectVariantState(s, url))
    ensures Synced(s) ==> Synced(SelectVariantState(s, url))
    ensures SelectVariantState(s, url).selectedImage == Some(url)
  {
  }

  /** Starting and finishing a template idea keep the invariants, and the link to the store
      when there was one. */
  lemma IdeaKeepsInvariants(s: Session, idea: Result<Template>)
    requires ValidSession(s)
    ensures ValidSession(StartIdea(s).0) && (Synced(s) ==> Synced(StartIdea(s).0))
    ensures ValidSession(IdeaDone(s, idea)) && (Synced(s) ==> Synced(IdeaDone(s, idea)))
  {
  }

  /** Creating and updating templates keep the invariants, and the link to the store when
      there was one. */
  lemma TemplateEditsKeepInvariants(s: Session, t: Template)
    requires ValidSession(s)
    ensures ValidSession(s.(templates := Create(s.templates, t)))
    ensures ValidSession(s.(templates := Update(s.templates, t)))
    ensures Synced(s) ==> Synced(s.(templates := Create(s.templates, t))) && Synced(s.(templates := Update(s.templates, t)))
  {
  }

  /** Deleting a template keeps the session's invariants, and the link to the store when there
      was one. */
  lemma DeleteKeepsInvariants(s: Session, id: string)
    requires ValidSession(s)
    ensures ValidSession(DeleteState(s, id))
    ensures Synced(s) ==> Synced(DeleteState(s, id))
  {
  }

  /** Reverting keeps the session's invariants, and the link to the store when there was one. */
  lemma RevertKeepsInvariants(s: Session, url: string)
    requires ValidSession(s)
    ensures ValidSession(RevertState(s, url))
    ensures Synced(s) ==> Synced(RevertState(s, url))
  {
  }

  /** Neither the image nor the key changes in the handlers that start a generation, so the
      key stays the image's key. */
  lemma GenerationKeepsKey(s: Session, prompt: string, styleName: string, t: Template)
    requires KeyedByImage(s)
    ensures KeyedByImage(Run(s, prompt, styleName).0)
    ensures KeyedByImage(SelectTemplateState(s, t).0)
    ensures KeyedByImage(CustomPromptState(s, prompt).0)
    ensures KeyedByImage(RegenerateState(s).0)
  {
    RunKeepsImage(s, prompt, styleName);
    RunKeepsImage(s.(activeTemplate := Some(t)), t.prompt, t.name);
    RunKeepsImage(s.(activeTemplate := None), prompt, CustomStyleName);
    if s.lastPrompt.Some? && s.activeStyleName.Some? {
      RunKeepsImage(s, s.lastPrompt.value, s.activeStyleName.value);
    }
  }

  /** Starting a generation changes neither the image nor the key. */
  lemma RunKeepsImage(s: Session, prompt: string, styleName: string)
    ensures Run(s, prompt, styleName).0.originalImage == s.originalImage
    ensures Run(s, prompt, styleName).0.historyKey == s.historyKey
  {
  }

  /** Starting a generation keeps the session's invariants, and its history in step with the
      store when it was. */
  lemma GenerationKeepsInvariants(s: Session, prompt: string, styleName: string, t: Template)
    requires ValidSession(s)
    ensures ValidSession(Run(s, prompt, styleName).0) && (Synced(s) ==> Synced(Run(s, prompt, styleName).0))
    ensures ValidSession(SelectTemplateState(s, t).0) && (Synced(s) ==> Synced(SelectTemplateState(s, t).0))
    ensures ValidSession(CustomPromptState(s, prompt).0) && (Synced(s) ==> Synced(CustomPromptState(s, prompt).0))
    ensures ValidSession(RegenerateState(s).0) && (Synced(s) ==> Synced(RegenerateState(s).0))
  {
  }

  /** Completing a generation keeps the key the image's key. */
  lemma CompletionKeepsKey(s: Session, req: GenerationRequest, result: Result<seq<string>>)
    requires KeyedByImage(s)
    requires result.Ok? ==> 1 <= |result.value| <= GeminiService.Attempts
    ensures KeyedByImage(CompleteState(s, req, result))
  {
  }

  /** Settling a crop keeps the key the image's key. */
  lemma CropKeepsKey(s: Session, outcome: CropOutcome)
    requires KeyedByImage(s) && s.originalImage.Some?
    ensures KeyedByImage(CropState(s, outcome))
  {
  }

  /** Neither the image nor the key changes in the other handlers either. */
  lemma OtherHandlersKeepKey(s: Session, url: string, t: Template, id: string, idea: Result<Template>)
    requires KeyedByImage(s)
    ensures KeyedByImage(StartIdea(s).0) && KeyedByImage(IdeaDone(s, idea))
    ensures KeyedByImage(s.(templates := Create(s.templates, t)))
    ensures KeyedByImage(s.(templates := Update(s.templates, t)))
    ensures KeyedByImage(DeleteState(s, id)) && KeyedByImage(RevertState(s, url))
    ensures KeyedByImage(SelectVariantState(s, url))
  {
  }

  /** Resets and uploads keep every bucket within the cap. */
  lemma ResetAndUploadKeepCap(s: Session, file: ImageFile)
    requires Bounded(s.storage)
    ensures WithinCap(ResetState(s))
    ensures WithinCap(UploadState(s, file))
  {
    BoundedStore(s.storage, s.historyKey, [], "");
    BoundedStore(Evict(s.storage, s.historyKey), Some(KeyOf(file)), [], "");
  }

  /** The editor component: its state variables as fields, its handlers as methods. */
  class Editor {
    var originalImage: Option<ImageFile>
    var processedImage: Option<ImageFile>
    var imageVariants: Option<seq<string>>
    var selectedImage: Option<string>
    var isLoading: bool
    var error: Option<string>
    var activeTemplate: Option<Template>
    var activeStyleName: Option<string>
    var templates: seq<Template>
    var isGenerating: bool
    var lastPrompt: Option<string>
    var resolution: string
    var aspectRatio: string
    var generationMode: string
    var styleImage: Option<ImageFile>
    var history: seq<string>
    var historyKey: Option<string>
    /** The browser's store of history buckets. */
    var storage: Storage

    /** The state variables as one value. */
    function Snap(): Session
      reads this
    {
      Session(originalImage, processedImage, imageVariants, selectedImage, isLoading, error,
              activeTemplate, activeStyleName, templates, isGenerating, lastPrompt, resolution,
              aspectRatio, generationMode, styleImage, history, historyKey, storage)
    }

    /** The class invariant. `Synced` is not part of it: a generation that completes after a
        reset or a new upload stores its result under the old key, and the editor goes on from
        there. The handlers keep `Synced` when it held before. */
    ghost predicate Valid()
      reads this
    {
      ValidSession(Snap())
    }

    constructor (initialTemplates: seq<Template>, initialStorage: Storage)
      ensures Snap() == Initial(initialTemplates, initialStorage)
      ensures Valid() && Synced(Snap()) && KeyedByImage(Snap())
    {
      originalImage := None;
      processedImage := None;
      imageVariants := None;
      selectedImage := None;
      isLoading := false;
      error := None;
      activeTemplate := None;
      activeStyleName := None;
      templates := initialTemplates;
      isGenerating := false;
      lastPrompt := None;
      resolution := "";
      aspectRatio := DefaultAspectRatio;
      generationMode := FinalPrompt.DefaultMode;
      styleImage := None;
      history := [];
      historyKey := None;
      storage := initialStorage;
    }

    /** The generation outcome and the flags back to their initial values. */
    method ClearOutcome()
      modifies this`imageVariants, this`selectedImage, this`error, this`activeTemplate,
               this`activeStyleName, this`lastPrompt, this`isLoading, this`isGenerating
      ensures imageVariants.None? && selectedImage.None? && error.None? && activeTemplate.None?
      ensures activeStyleName.None? && lastPrompt.None? && !isLoading && !isGenerating
    {
      imageVariants := None;
      selectedImage := None;
      error := None;
      activeTemplate := None;
      activeStyleName := None;
      lastPrompt := None;
      isLoading := false;
      isGenerating := false;
    }

    /** The generation options back to their initial values. */
    method ClearOptions()
      modifies this`resolution, this`aspectRatio, this`generationMode, this`styleImage
      ensures resolution == "" && aspectRatio == DefaultAspectRatio
      ensures generationMode == FinalPrompt.DefaultMode && styleImage.None?
    {
      resolution := "";
      aspectRatio := DefaultAspectRatio;
      generationMode := FinalPrompt.DefaultMode;
      styleImage := None;
    }

    /** No image, and the current image's bucket removed from the store. */
    method ForgetImage()
      modifies this`originalImage, this`processedImage, this`storage, this`history, this`historyKey
      ensures originalImage.None? && processedImage.None? && history == [] && historyKey.None?
      ensures storage == Evict(old(storage), old(historyKey))
    {
      originalImage := None;
      processedImage := None;
      if historyKey.Some? {
        storage := storage - {historyKey.value};
      }
      history := [];
      historyKey := None;
    }

    method Reset()
      modifies this
      ensures Snap() == ResetState(old(Snap()))
      ensures Valid() && Synced(Snap())
    {
      ClearOutcome();
      ClearOptions();
      ForgetImage();
    }

    /** The upload handler, and the loading effect that the new image triggers. */
    method Upload(file: ImageFile)
      modifies this
      ensures Snap() == UploadState(old(Snap()), file)
      ensures Valid() && Synced(Snap()) && KeyedByImage(Snap())
    {
      Reset();
      originalImage := Some(file);
      var key := KeyOf(file);
      historyKey := Some(key);
      if key in storage && storage[key].Entries? {
        history := storage[key].list;
      } else {
        history := [];
      }
    }

    /** The crop effect settling for the current image. */
    method CropSettled(outcome: CropOutcome)
      requires Valid() && originalImage.Some?
      modifies this`processedImage
      ensures Snap() == CropState(old(Snap()), outcome)
      ensures Valid()
      ensures old(Synced(Snap())) ==> Synced(Snap())
    {
      match outcome
      case Cropped(size, read) =>
        processedImage := Some(GeminiService.ImageFile(originalImage.value.name, size, originalImage.value.mimeType, read));
      case CropFailed =>
        processedImage := originalImage;
    }

    method SetAspectRatio(ratio: string)
      requires Valid()
      modifies this`aspectRatio
      ensures Snap() == old(Snap()).(aspectRatio := ratio)
      ensures Valid()
      ensures old(Synced(Snap())) ==> Synced(Snap())
    {
      aspectRatio := ratio;
    }

    method SetResolution(value: string)
      requires Valid()
      modifies this`resolution
      ensures Snap() == old(Snap()).(resolution := value)
      ensures Valid()
      ensures old(Synced(Snap())) ==> Synced(Snap())
    {
      resolution := value;
    }

    method SetGenerationMode(mode: string)
      requires Valid()
      modifies this`generationMode
      ensures Snap() == old(Snap()).(generationMode := mode)
      ensures Valid()
      ensures old(Synced(Snap())) ==> Synced(Snap())
    {
      generationMode := mode;
    }

    method SetStyleImage(file: Option<ImageFile>)
      requires Valid()
      modifies this`styleImage
      ensures Snap() == old(Snap()).(styleImage := file)
      ensures Valid()
      ensures old(Synced(Snap())) ==> Synced(Snap())
    {
      styleImage := file;
    }

    /** `constructFinalPrompt`: the clauses pushed in order, joined, appended, and the whole
        trimmed. */
    method ConstructFinalPrompt(basePrompt: string) returns (finalPrompt: string)
      ensures finalPrompt == FinalPrompt.Build(basePrompt, generationMode, resolution)
    {
      finalPrompt := basePrompt;
      var additions: seq<string> := [];
      if generationMode != "" && generationMode != FinalPrompt.DefaultMode {
        additions := additions + ["a " + ToLower(generationMode) + " style"];
      }
      if resolution != "" {
        additions := additions + ["in " + resolution + " resolution"];
      }
      assert additions == FinalPrompt.Additions(generationMode, resolution);
      if |additions| > 0 {
        finalPrompt := finalPrompt + ", " + Join(additions, ", ");
      }
      finalPrompt := Trim(finalPrompt);
    }

    /** The prompt and style name recorded, the loading flag set and the previous outcome
        cleared. */
    method ShowStarted(prompt: string, styleName: string)
      modifies this`lastPrompt, this`activeStyleName, this`isLoading, this`error, this`imageVariants, this`selectedImage
      ensures lastPrompt == Some(prompt) && activeStyleName == Some(styleName) && isLoading
      ensures error.None? && imageVariants.None? && selectedImage.None?
    {
      lastPrompt := Some(prompt);
      activeStyleName := Some(styleName);
      isLoading := true;
      error := None;
      imageVariants := None;
      selectedImage := None;
    }

    /** `runGeneration` up to the call to the service. */
    method BeginGeneration(prompt: string, styleName: string) returns (req: Option<GenerationRequest>)
      requires Valid()
      modifies this`lastPrompt, this`activeStyleName, this`isLoading, this`error, this`imageVariants, this`selectedImage
      ensures (Snap(), req) == Run(old(Snap()), prompt, styleName)
      ensures Valid()
      ensures old(Synced(Snap())) ==> Synced(Snap())
    {
      if isLoading || isGenerating || processedImage.None? {
        return None;
      }
      ShowStarted(prompt, styleName);
      req := Some(GenerationRequest(processedImage.value, prompt, generationMode, resolution, styleImage, historyKey));
    }

    /** `runGeneration` from the call on: the final prompt built, the three attempts, then the
        outcome applied. The request carries what the generation started with. */
    method AwaitGeneration(req: GenerationRequest, apiKey: string, remote: GeminiService.Remote)
      requires ValidSession(Snap())
      modifies this`imageVariants, this`selectedImage, this`history, this`storage, this`isLoading, this`error
      ensures var result := GeminiService.EditResult(apiKey, req.image, SentPrompt(req), req.styleImage, remote);
        && (result.Ok? ==> 1 <= |result.value| <= GeminiService.Attempts)
        && Snap() == CompleteState(old(Snap()), req, result)
      ensures ValidSession(Snap())
      ensures old(Synced(Snap())) && req.historyKey == old(historyKey) ==> Synced(Snap())
    {
      var result := GeminiService.EditImageWithTemplate(apiKey, req.image, SentPrompt(req), req.styleImage, remote);
      CompleteGeneration(req, result);
      CompletionKeepsInvariants(old(Snap()), req, result);
    }

    /** The service's result applied to the editor; `CompletionKeepsInvariants` says what it
        preserves. */
    method CompleteGeneration(req: GenerationRequest, result: Result<seq<string>>)
      requires ValidSession(Snap())
      requires result.Ok? ==> 1 <= |result.value| <= GeminiService.Attempts
      modifies this`imageVariants, this`selectedImage, this`history, this`storage, this`isLoading, this`error
      ensures Snap() == CompleteState(old(Snap()), req, result)
    {
      match result
      case Ok(results) =>
        ShowResults(results);
        if req.historyKey.Some? {
          RecordResult(req.historyKey.value, results[0]);
        }
      case Err(message) =>
        ShowFailure(message);
    }

    /** The results shown, the first one selected, loading over. */
    method ShowResults(results: seq<string>)
      requires |results| >= 1
      modifies this`imageVariants, this`selectedImage, this`isLoading
      ensures imageVariants == Some(results) && selectedImage == Some(results[0]) && !isLoading
    {
      imageVariants := Some(results);
      selectedImage := Some(results[0]);
      isLoading := false;
    }

    /** The image recorded as the newest history entry and the history stored under the key. */
    method RecordResult(key: string, image: string)
      modifies this`history, this`storage
      ensures history == Record(old(history), image)
      ensures storage == Save(old(storage), key, history)
    {
      var newHistory := Record(history, image);
      storage := storage[key := Entries(newHistory)];
      history := newHistory;
    }

    /** The failure's message shown, loading over. */
    method ShowFailure(message: string)
      modifies this`error, this`isLoading
      ensures error == Some(message) && !isLoading
    {
      error := Some(message);
      isLoading := false;
    }

    /** The template shown as active. */
    method SetActiveTemplate(t: Option<Template>)
      modifies this`activeTemplate
      ensures activeTemplate == t
    {
      activeTemplate := t;
    }

    method SelectTemplate(t: Template) returns (req: Option<GenerationRequest>)
      requires Valid()
      modifies this`activeTemplate, this`lastPrompt, this`activeStyleName, this`isLoading, this`error, this`imageVariants, this`selectedImage
      ensures (Snap(), req) == SelectTemplateState(old(Snap()), t)
      ensures Valid()
      ensures old(Synced(Snap())) ==> Synced(Snap())
    {
      SetActiveTemplate(Some(t));
      req := BeginGeneration(t.prompt, t.name);
    }

    method CustomPrompt(prompt: string) returns (req: Option<GenerationRequest>)
      requires Valid()
      modifies this`activeTemplate, this`lastPrompt, this`activeStyleName, this`isLoading, this`error, this`imageVariants, this`selectedImage
      ensures (Snap(), req) == CustomPromptState(old(Snap()), prompt)
      ensures Valid()
      ensures old(Synced(Snap())) ==> Synced(Snap())
    {
      if isLoading || isGenerating || Trim(prompt) == "" {
        return None;
      }
      ghost var cleared := Snap().(activeTemplate := None);
      SetActiveTemplate(None);
      assert Snap() == cleared;
      req := BeginGeneration(prompt, CustomStyleName);
    }

    method Regenerate() returns (req: Option<GenerationRequest>)
      requires Valid()
      modifies this`lastPrompt, this`activeStyleName, this`isLoading, this`error, this`imageVariants, this`selectedImage
      ensures (Snap(), req) == RegenerateState(old(Snap()))
      ensures Valid()
      ensures old(Synced(Snap())) ==> Synced(Snap())
    {
      if lastPrompt.None? || lastPrompt.value == "" || activeStyleName.None? || activeStyleName.value == "" {
        return None;
      }
      req := BeginGeneration(lastPrompt.value, activeStyleName.value);
    }

    method DownloadSelected() returns (d: Option<Download>)
      ensures d == DownloadOf(Snap())
    {
      if selectedImage.None? || selectedImage.value == "" {
        return None;
      }
      var id := if activeTemplate.Some? && activeTemplate.value.id != "" then activeTemplate.value.id else "custom";
      d := Some(Download.Download(selectedImage.value, "stylized-" + id + ".png"));
    }

    /** Choosing one of the variants shown. */
    method SelectVariant(url: string)
      requires Valid() && imageVariants.Some? && url in imageVariants.value
      modifies this`selectedImage
      ensures Snap() == SelectVariantState(old(Snap()), url)
      ensures Valid()
      ensures old(Synced(Snap())) ==> Synced(Snap())
    {
      selectedImage := Some(url);
    }

    /** `handleGenerateTemplate` up to the call. */
    method BeginTemplateIdea() returns (started: bool)
      requires Valid()
      modifies this`isGenerating, this`error
      ensures (Snap(), started) == StartIdea(old(Snap()))
      ensures Valid()
      ensures old(Synced(Snap())) ==> Synced(Snap())
    {
      if isGenerating || isLoading {
        return false;
      }
      isGenerating := true;
      error := None;
      return true;
    }

    /** `handleGenerateTemplate` from the call on. */
    method CompleteTemplateIdea(apiKey: string, reply: Result<Template>)
      requires Valid()
      modifies this`templates, this`isGenerating, this`error
      ensures Snap() == IdeaDone(old(Snap()), GeminiService.GenerateTemplateIdea(apiKey, reply))
      ensures Valid()
      ensures old(Synced(Snap())) ==> Synced(Snap())
    {
      var result := GeminiService.GenerateTemplateIdea(apiKey, reply);
      match result
      case Ok(t) =>
        templates := Create(templates, t);
        isGenerating := false;
      case Err(message) =>
        error := Some(message);
        isGenerating := false;
    }

    method CreateTemplate(t: Template)
      requires Valid()
      modifies this`templates
      ensures Snap() == old(Snap()).(templates := Create(old(templates), t))
      ensures Valid()
      ensures old(Synced(Snap())) ==> Synced(Snap())
    {
      templates := [t] + templates;
    }

    method UpdateTemplate(t: Template)
      requires Valid()
      modifies this`templates
      ensures Snap() == old(Snap()).(templates := Update(old(templates), t))
      ensures Valid()
      ensures old(Synced(Snap())) ==> Synced(Snap())
    {
      templates := Update(templates, t);
    }

    /** The list of styles replaced and, when `forget` holds, no generation outcome and no
        active template or style; the rest as it was. */
    method ApplyDelete(ts: seq<Template>, forget: bool)
      modifies this`templates, this`imageVariants, this`selectedImage, this`error, this`activeTemplate,
               this`activeStyleName, this`lastPrompt
      ensures templates == ts
      ensures forget ==> imageVariants.None? && selectedImage.None? && error.None?
      ensures forget ==> activeTemplate.None? && activeStyleName.None? && lastPrompt.None?
      ensures !forget ==> imageVariants == old(imageVariants) && selectedImage == old(selectedImage)
      ensures !forget ==> error == old(error) && activeTemplate == old(activeTemplate)
      ensures !forget ==> activeStyleName == old(activeStyleName) && lastPrompt == old(lastPrompt)
    {
      templates := ts;
      if forget {
        imageVariants := None;
        selectedImage := None;
        error := None;
        activeTemplate := None;
        activeStyleName := None;
        lastPrompt := None;
      }
    }

    method DeleteTemplate(id: string)
      requires Valid()
      modifies this`templates, this`imageVariants, this`selectedImage, this`error, this`activeTemplate, this`activeStyleName, this`lastPrompt
      ensures Snap() == DeleteState(old(Snap()), id)
      ensures Valid()
      ensures old(Synced(Snap())) ==> Synced(Snap())
    {
      ghost var deleted := DeleteState(Snap(), id);
      ApplyDelete(Delete(templates, id), activeTemplate.Some? && activeTemplate.value.id == id);
      assert Snap() == deleted;
    }

    method RevertToHistory(url: string)
      requires Valid()
      modifies this`selectedImage, this`imageVariants, this`error, this`activeStyleName
      ensures Snap() == RevertState(old(Snap()), url)
      ensures Valid()
      ensures old(Synced(Snap())) ==> Synced(Snap())
    {
      RevertKeepsInvariants(Snap(), url);
      ShowReverted(url);
    }

    /** One image shown and selected, under the history's style name, without an error. */
    method ShowReverted(url: string)
      modifies this`selectedImage, this`imageVariants, this`error, this`activeStyleName
      ensures selectedImage == Some(url) && imageVariants == Some([url])
      ensures error.None? && activeStyleName == Some(HistoryStyleName)
    {
      selectedImage := Some(url);
      imageVariants := Some([url]);
      error := None;
      activeStyleName := Some(HistoryStyleName);
    }
  }

  /** Upload an image, let its crop settle, start a generation, reset, and let the generation
      complete: the result is recorded into the cleared history but stored under the old key,
      so the editor is out of step with its store. Reverting to the recorded image is still
      possible there, and shows it. */
  method StaleCompletionThenRevert(file: ImageFile) returns (synced: bool, shown: Option<string>, variants: Option<seq<string>>)
    ensures !synced
    ensures shown == Some("r0") && variants == Some(["r0"])
  {
    var e := new Editor([], map[]);
    e.Upload(file);
    e.CropSettled(CropFailed);
    var req := e.BeginGeneration("a painting", "Oil");
    e.Reset();
    e.CompleteGeneration(req.value, Ok(["r0"]));
    synced := Synced(e.Snap());
    e.RevertToHistory("r0");
    shown, variants := e.selectedImage, e.imageVariants;
  }
}
