/** The generation service's own logic around the remote model: turning a file into an inline
    part, shaping the request, classifying the model's reply, and gathering three attempts.
    The remote model is a parameter: it maps an attempt and the parts sent to a response. */
module GeminiService {
  import opened Wrappers
  import opened JsStrings
  import opened TemplateList

  /** What `FileReader.readAsDataURL` delivers for a file. */
  datatype FileRead = DataUrl(text: string) | ReadError(reason: string) | ReadAborted

  /** A `File`: its name, its size in bytes, its MIME type (`file.type`, empty when the browser
      does not know it) and what reading it as a data URL gives. */
  datatype ImageFile = ImageFile(name: string, size: nat, mimeType: string, read: FileRead)

  /** A part of a request: an inline base64 image or a text. */
  datatype Part = InlineData(data: string, mimeType: string) | Text(text: string)

  /** A part of the content of the model's first candidate. */
  datatype ReplyPart = ReplyImage(mimeType: string, data: string) | ReplyText(text: string)

  /** The first candidate of a reply: its finish reason (empty when absent) and the parts of its
      content (`None` when the candidate has no content; a content without parts has none). */
  datatype Candidate = Candidate(finishReason: string, content: Option<seq<ReplyPart>>)

  /** What `generateContent` gives: a rejected call, or a reply with its first candidate, if any,
      and the block reason of its prompt feedback (empty when absent). */
  datatype Response = CallFailed(message: string) | Reply(candidate: Option<Candidate>, blockReason: string)

  /** The remote image model: the response to attempt `i` when it is sent parts `p`. */
  type Remote = (nat, seq<Part>) -> Response

  const ApiKeyMissing: string := "API_KEY environment variable is not set"
  const InvalidDataUrl: string := "Invalid data URL format. Failed to extract base64 data."
  const ReadFailedPrefix: string := "Failed to read file: "
  const ReadAbortedMessage: string := "File reading was aborted."
  const DefaultMimeType: string := "application/octet-stream"
  const SafetyPrefix: string := "Image generation was blocked due to safety reasons: "
  const UnknownBlockReason: string := "Unknown"
  const NoImageMessage: string := "The model did not return an image. Please try a different prompt or image."
  const UnknownError: string := "Unknown error"
  const NoImagesMessage: string := "The model failed to generate any images."
  const ThumbnailFailed: string := "Thumbnail generation failed, no image was returned."
  const Attempts: nat := 3

  /** `data:<mimeType>;base64,<data>`. */
  function DataUrlOf(mimeType: string, data: string): string {
    "data:" + mimeType + ";base64," + data
  }

  /** The base64 payload of a data URL: the second segment of its split on `,`, refused when
      there is no second segment or it is empty. */
  function Base64Payload(dataUrl: string): Result<string> {
    var parts := SplitOn(dataUrl, ',');
    if |parts| < 2 || parts[1] == "" then Err(InvalidDataUrl) else Ok(parts[1])
  }

  /** The payload is what follows the first comma up to the next one, if any. */
  lemma {:induction false} PayloadIsSecondSegment(prefix: string, payload: string, rest: string)
    requires ',' !in prefix && ',' !in payload && payload != ""
    ensures Base64Payload(prefix + "," + payload) == Ok(payload)
    ensures Base64Payload(prefix + "," + payload + "," + rest) == Ok(payload)
  {
    assert prefix + "," + payload == prefix + [','] + payload;
    SplitAtFirst(prefix, ',', payload);
    SplitWithoutSeparator(payload, ',');
    assert prefix + "," + payload + "," + rest == prefix + [','] + (payload + [','] + rest);
    SplitAtFirst(prefix, ',', payload + [','] + rest);
    SplitAtFirst(payload, ',', rest);
  }

  /** A data URL built from a comma-free MIME type and a non-empty comma-free payload gives the
      payload back. */
  lemma PayloadOfDataUrl(mimeType: string, data: string)
    requires ',' !in mimeType && ',' !in data && data != ""
    ensures Base64Payload(DataUrlOf(mimeType, data)) == Ok(data)
  {
    var prefix := "data:" + mimeType + ";base64";
    assert DataUrlOf(mimeType, data) == prefix + "," + data;
    PayloadIsSecondSegment(prefix, data, "");
  }

  /** A text without a comma, or whose first comma ends it or is followed by another comma, is
      refused. */
  lemma PayloadRefused(prefix: string, rest: string)
    requires ',' !in prefix
    ensures Base64Payload(prefix) == Err(InvalidDataUrl)
    ensures rest == [] || rest[0] == ',' ==> Base64Payload(prefix + "," + rest) == Err(InvalidDataUrl)
  {
    SplitWithoutSeparator(prefix, ',');
    assert prefix + "," + rest == prefix + [','] + rest;
    SplitAtFirst(prefix, ',', rest);
    if rest != [] && rest[0] == ',' {
      assert rest == [] + [','] + rest[1..];
      SplitAtFirst([], ',', rest[1..]);
    }
  }

  /** `fileToGenerativePart`: the file's base64 payload with its MIME type, or the reason it
      could not be read. */
  function FileToPart(file: ImageFile): Result<Part> {
    match file.read
    case DataUrl(text) =>
      (match Base64Payload(text)
       case Ok(data) => Ok(InlineData(data, if file.mimeType != "" then file.mimeType else DefaultMimeType))
       case Err(m) => Err(m))
    case ReadError(reason) => Err(ReadFailedPrefix + reason)
    case ReadAborted => Err(ReadAbortedMessage)
  }

  /** The part of a readable file carries its payload and the file's MIME type, or
      `application/octet-stream` when the file has none. */
  lemma FileToPartOfDataUrl(file: ImageFile, mimeType: string, data: string)
    requires file.read == DataUrl(DataUrlOf(mimeType, data))
    requires ',' !in mimeType && ',' !in data && data != ""
    ensures FileToPart(file).Ok? && FileToPart(file).value.InlineData?
    ensures FileToPart(file).value.data == data
    ensures FileToPart(file).value.mimeType != ""
    ensures file.mimeType != "" ==> FileToPart(file).value.mimeType == file.mimeType
    ensures file.mimeType == "" ==> FileToPart(file).value.mimeType == DefaultMimeType
  {
    PayloadOfDataUrl(mimeType, data);
  }

  /** The parts of one request: with a style image, the style image, the subject and the text,
      without one, the subject and the text. The first file that cannot be turned into a part
      stops the request with its reason, the style image being read first. */
  function RequestParts(image: ImageFile, prompt: string, style: Option<ImageFile>): Result<seq<Part>> {
    if style.Some? then
      match FileToPart(style.value)
      case Err(m) => Err(m)
      case Ok(stylePart) =>
        (match FileToPart(image)
         case Err(m) => Err(m)
         case Ok(imagePart) => Ok([stylePart, imagePart, Text(prompt)]))
    else
      match FileToPart(image)
      case Err(m) => Err(m)
      case Ok(imagePart) => Ok([imagePart, Text(prompt)])
  }

  lemma RequestPartsShape(image: ImageFile, prompt: string, style: Option<ImageFile>)
    ensures var r := RequestParts(image, prompt, style);
      && (r.Ok? <==> FileToPart(image).Ok? && (style.Some? ==> FileToPart(style.value).Ok?))
      && (r.Ok? ==>
            && |r.value| == (if style.Some? then 3 else 2)
            && r.value[|r.value| - 1] == Text(prompt)
            && r.value[|r.value| - 2] == FileToPart(image).value
            && (style.Some? ==> r.value[0] == FileToPart(style.value).value))
      && (r.Err? && style.Some? && FileToPart(style.value).Err? ==> r.message == FileToPart(style.value).message)
      && (r.Err? && (style.None? || FileToPart(style.value).Ok?) ==> r.message == FileToPart(image).message)
  {
  }

  /** The index of the first image part, or the length when there is none. */
  function FirstImageIndex(parts: seq<ReplyPart>): (k: nat)
    ensures k <= |parts|
    ensures forall j :: 0 <= j < k ==> !parts[j].ReplyImage?
    ensures k < |parts| ==> parts[k].ReplyImage?
  {
    if parts == [] then 0
    else if parts[0].ReplyImage? then 0
    else 1 + FirstImageIndex(parts[1..])
  }

  /** The data URL of the first image part; later parts are ignored. */
  function FirstImage(parts: seq<ReplyPart>): Option<string> {
    var k := FirstImageIndex(parts);
    if k < |parts| then Some(DataUrlOf(parts[k].mimeType, parts[k].data)) else None
  }

  /** The first image part is the one before which there is no image. */
  lemma FirstImageAt(parts: seq<ReplyPart>, i: nat)
    requires i < |parts| && parts[i].ReplyImage?
    requires forall j :: 0 <= j < i ==> !parts[j].ReplyImage?
    ensures FirstImage(parts) == Some(DataUrlOf(parts[i].mimeType, parts[i].data))
  {
  }

  /** The message of a blocked reply. */
  function BlockedMessage(blockReason: string): string {
    SafetyPrefix + (if blockReason != "" then blockReason else UnknownBlockReason)
  }

  /** The outcome of one reply: a rejected call keeps its message; a reply without a first
      candidate, with finish reason `SAFETY` or without content is blocked; otherwise the first
      image part, or a failure when there is none. */
  function Classify(response: Response): Result<string> {
    match response
    case CallFailed(m) => Err(m)
    case Reply(candidate, blockReason) =>
      if candidate.None? || candidate.value.finishReason == "SAFETY" || candidate.value.content.None? then
        Err(BlockedMessage(blockReason))
      else
        match FirstImage(candidate.value.content.value)
        case Some(url) => Ok(url)
        case None => Err(NoImageMessage)
  }

  /** A classified reply succeeds exactly when the candidate has content with an image part and
      is not stopped for safety; the result is then a data URL of that image. */
  lemma ClassifySucceeds(response: Response)
    ensures Classify(response).Ok? <==>
      && response.Reply? && response.candidate.Some?
      && response.candidate.value.finishReason != "SAFETY"
      && response.candidate.value.content.Some?
      && FirstImageIndex(response.candidate.value.content.value) < |response.candidate.value.content.value|
    ensures Classify(response).Ok? ==>
      var parts := response.candidate.value.content.value;
      var k := FirstImageIndex(parts);
      Classify(response).value == DataUrlOf(parts[k].mimeType, parts[k].data)
  {
  }

  /** A reply without a first candidate, stopped for safety or without content fails with the
      safety message and the block reason, `Unknown` when there is none; a reply whose content
      holds no image part fails with the no-image message. */
  lemma ClassifyFailures(candidate: Option<Candidate>, blockReason: string)
    ensures candidate.None? || candidate.value.finishReason == "SAFETY" || candidate.value.content.None? ==>
      Classify(Reply(candidate, blockReason))
        == Err(SafetyPrefix + (if blockReason != "" then blockReason else UnknownBlockReason))
    ensures candidate.Some? && candidate.value.finishReason != "SAFETY" && candidate.value.content.Some?
            && (forall j :: 0 <= j < |candidate.value.content.value| ==> !candidate.value.content.value[j].ReplyImage?) ==>
      Classify(Reply(candidate, blockReason)) == Err(NoImageMessage)
  {
  }

  /** One attempt (`generateSingleImage`): build the parts, send them, classify the reply. */
  function Attempt(image: ImageFile, prompt: string, style: Option<ImageFile>, remote: Remote, i: nat): Result<string> {
    match RequestParts(image, prompt, style)
    case Err(m) => Err(m)
    case Ok(parts) => Classify(remote(i, parts))
  }

  /** The settlements of the three attempts, in the order they were started. */
  function Settlements(image: ImageFile, prompt: string, style: Option<ImageFile>, remote: Remote): seq<Result<string>> {
    seq(Attempts, i requires 0 <= i < Attempts => Attempt(image, prompt, style, remote, i))
  }

  /** The fulfilled values, in order. */
  function Successes(settled: seq<Result<string>>): seq<string> {
    if settled == [] then []
    else (if settled[0].Ok? then [settled[0].value] else []) + Successes(settled[1..])
  }

  /** `reason?.message || 'Unknown error'`. */
  function ReasonOf(message: string): string {
    if message != "" then message else UnknownError
  }

  /** The reasons of the rejected settlements, in order. */
  function FailureReasons(settled: seq<Result<string>>): seq<string> {
    if settled == [] then []
    else (if settled[0].Err? then [ReasonOf(settled[0].message)] else []) + FailureReasons(settled[1..])
  }

  /** The all-settled join: every fulfilled value in order, or, when none, the first reason. */
  function Aggregate(settled: seq<Result<string>>): Result<seq<string>> {
    var ok := Successes(settled);
    if |ok| == 0 then
      var reasons := FailureReasons(settled);
      Err(if |reasons| > 0 then reasons[0] else NoImagesMessage)
    else Ok(ok)
  }

  /** Keeping the fulfilled values distributes over concatenation, so their order is kept. */
  lemma {:induction false} SuccessesAppend(a: seq<Result<string>>, b: seq<Result<string>>)
    ensures Successes(a + b) == Successes(a) + Successes(b)
  {
    if a == [] {
      assert a + b == b;
    } else {
      assert (a + b)[0] == a[0];
      assert (a + b)[1..] == a[1..] + b;
      SuccessesAppend(a[1..], b);
    }
  }

  /** There are at most as many values as settlements, and none exactly when all rejected. */
  lemma {:induction false} SuccessesCount(settled: seq<Result<string>>)
    ensures |Successes(settled)| <= |settled|
    ensures Successes(settled) == [] <==> forall i :: 0 <= i < |settled| ==> settled[i].Err?
  {
    if settled != [] {
      SuccessesCount(settled[1..]);
      assert forall i :: 1 <= i < |settled| ==> settled[i] == settled[1..][i - 1];
    }
  }

  /** When every settlement is a rejection, the first reason is that of the first settlement. */
  lemma FirstReasonWhenAllFailed(settled: seq<Result<string>>)
    requires settled != [] && settled[0].Err?
    ensures FailureReasons(settled) != [] && FailureReasons(settled)[0] == ReasonOf(settled[0].message)
  {
  }

  /** The join succeeds exactly when some attempt did, with every fulfilled value in the order
      the attempts started; otherwise it fails with the first attempt's reason. */
  lemma AggregateOutcome(settled: seq<Result<string>>)
    ensures Aggregate(settled).Ok? <==> exists i :: 0 <= i < |settled| && settled[i].Ok?
    ensures Aggregate(settled).Ok? ==>
      Aggregate(settled).value == Successes(settled) && 1 <= |Aggregate(settled).value| <= |settled|
    ensures Aggregate(settled).Err? && settled != [] ==>
      Aggregate(settled).message == ReasonOf(settled[0].message)
  {
    SuccessesCount(settled);
    if Successes(settled) == [] && settled != [] {
      FirstReasonWhenAllFailed(settled);
    }
  }

  /** One failure and two images give the two images, in order, and no error. */
  lemma OneFailureTwoImages(reason: string, a: string, b: string)
    ensures Aggregate([Err(reason), Ok(a), Ok(b)]) == Ok([a, b])
  {
    var settled: seq<Result<string>> := [Err(reason), Ok(a), Ok(b)];
    assert settled[1..][1..] == [Ok(b)];
    assert Successes([Ok(b)]) == [b];
    assert Successes(settled[1..]) == [a, b];
    assert Successes(settled) == [a, b];
  }

  /** `editImageWithTemplate`: refused without an API key, otherwise the join of the three
      attempts (the outer catch rethrows with the same message). */
  function EditResult(apiKey: string, image: ImageFile, prompt: string, style: Option<ImageFile>, remote: Remote): Result<seq<string>> {
    if apiKey == "" then Err(ApiKeyMissing) else Aggregate(Settlements(image, prompt, style, remote))
  }

  /** With an API key, exactly three attempts are made; success returns one to three images, the
      fulfilled ones in starting order, and failure means all three failed and carries the first
      attempt's reason. */
  lemma EditOutcome(apiKey: string, image: ImageFile, prompt: string, style: Option<ImageFile>, remote: Remote)
    requires apiKey != ""
    ensures var settled := Settlements(image, prompt, style, remote);
      var r := EditResult(apiKey, image, prompt, style, remote);
      && |settled| == Attempts
      && (r.Ok? ==> r.value == Successes(settled) && 1 <= |r.value| <= Attempts)
      && (r.Err? ==> (forall i :: 0 <= i < Attempts ==> settled[i].Err?)
                     && r.message == ReasonOf(settled[0].message))
  {
    var settled := Settlements(image, prompt, style, remote);
    AggregateOutcome(settled);
    SuccessesCount(settled);
  }

  /** The requests that reach the remote model: none without an API key or when a file cannot
      be read, otherwise the same parts three times. */
  function SentRequests(apiKey: string, image: ImageFile, prompt: string, style: Option<ImageFile>): seq<seq<Part>> {
    if apiKey == "" then []
    else match RequestParts(image, prompt, style)
      case Err(_) => []
      case Ok(parts) => [parts, parts, parts]
  }

  /** The result depends on the remote model only through the requests actually sent: in
      particular, without an API key it fails before any request, whatever the model would do. */
  lemma OnlySentRequestsMatter(apiKey: string, image: ImageFile, prompt: string, style: Option<ImageFile>,
                               remote1: Remote, remote2: Remote)
    requires var sent := SentRequests(apiKey, image, prompt, style);
      forall i :: 0 <= i < |sent| ==> remote1(i, sent[i]) == remote2(i, sent[i])
    ensures EditResult(apiKey, image, prompt, style, remote1) == EditResult(apiKey, image, prompt, style, remote2)
    ensures apiKey == "" ==> SentRequests(apiKey, image, prompt, style) == []
                             && EditResult(apiKey, image, prompt, style, remote1) == Err(ApiKeyMissing)
  {
    if apiKey != "" {
      var s1 := Settlements(image, prompt, style, remote1);
      var s2 := Settlements(image, prompt, style, remote2);
      assert s1 == s2 by {
        var sent := SentRequests(apiKey, image, prompt, style);
        forall i | 0 <= i < Attempts ensures s1[i] == s2[i] {
          if RequestParts(image, prompt, style).Ok? {
            assert sent[i] == RequestParts(image, prompt, style).value;
          }
        }
      }
    }
  }

  /** `generateSingleImage`: builds the parts by pushing them in order, sends them, and scans
      the reply's parts for the first image. */
  method GenerateSingleImage(image: ImageFile, prompt: string, style: Option<ImageFile>, remote: Remote, attempt: nat)
    returns (r: Result<string>)
    ensures r == Attempt(image, prompt, style, remote, attempt)
  {
    var parts: seq<Part> := [];
    ghost var pushed: seq<Part>;
    if style.Some? {
      var stylePart := FileToPart(style.value);
      if stylePart.Err? {
        return Err(stylePart.message);
      }
      var userPart := FileToPart(image);
      if userPart.Err? {
        return Err(userPart.message);
      }
      parts := parts + [stylePart.value];
      parts := parts + [userPart.value];
      pushed := [stylePart.value, userPart.value];
      assert pushed + [Text(prompt)] == [stylePart.value, userPart.value, Text(prompt)];
    } else {
      var imagePart := FileToPart(image);
      if imagePart.Err? {
        return Err(imagePart.message);
      }
      parts := parts + [imagePart.value];
      pushed := [imagePart.value];
      assert pushed + [Text(prompt)] == [imagePart.value, Text(prompt)];
    }
    assert parts == pushed && RequestParts(image, prompt, style) == Ok(pushed + [Text(prompt)]);
    parts := parts + [Text(prompt)];
    assert RequestParts(image, prompt, style) == Ok(parts);

    var response := remote(attempt, parts);
    if response.CallFailed? {
      return Err(response.message);
    }
    var candidate := response.candidate;
    if candidate.None? || candidate.value.finishReason == "SAFETY" || candidate.value.content.None? {
      return Err(BlockedMessage(response.blockReason));
    }
    var replyParts := candidate.value.content.value;
    var i := 0;
    while i < |replyParts|
      invariant 0 <= i <= |replyParts|
      invariant forall j :: 0 <= j < i ==> !replyParts[j].ReplyImage?
    {
      if replyParts[i].ReplyImage? {
        FirstImageAt(replyParts, i);
        return Ok(DataUrlOf(replyParts[i].mimeType, replyParts[i].data));
      }
      i := i + 1;
    }
    assert FirstImageIndex(replyParts) == |replyParts|;
    return Err(NoImageMessage);
  }

  /** `editImageWithTemplate`: the API-key guard, three attempts started in order, and the join. */
  method EditImageWithTemplate(apiKey: string, image: ImageFile, prompt: string, style: Option<ImageFile>, remote: Remote)
    returns (r: Result<seq<string>>)
    ensures r == EditResult(apiKey, image, prompt, style, remote)
    ensures r.Ok? ==> 1 <= |r.value| <= Attempts
  {
    if apiKey == "" {
      return Err(ApiKeyMissing);
    }
    var first := GenerateSingleImage(image, prompt, style, remote, 0);
    var second := GenerateSingleImage(image, prompt, style, remote, 1);
    var third := GenerateSingleImage(image, prompt, style, remote, 2);
    assert [first, second, third] == Settlements(image, prompt, style, remote);
    r := Aggregate([first, second, third]);
    AggregateOutcome([first, second, third]);
  }

  /** `generateTemplateIdea`: refused without an API key, otherwise the model's template (its
      JSON decoding is part of the reply). */
  function GenerateTemplateIdea(apiKey: string, reply: Result<Template>): (r: Result<Template>)
    ensures apiKey == "" ==> r == Err(ApiKeyMissing)
    ensures apiKey != "" ==> r == reply
  {
    if apiKey == "" then Err(ApiKeyMissing) else reply
  }

  /** `generatePromptFromStyleImage`: refused without an API key or when the image cannot be
      read; otherwise the model's text for the image part. */
  function GeneratePromptFromStyleImage(apiKey: string, image: ImageFile, remote: Part -> Result<string>): (r: Result<string>)
    ensures apiKey == "" ==> r == Err(ApiKeyMissing)
    ensures apiKey != "" && FileToPart(image).Err? ==> r == Err(FileToPart(image).message)
  {
    if apiKey == "" then Err(ApiKeyMissing)
    else match FileToPart(image)
      case Err(m) => Err(m)
      case Ok(part) => remote(part)
  }

  /** What `generateImages` gives: a rejected call, or the bytes of the generated images (none
      when the list is missing). */
  datatype ImagesResponse = ImagesFailed(message: string) | Images(imageBytes: seq<string>)

  /** The request text for a thumbnail. */
  function ThumbnailPrompt(prompt: string): string {
    "A visually striking, simple, iconic, square thumbnail image representing the artistic style of: \"" + prompt + "\""
  }

  /** `generateThumbnailForPrompt`: refused without an API key; otherwise a JPEG data URL of the
      first generated image, or a failure when none came back. */
  function GenerateThumbnailForPrompt(apiKey: string, prompt: string, remote: string -> ImagesResponse): Result<string> {
    if apiKey == "" then Err(ApiKeyMissing)
    else match remote(ThumbnailPrompt(prompt))
      case ImagesFailed(m) => Err(m)
      case Images(bytes) => if |bytes| == 0 then Err(ThumbnailFailed) else Ok(DataUrlOf("image/jpeg", bytes[0]))
  }

  /** A thumbnail succeeds exactly when there is a key and the model returned an image; it is
      then the JPEG data URL of the first image, whose payload is that image's bytes. A
      rejected call fails with its own message, and an empty list with the thumbnail message. */
  lemma ThumbnailOutcome(apiKey: string, prompt: string, remote: string -> ImagesResponse)
    ensures var r := GenerateThumbnailForPrompt(apiKey, prompt, remote);
      var reply := remote(ThumbnailPrompt(prompt));
      && (r.Ok? <==> apiKey != "" && reply.Images? && |reply.imageBytes| > 0)
      && (apiKey != "" && reply == Images([]) ==> r == Err(ThumbnailFailed))
      && (apiKey != "" && reply.ImagesFailed? ==> r == Err(reply.message))
      && (r.Ok? ==> r.value == DataUrlOf("image/jpeg", reply.imageBytes[0]))
      && (r.Ok? && ',' !in reply.imageBytes[0] && reply.imageBytes[0] != "" ==>
            Base64Payload(r.value) == Ok(reply.imageBytes[0]))
  {
    var r := GenerateThumbnailForPrompt(apiKey, prompt, remote);
    var reply := remote(ThumbnailPrompt(prompt));
    if r.Ok? && ',' !in reply.imageBytes[0] && reply.imageBytes[0] != "" {
      PayloadOfDataUrl("image/jpeg", reply.imageBytes[0]);
    }
  }

  /** Every entry point refuses without an API key, whatever the remote model would answer. */
  lemma ApiKeyGuards(image: ImageFile, prompt: string, style: Option<ImageFile>, remote: Remote,
                     idea: Result<Template>, analyse: Part -> Result<string>, thumbnails: string -> ImagesResponse)
    ensures EditResult("", image, prompt, style, remote) == Err(ApiKeyMissing)
    ensures SentRequests("", image, prompt, style) == []
    ensures GenerateTemplateIdea("", idea) == Err(ApiKeyMissing)
    ensures GeneratePromptFromStyleImage("", image, analyse) == Err(ApiKeyMissing)
    ensures GenerateThumbnailForPrompt("", prompt, thumbnails) == Err(ApiKeyMissing)
  {
  }
}
