/** The job-description upload handler of the job-analysis page
    (`handleFileUpload`): it classifies the chosen file, builds the request
    body from what the file reader produced, records it in session storage,
    posts it to the analysis service and maps the outcome onto the page state.

    The browser is reduced to inputs and outputs: the reader's outcome, the
    fetch outcome, the signed-in user's id and the clock value used for the
    picker key are parameters; the session-storage write and the POST are
    recorded, in order, as effects. */
module JobAnalysis {
  import opened Wrappers
  import opened JsText

  // ---------------------------------------------------------------------------
  // Data model
  // ---------------------------------------------------------------------------

  /** The analysis the service returns (the page's `AnalysisResult`). */
  datatype CompetencyAnalysis = CompetencyAnalysis(
    hardSkills: seq<string>, softSkills: seq<string>,
    preferredQualifications: seq<string>, keywords: seq<string>)
  datatype ResponsibilityAnalysis = ResponsibilityAnalysis(
    coreResponsibilities: seq<string>, potentialChallenges: string)
  datatype CompanyInsights = CompanyInsights(
    cultureClues: seq<string>, benefitsHighlights: seq<string>)
  datatype ApplicationStrategy = ApplicationStrategy(
    resumeFocus: string, interviewQuestions: seq<string>)
  datatype AnalysisResult = AnalysisResult(
    jobTitle: string, jobSummary: string,
    competencyAnalysis: CompetencyAnalysis,
    responsibilityAnalysis: ResponsibilityAnalysis,
    companyInsights: CompanyInsights,
    applicationStrategy: ApplicationStrategy)

  /** What the handler looks at of the chosen file: its name and MIME type. */
  datatype ChosenFile = ChosenFile(name: string, mimeType: string)

  /** How the file reader is asked to read the file. */
  datatype ReadMode = AsDataUrl | AsText

  /** The job description itself: verbatim text or base64 image data. */
  datatype JdContent = Jd(text: string) | JdImg(base64: string)

  /** The request body; `userId` is absent when nobody is signed in. */
  datatype RequestBody = RequestBody(content: JdContent, userId: Option<string>)

  /** The page's state variables. */
  datatype PageState = PageState(
    selectedFile: Option<ChosenFile>,
    analysisResult: Option<AnalysisResult>,
    isLoading: bool,
    error: Option<string>,
    fileInputKey: int)

  /** How the file reader finished: `onload` with its (possibly null) result,
      or `onerror`. */
  datatype ReadOutcome = Loaded(result: Option<string>) | ReadFailed

  /** The parsed JSON body of an HTTP response, or the exception that parsing
      raised. A missing `data` or `errorMsg` field is `None`. */
  datatype JsonReply =
    | Reply(success: bool, data: Option<AnalysisResult>, errorMsg: Option<string>)
    | Unparsable(message: string)

  /** How `fetch` finished: it raised, or a response arrived with a status,
      the body as text and the body as JSON. */
  datatype FetchOutcome =
    | NetworkFailure(message: string)
    | Response(status: nat, bodyText: string, json: JsonReply)

  /** What the `try`/`catch` makes of a fetch outcome. */
  datatype Settlement = Analysed(data: Option<AnalysisResult>) | Failed(error: Option<string>)

  /** How `sessionStorage.setItem` finished: it stored the body, or it threw
      (a full quota, or storage disabled). */
  datatype StorageOutcome = Stored | StorageThrew(message: string)

  /** A browser side effect of the handler. */
  datatype Effect =
    | SessionWrite(key: string, body: RequestBody)
    | Post(path: string, body: RequestBody)

  /** The page state after the handler has settled, and the effects it made. */
  datatype Step = Step(state: PageState, effects: seq<Effect>)

  const ImagePrefix := "image/"
  const StorageKey := "jobDescriptionRaw"
  const AnalysisPath := "/shenbi/recruit/jdAnalysis"
  const ImageReadError := "无法读取图片文件或文件格式错误。"
  const TextReadError := "无法读取文本文件或文件为空。"
  const ReaderError := "读取文件时发生错误。"
  const FailurePrefix := "分析失败: "
  const StatusLabel := "HTTP error! status: "
  const BodyLabel := ", body: "

  // ---------------------------------------------------------------------------
  // Classification and request body
  // ---------------------------------------------------------------------------

  /** A file is handled as an image exactly when its MIME type starts with
      `image/`; images are read as a data URL, everything else as text. */
  function ReadModeFor(file: ChosenFile): (m: ReadMode)
    ensures m == AsDataUrl <==> |file.mimeType| >= 6 && file.mimeType[..6] == "image/"
  {
    if StartsWith(file.mimeType, ImagePrefix) then AsDataUrl else AsText
  }

  /** The JSON fields `JSON.stringify` writes for a body: exactly one of `jd`
      and `jdImg`, plus `userId` only when it is defined. */
  function Fields(b: RequestBody): (f: map<string, string>)
    ensures ("jd" in f) != ("jdImg" in f)
    ensures "jdImg" in f <==> b.content.JdImg?
    ensures "userId" in f <==> b.userId.Some?
    ensures b.userId.Some? ==> f["userId"] == b.userId.value
    ensures b.content.Jd? ==> f["jd"] == b.content.text
    ensures b.content.JdImg? ==> f["jdImg"] == b.content.base64
    ensures f.Keys <= {"jd", "jdImg", "userId"}
  {
    var content := match b.content
      case Jd(t) => map["jd" := t]
      case JdImg(i) => map["jdImg" := i];
    if b.userId.Some? then content["userId" := b.userId.value] else content
  }

  /** The start of `reader.onload`: the body built from the reader's result,
      or the message of the early return when the read produced nothing
      usable. */
  function BuildRequest(isImage: bool, result: Option<string>, userId: Option<string>)
    : (r: Result<RequestBody, string>)
    ensures r.Success? ==> r.value.userId == userId
    ensures r.Success? ==> (r.value.content.JdImg? <==> isImage)
    ensures !isImage ==>
              (r.Success? <==> result.Some? && result.value != "")
    ensures !isImage && r.Success? ==> r.value.content.text == result.value
    ensures isImage ==>
              (r.Success? <==> result.Some? && ',' in result.value
                               && SecondSegment(result.value).value != "")
    ensures isImage && r.Success? ==>
              r.value.content.base64 != "" && ',' !in r.value.content.base64
    ensures r.Failure? ==> r.error == (if isImage then ImageReadError else TextReadError)
  {
    if isImage then
      var base64 := if result.Some? then SecondSegment(result.value) else None;
      if base64.None? || base64.value == "" then Failure(ImageReadError)
      else Success(RequestBody(JdImg(base64.value), userId))
    else
      if result.None? || result.value == "" then Failure(TextReadError)
      else Success(RequestBody(Jd(result.value), userId))
  }

  /** A data URL `header,payload` with a non-empty comma-free payload is sent
      as exactly that payload under `jdImg`. */
  lemma DataUrlPayloadIsSent(header: string, payload: string, userId: Option<string>)
    requires ',' !in header && ',' !in payload && payload != ""
    ensures BuildRequest(true, Some(header + [','] + payload), userId)
            == Success(RequestBody(JdImg(payload), userId))
  {
    SecondSegmentIsPayload(header, payload, []);
    assert header + [','] + payload + [] == header + [','] + payload;
  }

  /** A data URL with nothing after its comma (an empty image) is rejected. */
  lemma EmptyDataUrlIsRejected(header: string, userId: Option<string>)
    requires ',' !in header
    ensures BuildRequest(true, Some(header + [',']), userId) == Failure(ImageReadError)
  {
    SecondSegmentIsPayload(header, "", []);
    assert header + [','] + "" + [] == header + [','];
  }

  // ---------------------------------------------------------------------------
  // Response classification
  // ---------------------------------------------------------------------------

  /** `response.ok`: the status belongs to the 2xx class. */
  function HttpOk(status: nat): (ok: bool)
    ensures ok <==> status / 100 == 2
  {
    200 <= status <= 299
  }

  /** The message of the error thrown for a non-ok response. It starts with
      the status label, the status can be read back from the digits after
      the label, and it ends with `, body: ` and the response text. */
  function HttpErrorMessage(status: nat, bodyText: string): (m: string)
    ensures var n := |StatusLabel|;
            var d := |Decimal(status)|;
            && n + d <= |m|
            && StartsWith(m, StatusLabel)
            && IsDigits(m[n..n + d])
            && DecimalValue(m[n..n + d]) == status
            && m[n + d..] == BodyLabel + bodyText
  {
    var m := StatusLabel + Decimal(status) + BodyLabel + bodyText;
    assert m[|StatusLabel|..|StatusLabel| + |Decimal(status)|] == Decimal(status);
    DecimalRoundTrip(status);
    m
  }

  /** The `try`/`catch` around the request: the four outcomes. Every raised
      exception, including the one thrown for a non-ok status, surfaces as
      `分析失败: <message>`; an ok response with `success` yields its data;
      one without `success` shows its `errorMsg`, which may be missing. */
  function ClassifyResponse(f: FetchOutcome): (o: Settlement)
    ensures o.Analysed? <==> f.Response? && HttpOk(f.status) && f.json.Reply? && f.json.success
    ensures o.Analysed? ==> o.data == f.json.data
    ensures f.NetworkFailure? ==> o == Failed(Some(FailurePrefix + f.message))
    ensures f.Response? && !HttpOk(f.status) ==>
              o == Failed(Some(FailurePrefix + HttpErrorMessage(f.status, f.bodyText)))
    ensures f.Response? && HttpOk(f.status) && f.json.Unparsable? ==>
              o == Failed(Some(FailurePrefix + f.json.message))
    ensures f.Response? && HttpOk(f.status) && f.json.Reply? && !f.json.success ==>
              o == Failed(f.json.errorMsg)
  {
    match f
    case NetworkFailure(message) => Failed(Some(FailurePrefix + message))
    case Response(status, bodyText, json) =>
      if !HttpOk(status) then Failed(Some(FailurePrefix + HttpErrorMessage(status, bodyText)))
      else match json
        case Unparsable(message) => Failed(Some(FailurePrefix + message))
        case Reply(success, data, errorMsg) =>
          if success then Analysed(data) else Failed(errorMsg)
  }

  /** Every error that comes from an exception carries the failure prefix, and
      the only error without it is the service's own `errorMsg`. */
  lemma ExceptionErrorsArePrefixed(f: FetchOutcome)
    requires !(f.Response? && HttpOk(f.status) && f.json.Reply?)
    ensures ClassifyResponse(f).Failed?
    ensures ClassifyResponse(f).error.Some?
    ensures StartsWith(ClassifyResponse(f).error.value, FailurePrefix)
  {
    var e := ClassifyResponse(f).error.value;
    assert e[..|FailurePrefix|] == FailurePrefix;
  }

  // ---------------------------------------------------------------------------
  // The handler
  // ---------------------------------------------------------------------------

  /** Entering `handleFileUpload`: it records the file, clears the previous
      result and error, raises the loading flag and picks the read mode
      (`readAsDataURL` or `readAsText`). */
  function Begin(s: PageState, file: ChosenFile): (r: (PageState, ReadMode))
    ensures r.0.selectedFile == Some(file)
    ensures r.0.analysisResult.None? && r.0.error.None?
    ensures r.0.isLoading
    ensures r.0.fileInputKey == s.fileInputKey
    ensures r.1 == ReadModeFor(file)
  {
    (s.(selectedFile := Some(file), analysisResult := None, error := None, isLoading := true),
     ReadModeFor(file))
  }

  /** The common tail of every exit path: loading off, picker key refreshed. */
  function Settle(s: PageState, now: int): (r: PageState)
    ensures !r.isLoading && r.fileInputKey == now
    ensures r.selectedFile == s.selectedFile
    ensures r.analysisResult == s.analysisResult && r.error == s.error
  {
    s.(isLoading := false, fileInputKey := now)
  }

  /** `reader.onerror`: the read error is shown, loading is cleared, the
      picker key refreshed, and nothing is stored or sent. */
  function OnReadError(s: PageState, now: int): (r: Step)
    ensures r.effects == []
    ensures r.state.error == Some(ReaderError)
    ensures !r.state.isLoading && r.state.fileInputKey == now
    ensures r.state.analysisResult == s.analysisResult
    ensures r.state.selectedFile == s.selectedFile
  {
    Step(Settle(s.(error := Some(ReaderError)), now), [])
  }

  /** The `try`/`catch`/`finally` around the request, once the body is
      stored: the outcome is shown and the handler settles. */
  function Request(s: PageState, body: RequestBody, fetch: FetchOutcome, now: int): (r: Step)
    ensures !r.state.isLoading && r.state.fileInputKey == now
    ensures r.state.selectedFile == s.selectedFile
    ensures r.effects == [SessionWrite(StorageKey, body), Post(AnalysisPath, body)]
    ensures ClassifyResponse(fetch).Analysed? ==>
              r.state.analysisResult == ClassifyResponse(fetch).data && r.state.error == s.error
    ensures ClassifyResponse(fetch).Failed? ==>
              r.state.error == ClassifyResponse(fetch).error && r.state.analysisResult == s.analysisResult
  {
    var shown := match ClassifyResponse(fetch)
      case Analysed(data) => s.(analysisResult := data)
      case Failed(error) => s.(error := error);
    Step(Settle(shown, now), [SessionWrite(StorageKey, body), Post(AnalysisPath, body)])
  }

  /** `reader.onload`, with the session-storage write inside the `try`, so
      that a throwing write is reported and the handler still settles (see
      `OnLoadAsWritten` for the order the page uses). An unusable read ends
      with its own message and no effects; a failed write ends with
      `分析失败: <message>` and no effects; otherwise the body is stored, then
      posted, and the outcome of the request is shown. */
  function OnLoad(s: PageState, isImage: bool, result: Option<string>, userId: Option<string>,
                  storage: StorageOutcome, fetch: FetchOutcome, now: int): (r: Step)
    ensures !r.state.isLoading && r.state.fileInputKey == now
    ensures r.state.selectedFile == s.selectedFile
    ensures BuildRequest(isImage, result, userId).Failure? ==>
              && r.effects == []
              && r.state.error == Some(if isImage then ImageReadError else TextReadError)
              && r.state.analysisResult == s.analysisResult
    ensures BuildRequest(isImage, result, userId).Success? && storage.StorageThrew? ==>
              && r.effects == []
              && r.state.error == Some(FailurePrefix + storage.message)
              && r.state.analysisResult == s.analysisResult
    ensures BuildRequest(isImage, result, userId).Success? && storage.Stored? ==>
              var body := BuildRequest(isImage, result, userId).value;
              && r.effects == [SessionWrite(StorageKey, body), Post(AnalysisPath, body)]
              && (ClassifyResponse(fetch).Analysed? ==>
                    r.state.analysisResult == ClassifyResponse(fetch).data && r.state.error == s.error)
              && (ClassifyResponse(fetch).Failed? ==>
                    r.state.error == ClassifyResponse(fetch).error
                    && r.state.analysisResult == s.analysisResult)
  {
    match BuildRequest(isImage, result, userId)
    case Failure(message) => Step(Settle(s.(error := Some(message)), now), [])
    case Success(body) =>
      match storage
      case StorageThrew(message) => Step(Settle(s.(error := Some(FailurePrefix + message)), now), [])
      case Stored => Request(s, body, fetch, now)
  }

  /** True when the upload reaches the request: the reader loaded and its
      result gives a body. */
  predicate Sends(file: ChosenFile, userId: Option<string>, read: ReadOutcome) {
    read.Loaded? && BuildRequest(ReadModeFor(file) == AsDataUrl, read.result, userId).Success?
  }

  /** The whole upload, from the file being chosen to the handler settling,
      with the storage write inside the `try`. On every exit path the loading
      flag is cleared, the picker key is refreshed and the chosen file is
      remembered. A failed read shows its own message and stores and sends
      nothing; so does a failed storage write, with the failure prefix.
      Otherwise the body is written to session storage under
      `jobDescriptionRaw` and then posted, with the same body, and the page
      shows exactly what `ClassifyResponse` makes of the fetch outcome. */
  function HandleFileUpload(s: PageState, file: ChosenFile, userId: Option<string>,
                            read: ReadOutcome, storage: StorageOutcome,
                            fetch: FetchOutcome, now: int): (r: Step)
    ensures !r.state.isLoading && r.state.fileInputKey == now
    ensures r.state.selectedFile == Some(file)
    ensures read.ReadFailed? ==>
              r.effects == [] && r.state.error == Some(ReaderError) && r.state.analysisResult.None?
    ensures read.Loaded? && !Sends(file, userId, read) ==>
              && r.effects == []
              && r.state.error == Some(if ReadModeFor(file) == AsDataUrl then ImageReadError
                                       else TextReadError)
              && r.state.analysisResult.None?
    ensures Sends(file, userId, read) && storage.StorageThrew? ==>
              && r.effects == []
              && r.state.error == Some(FailurePrefix + storage.message)
              && r.state.analysisResult.None?
    ensures Sends(file, userId, read) && storage.Stored? ==>
              var body := BuildRequest(ReadModeFor(file) == AsDataUrl, read.result, userId).value;
              && r.effects == [SessionWrite(StorageKey, body), Post(AnalysisPath, body)]
              && (ClassifyResponse(fetch).Analysed? ==>
                    r.state.analysisResult == ClassifyResponse(fetch).data && r.state.error.None?)
              && (ClassifyResponse(fetch).Failed? ==>
                    r.state.error == ClassifyResponse(fetch).error && r.state.analysisResult.None?)
    ensures r.state.analysisResult.Some? ==>
              Sends(file, userId, read) && storage.Stored? && fetch.Response?
              && HttpOk(fetch.status) && fetch.json.Reply? && fetch.json.success
    ensures !(r.state.analysisResult.Some? && r.state.error.Some?)
  {
    var (started, mode) := Begin(s, file);
    match read
    case ReadFailed => OnReadError(started, now)
    case Loaded(result) => OnLoad(started, mode == AsDataUrl, result, userId, storage, fetch, now)
  }

  // ---------------------------------------------------------------------------
  // The page's own order: the storage write before the `try`
  // ---------------------------------------------------------------------------

  /** `reader.onload` as the page writes it: `sessionStorage.setItem` runs
      before the `try`, so when it throws, the async callback rejects with
      no `catch` and no `finally` to run: the page keeps loading, keeps its
      old picker key, shows nothing and sends nothing. */
  function OnLoadAsWritten(s: PageState, isImage: bool, result: Option<string>,
                           userId: Option<string>, storage: StorageOutcome,
                           fetch: FetchOutcome, now: int): (r: Step)
    ensures storage.Stored? ==> r == OnLoad(s, isImage, result, userId, storage, fetch, now)
    ensures BuildRequest(isImage, result, userId).Failure? ==>
              r == OnLoad(s, isImage, result, userId, storage, fetch, now)
    ensures BuildRequest(isImage, result, userId).Success? && storage.StorageThrew? ==>
              r.state == s && r.effects == []
  {
    match BuildRequest(isImage, result, userId)
    case Failure(message) => Step(Settle(s.(error := Some(message)), now), [])
    case Success(body) =>
      match storage
      case StorageThrew(_) => Step(s, [])
      case Stored => Request(s, body, fetch, now)
  }

  /** The whole upload in the page's own order. */
  function HandleFileUploadAsWritten(s: PageState, file: ChosenFile, userId: Option<string>,
                                     read: ReadOutcome, storage: StorageOutcome,
                                     fetch: FetchOutcome, now: int): Step
  {
    var (started, mode) := Begin(s, file);
    match read
    case ReadFailed => OnReadError(started, now)
    case Loaded(result) => OnLoadAsWritten(started, mode == AsDataUrl, result, userId, storage, fetch, now)
  }

  /** When the storage write throws on a usable read, the page as written is
      left loading, with the picker key it had before the upload, no error,
      no result, and nothing posted; the corrected handler settles with an
      error instead. */
  lemma StorageThrowLeavesLoadingStuck(s: PageState, file: ChosenFile, userId: Option<string>,
                                       read: ReadOutcome, message: string,
                                       fetch: FetchOutcome, now: int)
    requires Sends(file, userId, read)
    ensures var r := HandleFileUploadAsWritten(s, file, userId, read, StorageThrew(message), fetch, now);
            && r.state.isLoading
            && r.state.fileInputKey == s.fileInputKey
            && r.state.error.None? && r.state.analysisResult.None?
            && r.effects == []
    ensures var c := HandleFileUpload(s, file, userId, read, StorageThrew(message), fetch, now);
            !c.state.isLoading && c.state.error == Some(FailurePrefix + message)
  {
  }

  /** A concrete case: a PNG read as `data:image/png;base64,iVBORw0KGgo=`
      whose write exceeds the storage quota leaves the page loading. */
  lemma QuotaExceededPngStaysLoading(s: PageState, now: int)
    ensures var r := HandleFileUploadAsWritten(
              s, ChosenFile("jd.png", "image/png"), Some("user_1"),
              Loaded(Some("data:image/png;base64,iVBORw0KGgo=")),
              StorageThrew("QuotaExceededError"), NetworkFailure("unused"), now);
            r.state.isLoading && r.effects == []
  {
    var file := ChosenFile("jd.png", "image/png");
    assert StartsWith(file.mimeType, ImagePrefix);
    DataUrlPayloadIsSent("data:image/png;base64", "iVBORw0KGgo=", Some("user_1"));
    assert "data:image/png;base64" + [','] + "iVBORw0KGgo=" == "data:image/png;base64,iVBORw0KGgo=";
    StorageThrowLeavesLoadingStuck(s, file, Some("user_1"),
      Loaded(Some("data:image/png;base64,iVBORw0KGgo=")), "QuotaExceededError",
      NetworkFailure("unused"), now);
  }

  /** The correction changes nothing but the failed-write path: whenever the
      write succeeds, the page as written and the corrected handler agree. */
  lemma CorrectionAgreesWhenStored(s: PageState, file: ChosenFile, userId: Option<string>,
                                   read: ReadOutcome, fetch: FetchOutcome, now: int)
    ensures HandleFileUploadAsWritten(s, file, userId, read, Stored, fetch, now)
            == HandleFileUpload(s, file, userId, read, Stored, fetch, now)
  {
  }

  // ---------------------------------------------------------------------------
  // Consequences
  // ---------------------------------------------------------------------------

  /** A text file's content reaches the service verbatim under `jd`, next to
      the user id, and its serialised `jd` field is that text. */
  lemma TextIsSentVerbatim(s: PageState, file: ChosenFile, userId: Option<string>,
                           text: string, fetch: FetchOutcome, now: int)
    requires !StartsWith(file.mimeType, ImagePrefix) && text != ""
    ensures var body := RequestBody(Jd(text), userId);
            && HandleFileUpload(s, file, userId, Loaded(Some(text)), Stored, fetch, now).effects
               == [SessionWrite(StorageKey, body), Post(AnalysisPath, body)]
            && Fields(body)["jd"] == text
            && "jdImg" !in Fields(body)
  {
  }

  /** An image read as the data URL `header,payload` reaches the service as
      `payload` under `jdImg`, and its serialised `jdImg` field is that
      payload. */
  lemma ImagePayloadIsSent(s: PageState, file: ChosenFile, userId: Option<string>,
                           header: string, payload: string, fetch: FetchOutcome, now: int)
    requires StartsWith(file.mimeType, ImagePrefix)
    requires ',' !in header && ',' !in payload && payload != ""
    ensures var body := RequestBody(JdImg(payload), userId);
            && HandleFileUpload(s, file, userId, Loaded(Some(header + [','] + payload)),
                                Stored, fetch, now).effects
               == [SessionWrite(StorageKey, body), Post(AnalysisPath, body)]
            && Fields(body)["jdImg"] == payload
            && "jd" !in Fields(body)
  {
    DataUrlPayloadIsSent(header, payload, userId);
  }

  /** A service-level failure whose JSON has no `errorMsg` leaves the page
      with neither a result nor an error message. */
  lemma MissingErrorMsgIsSilent(s: PageState, file: ChosenFile, userId: Option<string>,
                                read: ReadOutcome, status: nat, bodyText: string,
                                data: Option<AnalysisResult>, now: int)
    requires Sends(file, userId, read) && HttpOk(status)
    ensures var r := HandleFileUpload(s, file, userId, read, Stored,
                                      Response(status, bodyText, Reply(false, data, None)), now);
            r.state.error.None? && r.state.analysisResult.None? && !r.state.isLoading
  {
  }
}
