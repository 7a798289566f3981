/** Decision logic of the note form
    (BillNote_frontend/src/pages/HomePage/components/NoteForm.tsx): the form
    schema's checks and its URL/platform refinement, the "generating" test,
    audio-file detection and the upload platform, the submit payload and the
    choice between retrying and generating, the format checkbox toggle, and the
    submit button's label. The URL parser, the task and model stores and the
    note service are parameters or recorded calls. */
module NoteForm {
  import opened Common
  import opened Strings

  // ---------------------------------------------------------------------------
  // Form values and validation
  // ---------------------------------------------------------------------------

  datatype Quality = Fast | Medium | Slow

  /** The form's values after coercion; None marks an unset optional field. */
  datatype FormValues = FormValues(
    videoUrl: Option<string>, platform: string, quality: Quality, modelName: string,
    format: seq<string>, style: string, videoInterval: Option<real>,
    gridSize: Option<(real, real)>)

  /** A validation issue: the field path and the message, None for the schema
      library's default message. */
  datatype Issue = Issue(path: string, message: Option<string>)

  const LocalPathEmpty: string := "\U{672C}\U{5730}"                 // 本地
  const AudioWord: string := "\U{97F3}\U{9891}"                      // 音频
  const VideoWord: string := "\U{89C6}\U{9891}"                      // 视频
  const PathEmptyTail: string := "\U{8DEF}\U{5F84}\U{4E0D}\U{80FD}\U{4E3A}\U{7A7A}"  // 路径不能为空
  const UrlEmpty: string := "\U{89C6}\U{9891}\U{94FE}\U{63A5}\U{4E0D}\U{80FD}\U{4E3A}\U{7A7A}"  // 视频链接不能为空
  const UrlInvalid: string :=                                       // 请输入正确的视频链接
    "\U{8BF7}\U{8F93}\U{5165}\U{6B63}\U{786E}\U{7684}\U{89C6}\U{9891}\U{94FE}\U{63A5}"

  predicate IsLocalPlatform(platform: string) {
    platform == "local" || platform == "local-audio"
  }

  /** The schema's `superRefine`. `protocolOf(u)` is the protocol `new URL(u)`
      reports, or None when the constructor throws. */
  function RefineIssues(platform: string, videoUrl: Option<string>,
                        protocolOf: string -> Option<string>): (r: seq<Issue>)
    ensures |r| <= 1
    ensures forall i :: 0 <= i < |r| ==> r[i].path == "video_url" && r[i].message.Some?
    ensures IsLocalPlatform(platform) ==> (|r| == 1 <==> !Truthy(videoUrl))
    ensures !IsLocalPlatform(platform) ==>
      (|r| == 1 <==> !Truthy(videoUrl) || protocolOf(videoUrl.value) !in {Some("http:"), Some("https:")})
  {
    if IsLocalPlatform(platform) then
      if !Truthy(videoUrl) then
        var fileType := if platform == "local-audio" then AudioWord else VideoWord;
        [Issue("video_url", Some(LocalPathEmpty + fileType + PathEmptyTail))]
      else []
    else if !Truthy(videoUrl) then [Issue("video_url", Some(UrlEmpty))]
    else match protocolOf(videoUrl.value)
      case Some(p) =>
        if p == "http:" || p == "https:" then [] else [Issue("video_url", Some(UrlInvalid))]
      case None => [Issue("video_url", Some(UrlInvalid))]
  }

  /** The refinement's messages: a local path names the file kind, and a
      remote link distinguishes a missing link from a malformed one. */
  lemma RefineMessages(platform: string, url: string, protocolOf: string -> Option<string>)
    ensures RefineIssues("local-audio", None, protocolOf)[0].message ==
      Some(LocalPathEmpty + AudioWord + PathEmptyTail)
    ensures RefineIssues("local", Some(""), protocolOf)[0].message ==
      Some(LocalPathEmpty + VideoWord + PathEmptyTail)
    ensures !IsLocalPlatform(platform) ==> RefineIssues(platform, Some(""), protocolOf)[0].message == Some(UrlEmpty)
    ensures !IsLocalPlatform(platform) && url != "" && protocolOf(url).None? ==>
      RefineIssues(platform, Some(url), protocolOf)[0].message == Some(UrlInvalid)
  {
  }

  const PlatformRequired: string := "\U{8BF7}\U{9009}\U{62E9}\U{5E73}\U{53F0}"            // 请选择平台
  const ModelRequired: string := "\U{8BF7}\U{9009}\U{62E9}\U{6A21}\U{578B}"               // 请选择模型
  const StyleRequired: string :=                                                          // 请选择笔记生成风格
    "\U{8BF7}\U{9009}\U{62E9}\U{7B14}\U{8BB0}\U{751F}\U{6210}\U{98CE}\U{683C}"

  predicate InRange(x: real, lo: real, hi: real) {
    lo <= x <= hi
  }

  /** An issue for `path` when `bad` holds. */
  function IssueIf(bad: bool, path: string, message: Option<string>): seq<Issue> {
    if bad then [Issue(path, message)] else []
  }

  /** The per-field checks of the schema, in field order. */
  function FieldIssues(v: FormValues): seq<Issue> {
    IssueIf(v.platform == "", "platform", Some(PlatformRequired))
    + IssueIf(v.modelName == "", "model_name", Some(ModelRequired))
    + IssueIf(v.style == "", "style", Some(StyleRequired))
    + IssueIf(v.videoInterval.Some? && !InRange(v.videoInterval.value, 1.0, 30.0), "video_interval", None)
    + IssueIf(v.gridSize.Some? && !InRange(v.gridSize.value.0, 1.0, 10.0), "grid_size.0", None)
    + IssueIf(v.gridSize.Some? && !InRange(v.gridSize.value.1, 1.0, 10.0), "grid_size.1", None)
  }

  /** All issues: the field checks, then the refinement (which still runs
      after a failed bound, as such failures do not abort parsing). */
  function ValidationIssues(v: FormValues, protocolOf: string -> Option<string>): seq<Issue> {
    FieldIssues(v) + RefineIssues(v.platform, v.videoUrl, protocolOf)
  }

  /** What valid fields are, stated field by field. */
  predicate FieldsValid(v: FormValues) {
    && v.platform != "" && v.modelName != "" && v.style != ""
    && (v.videoInterval.Some? ==> 1.0 <= v.videoInterval.value <= 30.0)
    && (v.gridSize.Some? ==> 1.0 <= v.gridSize.value.0 <= 10.0 && 1.0 <= v.gridSize.value.1 <= 10.0)
  }

  /** What a valid link is: a non-empty path for local platforms, otherwise an
      http(s) URL. */
  predicate UrlValid(platform: string, videoUrl: Option<string>, protocolOf: string -> Option<string>) {
    if IsLocalPlatform(platform) then Truthy(videoUrl)
    else Truthy(videoUrl) && protocolOf(videoUrl.value) in {Some("http:"), Some("https:")}
  }

  /** What a valid form is. */
  predicate FormValid(v: FormValues, protocolOf: string -> Option<string>) {
    FieldsValid(v) && UrlValid(v.platform, v.videoUrl, protocolOf)
  }

  /** The field checks find nothing exactly when the fields are valid. */
  lemma FieldIssuesEmpty(v: FormValues)
    ensures FieldIssues(v) == [] <==> FieldsValid(v)
  {
    var a := IssueIf(v.platform == "", "platform", Some(PlatformRequired))
      + IssueIf(v.modelName == "", "model_name", Some(ModelRequired))
      + IssueIf(v.style == "", "style", Some(StyleRequired));
    var b := IssueIf(v.videoInterval.Some? && !InRange(v.videoInterval.value, 1.0, 30.0), "video_interval", None);
    var c := IssueIf(v.gridSize.Some? && !InRange(v.gridSize.value.0, 1.0, 10.0), "grid_size.0", None);
    var d := IssueIf(v.gridSize.Some? && !InRange(v.gridSize.value.1, 1.0, 10.0), "grid_size.1", None);
    assert |FieldIssues(v)| == |a| + |b| + |c| + |d|;
  }

  /** The form submits exactly when it is valid; a bad interval or grid
      component is always reported on its own path. */
  lemma ValidationIssuesIff(v: FormValues, protocolOf: string -> Option<string>)
    ensures ValidationIssues(v, protocolOf) == [] <==> FormValid(v, protocolOf)
    ensures v.videoInterval.Some? && !(1.0 <= v.videoInterval.value <= 30.0) ==>
      Issue("video_interval", None) in ValidationIssues(v, protocolOf)
    ensures v.gridSize.Some? && !(1.0 <= v.gridSize.value.0 <= 10.0) ==>
      Issue("grid_size.0", None) in ValidationIssues(v, protocolOf)
    ensures v.gridSize.Some? && !(1.0 <= v.gridSize.value.1 <= 10.0) ==>
      Issue("grid_size.1", None) in ValidationIssues(v, protocolOf)
  {
    var refine := RefineIssues(v.platform, v.videoUrl, protocolOf);
    FieldIssuesEmpty(v);
    assert |ValidationIssues(v, protocolOf)| == |FieldIssues(v)| + |refine|;
    assert Issue("video_interval", None) in FieldIssues(v) ==>
      Issue("video_interval", None) in ValidationIssues(v, protocolOf);
    assert Issue("grid_size.0", None) in FieldIssues(v) ==>
      Issue("grid_size.0", None) in ValidationIssues(v, protocolOf);
    assert Issue("grid_size.1", None) in FieldIssues(v) ==>
      Issue("grid_size.1", None) in ValidationIssues(v, protocolOf);
  }

  // ---------------------------------------------------------------------------
  // Current task, button
  // ---------------------------------------------------------------------------

  /** The current task as the form sees it. */
  datatype Task = Task(id: string, status: Option<string>)

  /** `isGenerating`: the current task's status is neither SUCCESS, FAILED nor
      undefined (which is also what a missing task gives). */
  predicate IsGenerating(current: Option<Task>) {
    current.Some? && current.value.status.Some? &&
    current.value.status.value != "SUCCESS" && current.value.status.value != "FAILED"
  }

  /** `editing`: there is a current task with a non-empty id. */
  predicate Editing(current: Option<Task>) {
    current.Some? && current.value.id != ""
  }

  const LabelGenerating: string := "\U{6B63}\U{5728}\U{751F}\U{6210}\U{2026}"   // 正在生成…
  const LabelRegenerate: string := "\U{91CD}\U{65B0}\U{751F}\U{6210}"          // 重新生成
  const LabelGenerate: string := "\U{751F}\U{6210}\U{7B14}\U{8BB0}"            // 生成笔记

  /** The submit button: its label and whether it is disabled. */
  datatype Button = Button(caption: string, disabled: bool)

  /** `FormButton`: generating beats editing beats the default label; the
      button is disabled exactly while generating. */
  function FormButton(current: Option<Task>): (r: Button)
    ensures r.disabled <==> IsGenerating(current)
    ensures r.caption == LabelGenerating <==> IsGenerating(current)
    ensures r.caption == LabelRegenerate <==> !IsGenerating(current) && Editing(current)
    ensures r.caption == LabelGenerate <==> !IsGenerating(current) && !Editing(current)
  {
    var generating := IsGenerating(current);
    var caption := if generating then LabelGenerating else if Editing(current) then LabelRegenerate else LabelGenerate;
    assert LabelGenerating != LabelRegenerate && LabelGenerating != LabelGenerate && LabelRegenerate != LabelGenerate by {
      assert LabelGenerating[0] != LabelRegenerate[0] && LabelGenerating[0] != LabelGenerate[0];
      assert LabelRegenerate[0] != LabelGenerate[0];
    }
    Button(caption, generating)
  }

  /** Without a current task, or once it has finished, the button is enabled;
      an unknown status counts as still generating. */
  lemma ButtonStates(id: string, s: string)
    ensures !FormButton(None).disabled && FormButton(None).caption == LabelGenerate
    ensures !FormButton(Some(Task(id, Some("SUCCESS")))).disabled
    ensures !FormButton(Some(Task(id, Some("FAILED")))).disabled
    ensures !FormButton(Some(Task(id, None))).disabled
    ensures s != "SUCCESS" && s != "FAILED" ==> FormButton(Some(Task(id, Some(s)))).disabled
  {
  }

  // ---------------------------------------------------------------------------
  // Local files
  // ---------------------------------------------------------------------------

  const AudioExtensions: seq<string> := ["mp3", "wav", "m4a", "aac", "ogg", "flac", "wma", "opus"]

  /** `name.split('.').pop()`: the text after the last '.', or the whole name
      when there is no '.'. */
  function LastPart(name: string): (r: string)
    ensures NoDot(r)
    ensures |r| <= |name| && name[|name| - |r|..] == r
    ensures |r| < |name| ==> name[|name| - |r| - 1] == '.'
    decreases |name|
  {
    if |name| == 0 then ""
    else if name[|name| - 1] == '.' then ""
    else
      var p := LastPart(name[..|name| - 1]);
      LastPartStep(name, p);
      p + [name[|name| - 1]]
  }

  /** Extending the last part of all but the final character by that
      character, when it is not a dot. */
  lemma LastPartStep(name: string, p: string)
    requires |name| > 0 && name[|name| - 1] != '.'
    requires NoDot(p)
    requires |p| <= |name| - 1 && name[..|name| - 1][|name| - 1 - |p|..] == p
    requires |p| < |name| - 1 ==> name[..|name| - 1][|name| - 1 - |p| - 1] == '.'
    ensures NoDot(p + [name[|name| - 1]])
    ensures name[|name| - |p| - 1..] == p + [name[|name| - 1]]
    ensures |p| + 1 < |name| ==> name[|name| - |p| - 2] == '.'
  {
    var init := name[..|name| - 1];
    assert name[|name| - |p| - 1..] == init[|init| - |p|..] + [name[|name| - 1]];
  }

  predicate NoDot(s: string) {
    forall i :: 0 <= i < |s| ==> s[i] != '.'
  }

  /** The last part is what follows the last dot. */
  lemma {:induction false} LastPartAfterDot(stem: string, ext: string)
    requires NoDot(ext)
    ensures LastPart(stem + "." + ext) == ext
    decreases |ext|
  {
    var s := stem + "." + ext;
    if |ext| == 0 {
      assert s[|s| - 1] == '.';
    } else {
      var init := ext[..|ext| - 1];
      assert s[|s| - 1] == ext[|ext| - 1];
      assert s[..|s| - 1] == stem + "." + init;
      assert NoDot(init) by {
        forall i | 0 <= i < |init| ensures init[i] != '.' {
          assert init[i] == ext[i];
        }
      }
      LastPartAfterDot(stem, init);
      assert ext == init + [ext[|ext| - 1]];
    }
  }

  /** A name without a dot is its own last part. */
  lemma {:induction false} LastPartNoDot(s: string)
    requires NoDot(s)
    ensures LastPart(s) == s
    decreases |s|
  {
    if |s| > 0 {
      LastPartNoDot(s[..|s| - 1]);
      assert s == s[..|s| - 1] + [s[|s| - 1]];
    }
  }

  /** `isAudioFile`: the lower-cased last part is a listed audio extension. */
  predicate IsAudioFile(name: string) {
    Lower(LastPart(name)) in AudioExtensions
  }

  /** The upload's platform: "local-audio" for an audio file, else "local". */
  function UploadPlatform(name: string): (r: string)
    ensures IsLocalPlatform(r)
    ensures r == "local-audio" <==> IsAudioFile(name)
  {
    if IsAudioFile(name) then "local-audio" else "local"
  }

  /** Detection ignores the case of the extension. */
  lemma AudioUpperCase()
    ensures IsAudioFile("talk.MP3")
  {
    assert NoDot("MP3");
    LastPartAfterDot("talk", "MP3");
    assert "talk" + "." + "MP3" == "talk.MP3";
    assert Lower("MP3") == "mp3" == AudioExtensions[0];
  }

  /** Only the part after the last dot counts. */
  lemma AudioLastDotOnly()
    ensures !IsAudioFile("talk.mp3.zip")
  {
    assert NoDot("zip");
    LastPartAfterDot("talk.mp3", "zip");
    assert "talk.mp3" + "." + "zip" == "talk.mp3.zip";
    assert Lower("zip") == "zip";
  }

  /** A dot-free name is audio exactly when it names an extension itself. */
  lemma AudioWithoutDot(name: string)
    requires NoDot(name)
    ensures IsAudioFile(name) <==> Lower(name) in AudioExtensions
  {
    LastPartNoDot(name);
  }

  /** A name without a dot is compared whole. */
  lemma AudioBareName()
    ensures IsAudioFile("flac")
  {
    var name := "flac";
    LowerFixed(name);
    assert AudioExtensions[5] == name;
    AudioWithoutDot(name);
  }

  /** After an upload the refinement accepts the form's URL: both upload
      platforms are local and the stored path is non-empty. */
  lemma UploadPassesRefine(name: string, path: string, protocolOf: string -> Option<string>)
    requires path != ""
    ensures RefineIssues(UploadPlatform(name), Some(path), protocolOf) == []
  {
  }

  // ---------------------------------------------------------------------------
  // Format checkboxes
  // ---------------------------------------------------------------------------

  /** `value.filter(x => x !== v)`. */
  function Remove(value: seq<string>, v: string): (r: seq<string>)
    ensures |r| <= |value|
    ensures forall x :: x in r <==> x in value && x != v
    decreases |value|
  {
    if |value| == 0 then []
    else if value[0] == v then Remove(value[1..], v)
    else [value[0]] + Remove(value[1..], v)
  }

  /** The checkbox handler: append on check, drop every copy on uncheck. */
  function Toggle(value: seq<string>, v: string, checked: bool): (r: seq<string>)
    ensures checked ==> r == value + [v]
    ensures !checked ==> v !in r && forall x :: x != v ==> (x in r <==> x in value)
  {
    if checked then value + [v] else Remove(value, v)
  }

  /** Removing a value that is absent keeps the list as it is. */
  lemma {:induction false} RemoveAbsent(value: seq<string>, v: string)
    requires v !in value
    ensures Remove(value, v) == value
    decreases |value|
  {
    if |value| > 0 {
      assert value[1..] == value[1..];
      assert v !in value[1..] by {
        forall x | x in value[1..] ensures x != v {
          assert x in value;
        }
      }
      RemoveAbsent(value[1..], v);
      assert value == [value[0]] + value[1..];
    }
  }

  /** Removal distributes over concatenation. */
  lemma {:induction false} RemoveAppend(a: seq<string>, b: seq<string>, v: string)
    ensures Remove(a + b, v) == Remove(a, v) + Remove(b, v)
    decreases |a|
  {
    if |a| == 0 {
      assert a + b == b;
    } else {
      assert (a + b)[1..] == a[1..] + b;
      assert (a + b)[0] == a[0];
      RemoveAppend(a[1..], b, v);
    }
  }

  /** Checking then unchecking a box is the same as unchecking it, and
      unchecking twice is unchecking once. */
  lemma ToggleOnOff(value: seq<string>, v: string)
    ensures Toggle(Toggle(value, v, true), v, false) == Toggle(value, v, false)
    ensures Toggle(Toggle(value, v, false), v, false) == Toggle(value, v, false)
  {
    RemoveAppend(value, [v], v);
    assert Remove([v], v) == [];
    RemoveAbsent(Remove(value, v), v);
  }

  // ---------------------------------------------------------------------------
  // Submission
  // ---------------------------------------------------------------------------

  /** An entry of the enabled-model list. */
  datatype ModelEntry = ModelEntry(modelName: string, providerId: string)

  /** The payload sent to the back end: the form values, the back-end
      platform, the model's provider and the task id. */
  datatype Payload = Payload(values: FormValues, platform: string, providerId: string, taskId: string)

  /** The submit payload: "local-audio" is sent as "local", and the task id is
      the current one or "". */
  function SubmitPayload(values: FormValues, providerId: string, currentTaskId: Option<string>): (p: Payload)
    ensures p.values == values && p.providerId == providerId
    ensures p.platform != "local-audio"
    ensures values.platform != "local-audio" ==> p.platform == values.platform
    ensures values.platform == "local-audio" ==> p.platform == "local"
    ensures p.taskId == if Truthy(currentTaskId) then currentTaskId.value else ""
  {
    Payload(values, if values.platform == "local-audio" then "local" else values.platform, providerId,
            if Truthy(currentTaskId) then currentTaskId.value else "")
  }

  /** `modelList.find(m => m.model_name === name)`. */
  function FindModel(models: seq<ModelEntry>, name: string): (r: Option<ModelEntry>)
    ensures r.Some? ==> r.value in models && r.value.modelName == name
    ensures r.None? ==> forall i :: 0 <= i < |models| ==> models[i].modelName != name
    ensures r.Some? ==> exists i :: FirstWithName(models, name, r.value, i)
    decreases |models|
  {
    if |models| == 0 then None
    else if models[0].modelName == name then
      assert FirstWithName(models, name, models[0], 0);
      Some(models[0])
    else
      var r := FindModel(models[1..], name);
      FindModelShift(models, name, r);
      r
  }

  /** Entry `e` sits at `i` and no earlier entry carries the name. */
  predicate FirstWithName(models: seq<ModelEntry>, name: string, e: ModelEntry, i: int) {
    0 <= i < |models| && models[i] == e && forall j :: 0 <= j < i ==> models[j].modelName != name
  }

  /** A first match in the tail, behind a head with another name, is a first
      match in the whole list. */
  lemma FindModelShift(models: seq<ModelEntry>, name: string, r: Option<ModelEntry>)
    requires |models| > 0 && models[0].modelName != name
    requires r.Some? ==> exists i :: FirstWithName(models[1..], name, r.value, i)
    ensures r.Some? ==> exists i :: FirstWithName(models, name, r.value, i)
  {
    if r.Some? {
      var i :| FirstWithName(models[1..], name, r.value, i);
      assert models[i + 1] == r.value;
      forall j | 0 <= j < i + 1 ensures models[j].modelName != name {
        if j > 0 {
          assert models[j] == models[1..][j - 1];
        }
      }
      assert FirstWithName(models, name, r.value, i + 1);
    }
  }

  /** When several entries carry the name, the first one is used: its provider
      is the one the payload names. */
  lemma {:induction false} FindModelFirst(models: seq<ModelEntry>, name: string, i: nat)
    requires i < |models| && models[i].modelName == name
    requires forall j :: 0 <= j < i ==> models[j].modelName != name
    ensures FindModel(models, name) == Some(models[i])
    decreases i
  {
    if i > 0 {
      assert models[1..][i - 1] == models[i];
      forall j | 0 <= j < i - 1 ensures models[1..][j].modelName != name {
        assert models[1..][j] == models[j + 1];
      }
      FindModelFirst(models[1..], name, i - 1);
    }
  }

  /** What `generateNote` produced: it threw, returned a falsy value, a
      non-empty string, or an object with or without a truthy `task_id`. */
  datatype Reply = Threw | Falsy | TextReply(text: string) | ObjectReply(taskId: Option<string>)

  /** The key handed to `addPendingTask`: a string, or the reply object itself. */
  datatype PendingKey = KeyText(key: string) | KeyObject

  /** A call the form makes into the store or the note service. */
  datatype Call =
    | RetryTask(id: string, payload: Payload)
    | GenerateNote(payload: Payload)
    | AddPendingTask(key: PendingKey, platform: string, payload: Payload)

  /** `(response as any).task_id || response`, for a truthy response. */
  function ExtractKey(reply: Reply): Option<PendingKey> {
    match reply
    case Threw => None
    case Falsy => None
    case TextReply(t) => if t == "" then None else Some(KeyText(t))
    case ObjectReply(id) => if Truthy(id) then Some(KeyText(id.value)) else Some(KeyObject)
  }

  /** `onSubmit`: the calls made, in order. A model name missing from the list
      makes the non-null assertion fail before any call. */
  function OnSubmit(values: FormValues, models: seq<ModelEntry>, currentTaskId: Option<string>,
                    reply: Reply): (r: seq<Call>)
    ensures FindModel(models, values.modelName).None? ==> r == []
    ensures FindModel(models, values.modelName).Some? ==>
      var p := SubmitPayload(values, FindModel(models, values.modelName).value.providerId, currentTaskId);
      && (Truthy(currentTaskId) ==> r == [RetryTask(currentTaskId.value, p)])
      && (!Truthy(currentTaskId) ==>
            && 1 <= |r| <= 2 && r[0] == GenerateNote(p)
            && (|r| == 2 <==> ExtractKey(reply).Some?)
            && (|r| == 2 ==> r[1] == AddPendingTask(ExtractKey(reply).value, values.platform, p)))
  {
    match FindModel(models, values.modelName)
    case None => []
    case Some(m) =>
      var payload := SubmitPayload(values, m.providerId, currentTaskId);
      if Truthy(currentTaskId) then [RetryTask(currentTaskId.value, payload)]
      else
        match ExtractKey(reply)
        case None => [GenerateNote(payload)]
        case Some(key) => [GenerateNote(payload), AddPendingTask(key, values.platform, payload)]
  }

  /** With a current task nothing is generated; without one, a pending task
      is registered under the reply's id and the platform as the user chose it,
      even though the payload says "local". */
  lemma SubmitBranches(values: FormValues, models: seq<ModelEntry>, id: string, reply: Reply, m: ModelEntry)
    requires FindModel(models, values.modelName) == Some(m)
    ensures id != "" ==> forall c :: c in OnSubmit(values, models, Some(id), reply) ==> !c.GenerateNote?
    ensures values.platform == "local-audio" && ExtractKey(reply).Some? ==>
      var calls := OnSubmit(values, models, None, reply);
      |calls| == 2 && calls[1].AddPendingTask? && calls[1].key == ExtractKey(reply).value &&
      calls[1].platform == "local-audio" && calls[1].payload.platform == "local"
  {
  }
}
