/** Prompt assembly of the universal GPT client (backend/app/gpt/universal_gpt.py):
    the timestamp rendering, the transcript block, segment normalisation, the
    vision-model test, and the chat message built from them. The prompt template
    itself (`generate_base_prompt`) lives elsewhere and is a parameter here. */
module PromptAssembly {
  import opened Common
  import opened Strings

  // ---------------------------------------------------------------------------
  // Time formatting: str(timedelta(seconds=int(seconds)))[2:]
  // ---------------------------------------------------------------------------

  const SecondsPerDay: int := 86400

  /** Python's `str(timedelta(seconds=total))`: "H:MM:SS", preceded by
      "N day, " / "N days, " when the day count (floored, so negative for
      negative totals) is not zero. */
  function TimedeltaString(total: int): (r: string)
    ensures |r| >= 7
  {
    var days := total / SecondsPerDay;
    var rem := total % SecondsPerDay;
    var clock := NatToString(rem / 3600) + ":" + Pad2(rem % 3600 / 60) + ":" + Pad2(rem % 60);
    if days == 0 then clock
    else IntToString(days) + (if days == 1 || days == -1 then " day, " else " days, ") + clock
  }

  /** `_format_time`: the timedelta rendering of the truncated seconds with its
      first two characters dropped. */
  function FormatTime(seconds: real): string {
    TimedeltaString(Trunc(seconds))[2..]
  }

  /** Below ten hours the rendering is exactly "MM:SS": the single hour digit
      and its colon are what the slice removes. */
  lemma FormatTimeUnderTenHours(seconds: real)
    requires 0 <= Trunc(seconds) < 36000
    ensures var n := Trunc(seconds);
      FormatTime(seconds) == Pad2(n % 3600 / 60) + ":" + Pad2(n % 60)
    ensures |FormatTime(seconds)| == 5
  {
    var n := Trunc(seconds);
    assert n / SecondsPerDay == 0 && n % SecondsPerDay == n;
    assert |NatToString(n / 3600)| == 1;
    var tail := Pad2(n % 3600 / 60) + ":" + Pad2(n % 60);
    assert TimedeltaString(n) == NatToString(n / 3600) + ":" + tail;
    assert (NatToString(n / 3600) + ":" + tail)[2..] == tail;
  }

  /** The hour is lost: below ten hours, whole hours make no difference
      (so 61 and 3661 seconds render identically). */
  lemma FormatTimeDropsHours(n: int)
    requires 0 <= n < 36000
    ensures FormatTime(n as real) == FormatTime((n % 3600) as real)
  {
    var m := n % 3600;
    HourRemainders(n);
    assert Trunc(n as real) == n && Trunc(m as real) == m;
    FormatTimeUnderTenHours(n as real);
    FormatTimeUnderTenHours(m as real);
  }

  lemma HourRemainders(n: int)
    requires 0 <= n
    ensures (n % 3600) % 3600 / 60 == n % 3600 / 60
    ensures (n % 3600) % 60 == n % 60
  {
    var q := n / 3600;
    var m := n % 3600;
    assert n == 60 * (60 * q + m / 60) + m % 60;
  }

  // ---------------------------------------------------------------------------
  // Segments
  // ---------------------------------------------------------------------------

  /** A `TranscriptSegment`. */
  datatype TranscriptSegment = TranscriptSegment(start: real, end: real, text: string)

  /** One transcript line: "time - stripped text". */
  function Line(seg: TranscriptSegment): string {
    FormatTime(seg.start) + " - " + Strip(seg.text)
  }

  function Lines(segs: seq<TranscriptSegment>): (r: seq<string>)
    ensures |r| == |segs| && forall i :: 0 <= i < |segs| ==> r[i] == Line(segs[i])
  {
    seq(|segs|, i requires 0 <= i < |segs| => Line(segs[i]))
  }

  /** `_build_segment_text`: the lines of the segments joined by newlines. */
  function BuildSegmentText(segs: seq<TranscriptSegment>): string {
    Join(Lines(segs), "\n")
  }

  /** The transcript block is built segment by segment: no segment gives the
      empty text, one segment gives its line, and consecutive runs of segments
      are glued with exactly one newline. */
  lemma BuildSegmentTextShape(a: seq<TranscriptSegment>, b: seq<TranscriptSegment>)
    ensures BuildSegmentText([]) == ""
    ensures |a| == 1 ==> BuildSegmentText(a) == Line(a[0])
    ensures |a| > 0 && |b| > 0 ==>
      BuildSegmentText(a + b) == BuildSegmentText(a) + "\n" + BuildSegmentText(b)
  {
    if |a| > 0 && |b| > 0 {
      assert Lines(a + b) == Lines(a) + Lines(b);
      JoinConcat(Lines(a), Lines(b), "\n");
    }
  }

  /** Each line starts with the timestamp and " - ", and its text carries no
      leading or trailing whitespace. */
  lemma LineShape(seg: TranscriptSegment)
    ensures StartsWith(Line(seg), FormatTime(seg.start) + " - ")
    ensures var body := Line(seg)[|FormatTime(seg.start)| + 3..];
      body == [] || (!IsSpace(body[0]) && !IsSpace(body[|body| - 1]))
  {
    var head := FormatTime(seg.start) + " - ";
    assert Line(seg) == head + Strip(seg.text);
    assert Line(seg)[..|head|] == head;
    assert Line(seg)[|head|..] == Strip(seg.text);
  }

  /** A segment as `summarize` may receive it: a plain dictionary or an
      already-built `TranscriptSegment`. */
  datatype SegmentItem = AsDict(start: real, end: real, text: string) | AsObject(seg: TranscriptSegment)

  /** `ensure_segments_type`: build segments from dictionaries, pass the rest through. */
  function EnsureSegmentsType(items: seq<SegmentItem>): (r: seq<TranscriptSegment>)
    ensures |r| == |items|
    ensures forall i :: 0 <= i < |items| && items[i].AsObject? ==> r[i] == items[i].seg
    ensures forall i :: 0 <= i < |items| && items[i].AsDict? ==>
      r[i] == TranscriptSegment(items[i].start, items[i].end, items[i].text)
    decreases |items|
  {
    if |items| == 0 then []
    else
      var head := match items[0]
        case AsDict(s, e, t) => TranscriptSegment(s, e, t)
        case AsObject(seg) => seg;
      [head] + EnsureSegmentsType(items[1..])
  }

  /** Normalising already-normalised segments changes nothing. */
  lemma EnsureSegmentsTypeIdempotent(items: seq<SegmentItem>)
    ensures var once := EnsureSegmentsType(items);
      EnsureSegmentsType(seq(|once|, i requires 0 <= i < |once| => AsObject(once[i]))) == once
  {
  }

  // ---------------------------------------------------------------------------
  // Vision support
  // ---------------------------------------------------------------------------

  const VisionPatterns: seq<string> := [
    "gpt-4o", "gpt-4-vision", "gpt-4-turbo", "claude-3", "gemini", "qwen-vl",
    "llava", "vision", "multimodal", "vlm", "qwen2-vl", "glm-4v"
  ]

  /** Does `name` contain one of `patterns`? */
  function MatchesAny(name: string, patterns: seq<string>): (r: bool)
    ensures r <==> exists i :: 0 <= i < |patterns| && Contains(name, patterns[i])
    decreases |patterns|
  {
    if |patterns| == 0 then false
    else if Contains(name, patterns[0]) then true
    else
      var rest := MatchesAny(name, patterns[1..]);
      assert forall i :: 1 <= i < |patterns| ==> patterns[i] == patterns[1..][i - 1];
      rest
  }

  /** `_model_supports_vision`: false without a model name, otherwise whether
      the lower-cased name contains a vision pattern. */
  function ModelSupportsVision(model: Option<string>): (r: bool)
    ensures r <==> (Truthy(model) &&
      exists i :: 0 <= i < |VisionPatterns| && Contains(Lower(model.value), VisionPatterns[i]))
  {
    if !Truthy(model) then false else MatchesAny(Lower(model.value), VisionPatterns)
  }

  /** Examples: detection ignores case and needs only a substring. */
  lemma VisionExamples()
    ensures ModelSupportsVision(Some("GPT-4o-mini"))
    ensures ModelSupportsVision(Some("qwen-VL-max"))
    ensures !ModelSupportsVision(Some(""))
    ensures !ModelSupportsVision(None)
  {
    assert Lower("GPT-4o-mini") == "gpt-4o-mini";
    assert StartsWith("gpt-4o-mini", VisionPatterns[0]);
    assert Lower("qwen-VL-max") == "qwen-vl-max";
    assert StartsWith("qwen-vl-max", VisionPatterns[5]);
  }

  // ---------------------------------------------------------------------------
  // Messages
  // ---------------------------------------------------------------------------

  datatype ContentItem = TextPart(text: string) | ImagePart(url: string, detail: string)

  datatype Message = Message(role: string, content: seq<ContentItem>)

  /** `create_messages`: `basePrompt` is the prompt template applied to the
      transcript block (the other template arguments are fixed by the caller). */
  function CreateMessages(segments: seq<TranscriptSegment>, basePrompt: string -> string,
                          urls: seq<string>, model: Option<string>): (r: seq<Message>)
    ensures |r| == 1 && r[0].role == "user"
    ensures |r[0].content| >= 1 && r[0].content[0] == TextPart(basePrompt(BuildSegmentText(segments)))
    ensures ModelSupportsVision(model) ==>
      |r[0].content| == 1 + |urls| &&
      forall i :: 0 <= i < |urls| ==> r[0].content[i + 1] == ImagePart(urls[i], "auto")
    ensures !ModelSupportsVision(model) ==>
      |r[0].content| == 1 && forall i :: 0 <= i < |r[0].content| ==> !r[0].content[i].ImagePart?
  {
    var text := basePrompt(BuildSegmentText(segments));
    var images := if |urls| > 0 && !ModelSupportsVision(model) then [] else urls;
    var content := [TextPart(text)] + seq(|images|, i requires 0 <= i < |images| => ImagePart(images[i], "auto"));
    [Message("user", content)]
  }
}
