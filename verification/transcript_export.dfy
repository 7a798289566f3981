/** The transcript viewer's text renderings
    (BillNote_frontend/src/pages/HomePage/components/transcriptViewer.tsx):
    `formatTime`, the three download formats, the download file name and the
    footer's total duration. Seconds are JavaScript numbers, modelled as `real`. */
module TranscriptExport {
  import opened Common
  import opened Strings

  /** A transcript segment as the viewer receives it. */
  datatype Segment = Segment(start: real, end: real, text: string, speaker: Option<string>)

  /** JavaScript's `x % m`: the remainder of truncating division (sign of `x`). */
  function JsRem(x: real, m: real): real
    requires m > 0.0
  {
    x - m * Trunc(x / m) as real
  }

  /** `formatTime`: `Math.floor(s / 60)`, a colon, and `Math.floor(s % 60)`
      left-padded with "0" to two characters. */
  function FormatTime(seconds: real): string {
    var mins := (seconds / 60.0).Floor;
    var secs := JsRem(seconds, 60.0).Floor;
    IntToString(mins) + ":" + PadStart(IntToString(secs), 2, '0')
  }

  /** The displayed time reads back: the text is the minutes' digits, ":" and
      two digits, which read back as the whole minutes and the remaining seconds. */
  lemma FormatTimeReadsBack(seconds: real)
    requires seconds >= 0.0
    ensures var n := seconds.Floor;
      var m := NatToString(n / 60);
      var p := Pad2(n % 60);
      && FormatTime(seconds) == m + ":" + p
      && DigitsValue(m) == n / 60
      && DigitsValue(p) == n % 60
  {
    FormatTimeNonNegative(seconds);
    NatToStringRoundTrip(seconds.Floor / 60);
    Pad2Value(seconds.Floor % 60);
  }

  /** Two padded digits read back as the number. */
  lemma Pad2Value(x: nat)
    requires x < 100
    ensures DigitsValue(Pad2(x)) == x
  {
    var p := Pad2(x);
    assert p[..1][..0] == [];
    assert p[..|p| - 1] == p[..1];
    assert DigitsValue(p[..1]) == x / 10;
  }

  /** For a non-negative time the rendering is "minutes:SS" of the whole seconds,
      with the seconds part always in 00..59. */
  lemma FormatTimeNonNegative(seconds: real)
    requires seconds >= 0.0
    ensures 0 <= JsRem(seconds, 60.0).Floor <= 59
    ensures var n := seconds.Floor;
      FormatTime(seconds) == NatToString(n / 60) + ":" + Pad2(n % 60)
  {
    var n := seconds.Floor;
    var q := n / 60;
    var r := n % 60;
    assert n == 60 * q + r && 0 <= r < 60;
    assert n as real <= seconds < n as real + 1.0;
    assert q as real <= seconds / 60.0 < q as real + 1.0;
    assert (seconds / 60.0).Floor == q;
    assert Trunc(seconds / 60.0) == q;
    var rem := JsRem(seconds, 60.0);
    assert rem == seconds - 60.0 * q as real;
    assert r as real <= rem < r as real + 1.0;
    assert rem.Floor == r;
  }

  /** The download text of one segment in a given display format. */
  function Piece(seg: Segment, format: string): string {
    if format == "text" then seg.text
    else if format == "markdown" then "## " + FormatTime(seg.start) + "\n\n" + seg.text
    else FormatTime(seg.start) + " - " + seg.text
  }

  function Pieces(segs: seq<Segment>, format: string): (r: seq<string>)
    ensures |r| == |segs| && forall i :: 0 <= i < |segs| ==> r[i] == Piece(segs[i], format)
  {
    seq(|segs|, i requires 0 <= i < |segs| => Piece(segs[i], format))
  }

  /** `generateContent`: nothing without segments, otherwise the pieces joined by
      a blank line. "timestamp" and any unknown format share the default case. */
  function GenerateContent(segments: Option<seq<Segment>>, format: string): string {
    if segments.None? then "" else Join(Pieces(segments.value, format), "\n\n")
  }

  /** The content is assembled segment by segment: empty without segments, one
      piece per segment, and consecutive runs separated by exactly one blank line. */
  lemma GenerateContentShape(a: seq<Segment>, b: seq<Segment>, format: string)
    ensures GenerateContent(None, format) == "" && GenerateContent(Some([]), format) == ""
    ensures |a| == 1 ==> GenerateContent(Some(a), format) == Piece(a[0], format)
    ensures |a| > 0 && |b| > 0 ==>
      GenerateContent(Some(a + b), format) ==
      GenerateContent(Some(a), format) + "\n\n" + GenerateContent(Some(b), format)
  {
    if |a| > 0 && |b| > 0 {
      assert Pieces(a + b, format) == Pieces(a, format) + Pieces(b, format);
      JoinConcat(Pieces(a, format), Pieces(b, format), "\n\n");
    }
  }

  /** The three renderings of one segment. */
  lemma PieceFormats(seg: Segment, format: string)
    ensures Piece(seg, "text") == seg.text
    ensures Piece(seg, "markdown") == "## " + FormatTime(seg.start) + "\n\n" + seg.text
    ensures format != "text" && format != "markdown" ==>
      Piece(seg, format) == Piece(seg, "timestamp") == FormatTime(seg.start) + " - " + seg.text
  {
  }

  /** Speaker labels never reach the downloaded text: rewriting every speaker
      leaves the content unchanged. */
  lemma ContentIgnoresSpeakers(segs: seq<Segment>, speakers: seq<Option<string>>, format: string)
    requires |speakers| == |segs|
    ensures var relabelled := seq(|segs|, i requires 0 <= i < |segs| => segs[i].(speaker := speakers[i]));
      GenerateContent(Some(relabelled), format) == GenerateContent(Some(segs), format)
  {
    var relabelled := seq(|segs|, i requires 0 <= i < |segs| => segs[i].(speaker := speakers[i]));
    assert Pieces(relabelled, format) == Pieces(segs, format);
  }

  /** The download file extension. */
  function DownloadExtension(format: string): (ext: string)
    ensures ext == "md" <==> format == "markdown"
    ensures ext == "md" || ext == "txt"
  {
    if format == "markdown" then "md" else "txt"
  }

  /** `formatNames[displayFormat]`; an unknown key renders as "undefined". */
  function FormatName(format: string): string {
    if format == "timestamp" then "\U{65F6}\U{95F4}\U{6233}"
    else if format == "text" then "\U{7EAF}\U{6587}\U{672C}"
    else if format == "markdown" then "Markdown"
    else "undefined"
  }

  /** A download: file name and content. */
  datatype Download = Download(filename: string, content: string)

  /** `handleDownload`: nothing without segments; otherwise a file named
      "transcript_<format name>_<date>.<ext>", where `isoNow` is the current time
      in ISO form (only its first ten characters, the date, are used). */
  function HandleDownload(segments: Option<seq<Segment>>, format: string, isoNow: string): (r: Option<Download>)
    ensures r.None? <==> segments.None?
    ensures r.Some? ==> r.value.content == GenerateContent(segments, format)
    ensures r.Some? ==> StartsWith(r.value.filename, "transcript_")
    ensures r.Some? ==> var name := r.value.filename; var ext := DownloadExtension(format);
      |name| > |ext| && name[|name| - |ext| - 1..] == "." + ext
  {
    if segments.None? then None
    else
      var date := if |isoNow| <= 10 then isoNow else isoNow[..10];
      var name := "transcript_" + FormatName(format) + "_" + date + "." + DownloadExtension(format);
      assert name[..11] == "transcript_";
      Some(Download(name, GenerateContent(segments, format)))
  }

  /** The footer's total duration: shown only for a non-empty segment list, as
      the formatted end of the last segment (`end || 0` equals `end` for numbers). */
  function FooterDuration(segments: Option<seq<Segment>>): Option<string> {
    if segments.None? || |segments.value| == 0 then None
    else Some(FormatTime(segments.value[|segments.value| - 1].end))
  }

  /** The footer reads "minutes:SS" of the last segment's end. */
  lemma FooterIsLastEnd(segs: seq<Segment>)
    requires |segs| > 0 && segs[|segs| - 1].end >= 0.0
    ensures var n := segs[|segs| - 1].end.Floor;
      FooterDuration(Some(segs)) == Some(NatToString(n / 60) + ":" + Pad2(n % 60))
    ensures FooterDuration(None).None? && FooterDuration(Some([])).None?
  {
    FormatTimeNonNegative(segs[|segs| - 1].end);
  }
}
