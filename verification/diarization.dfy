/** Speaker diarization (backend/app/services/speaker_diarization.py): the result
    container and its interval lookup, the fixed Whisper stub, the 30-second mock,
    the method dispatcher, and the merge of transcript segments with speakers.
    Times are seconds as `real`; audio files are replaced by the durations read
    from them. */
module Diarization {
  import opened Common
  import opened Strings

  /** One `{'start', 'end', 'speaker'}` entry of a diarization result. */
  datatype SpeakerSegment = SpeakerSegment(start: real, end: real, speaker: string)

  /** Both bounds are inclusive. */
  predicate Covers(seg: SpeakerSegment, t: real) {
    seg.start <= t <= seg.end
  }

  /** `SpeakerDiarizationResult`: segments in insertion order. */
  datatype DiarizationResult = DiarizationResult(segments: seq<SpeakerSegment>) {

    /** `add_segment`: append one segment at the end, keeping the others. */
    function AddSegment(start: real, end: real, speaker: string): (r: DiarizationResult)
      ensures |r.segments| == |segments| + 1
      ensures r.segments[..|segments|] == segments
      ensures r.segments[|segments|] == SpeakerSegment(start, end, speaker)
    {
      DiarizationResult(segments + [SpeakerSegment(start, end, speaker)])
    }

    /** `get_speaker_at_time`: the speaker of the first covering segment. */
    function SpeakerAt(t: real): Option<string> {
      FirstCovering(segments, t)
    }
  }

  const Empty := DiarizationResult([])

  function FirstCovering(segs: seq<SpeakerSegment>, t: real): Option<string>
    decreases |segs|
  {
    if |segs| == 0 then None
    else if Covers(segs[0], t) then Some(segs[0].speaker)
    else FirstCovering(segs[1..], t)
  }

  /** The lookup answers with the speaker of the covering segment of least index. */
  lemma {:induction false} SpeakerAtIsFirstMatch(d: DiarizationResult, t: real, i: int)
    requires 0 <= i < |d.segments| && Covers(d.segments[i], t)
    requires forall j :: 0 <= j < i ==> !Covers(d.segments[j], t)
    ensures d.SpeakerAt(t) == Some(d.segments[i].speaker)
    decreases i
  {
    if i > 0 {
      var rest := DiarizationResult(d.segments[1..]);
      SpeakerAtIsFirstMatch(rest, t, i - 1);
    }
  }

  /** The lookup answers None exactly when no segment covers the time. */
  lemma {:induction false} SpeakerAtNone(d: DiarizationResult, t: real)
    ensures d.SpeakerAt(t).None? <==> forall j :: 0 <= j < |d.segments| ==> !Covers(d.segments[j], t)
    decreases |d.segments|
  {
    if |d.segments| > 0 {
      var rest := DiarizationResult(d.segments[1..]);
      SpeakerAtNone(rest, t);
      assert forall j :: 1 <= j < |d.segments| ==> d.segments[j] == rest.segments[j - 1];
    }
  }

  // ---------------------------------------------------------------------------
  // Diarizers
  // ---------------------------------------------------------------------------

  /** `WhisperDiarizationService.diarize`: a stub that ignores its audio. */
  function WhisperDiarize(): (r: DiarizationResult)
    ensures |r.segments| == 3
  {
    Empty.AddSegment(0.0, 30.0, "SPEAKER_00")
         .AddSegment(30.0, 60.0, "SPEAKER_01")
         .AddSegment(60.0, 90.0, "SPEAKER_00")
  }

  /** Lookups in the stub: on the shared boundaries 30 and 60 the earlier
      segment wins, and outside [0, 90] nobody speaks. */
  lemma WhisperSpeakers(t: real)
    ensures 0.0 <= t <= 30.0 ==> WhisperDiarize().SpeakerAt(t) == Some("SPEAKER_00")
    ensures 30.0 < t <= 60.0 ==> WhisperDiarize().SpeakerAt(t) == Some("SPEAKER_01")
    ensures 60.0 < t <= 90.0 ==> WhisperDiarize().SpeakerAt(t) == Some("SPEAKER_00")
    ensures (t < 0.0 || t > 90.0) ==> WhisperDiarize().SpeakerAt(t) == None
  {
    var d := WhisperDiarize();
    assert d.segments == [SpeakerSegment(0.0, 30.0, "SPEAKER_00"),
                          SpeakerSegment(30.0, 60.0, "SPEAKER_01"),
                          SpeakerSegment(60.0, 90.0, "SPEAKER_00")];
    var s1 := d.segments[1..];
    assert s1 == [SpeakerSegment(30.0, 60.0, "SPEAKER_01"), SpeakerSegment(60.0, 90.0, "SPEAKER_00")];
    var s2 := s1[1..];
    assert s2 == [SpeakerSegment(60.0, 90.0, "SPEAKER_00")];
    assert s2[1..] == [];
    assert FirstCovering(s2[1..], t) == None;
    assert FirstCovering(s2, t) == if 60.0 <= t <= 90.0 then Some("SPEAKER_00") else None;
    assert FirstCovering(s1, t) == if 30.0 <= t <= 60.0 then Some("SPEAKER_01") else FirstCovering(s2, t);
    assert d.SpeakerAt(t) == if 0.0 <= t <= 30.0 then Some("SPEAKER_00") else FirstCovering(s1, t);
  }

  /** Duration used when the audio length cannot be read. */
  const MockDefaultDuration: real := 300.0

  /** Length of one mock turn, in seconds. */
  const MockTurn: int := 30

  /** Speakers of the mock alternate, starting with "speaker0". */
  function MockSpeaker(k: nat): string {
    if k % 2 == 0 then "speaker0" else "speaker1"
  }

  /** Python's `min(a, b)`: `b` only when it is strictly smaller. */
  function MinReal(a: real, b: real): real {
    if b < a then b else a
  }

  /** The k-th segment of the mock on duration `d`. */
  function MockSegment(k: nat, d: real): SpeakerSegment {
    SpeakerSegment((MockTurn * k) as real, MinReal((MockTurn * k + MockTurn) as real, d), MockSpeaker(k))
  }

  /** Number of values of `range(0, int(d), 30)`. */
  function MockCount(d: real): nat {
    var n := Trunc(d);
    if n <= 0 then 0 else (n + MockTurn - 1) / MockTurn
  }

  /** `MockSpeakerDiarization.diarize`: `duration` is the length read from the
      audio file, or None when reading it failed. */
  method MockDiarize(duration: Option<real>) returns (r: DiarizationResult)
    ensures var d := duration.GetOr(MockDefaultDuration);
      |r.segments| == MockCount(d) &&
      forall k :: 0 <= k < |r.segments| ==> r.segments[k] == MockSegment(k, d)
  {
    var d := duration.GetOr(MockDefaultDuration);
    var n := Trunc(d);
    r := Empty;
    var speaker := "speaker0";
    var i := 0;
    var k := 0;
    while i < n
      invariant i == MockTurn * k
      invariant k > 0 ==> MockTurn * (k - 1) < n
      invariant |r.segments| == k
      invariant forall j :: 0 <= j < k ==> r.segments[j] == MockSegment(j, d)
      invariant speaker == MockSpeaker(k)
      decreases n - i
    {
      var endTime := MinReal((i + MockTurn) as real, d);
      r := r.AddSegment(i as real, endTime, speaker);
      speaker := if speaker == "speaker0" then "speaker1" else "speaker0";
      i := i + MockTurn;
      k := k + 1;
    }
    if n > 0 {
      MockCountExact(n, k);
    }
  }

  /** `range(0, n, 30)` with n > 0 has k values exactly when the k-th would
      start at or after n and the one before it does not. */
  lemma MockCountExact(n: int, k: nat)
    requires n > 0 && k > 0 && MockTurn * (k - 1) < n <= MockTurn * k
    ensures k == (n + MockTurn - 1) / MockTurn
  {
  }

  /** Consecutive mock segments touch: each turn ends where the next begins. */
  lemma MockTiles(d: real, k: nat)
    requires k + 1 < MockCount(d)
    ensures MockSegment(k, d).end == MockSegment(k + 1, d).start
  {
    var n := Trunc(d);
    assert MockTurn * (k + 1) < n;
  }

  // ---------------------------------------------------------------------------
  // Dispatcher
  // ---------------------------------------------------------------------------

  datatype Service = WhisperService | PyAnnoteService | MockService

  /** The method name the dispatcher acts on: the argument, else the
      SPEAKER_DIARIZATION_METHOD environment value, else "whisper"; lower-cased. */
  function MethodName(requested: Option<string>, env: Option<string>): string {
    Lower(if requested.Some? then requested.value else env.GetOr("whisper"))
  }

  /** `get_speaker_diarization_service`; `pyannoteAvailable` is whether the
      pyannote pipeline could be loaded. */
  function ServiceFor(requested: Option<string>, env: Option<string>, pyannoteAvailable: bool): (r: Option<Service>)
    ensures var name := MethodName(requested, env);
      && (r == Some(WhisperService) <==> name == "whisper")
      && (r == Some(MockService) <==> name == "mock")
      && (r == Some(PyAnnoteService) <==> name == "pyannote" && pyannoteAvailable)
      && (r.None? <==> (name != "whisper" && name != "mock" && (name != "pyannote" || !pyannoteAvailable)))
  {
    var name := MethodName(requested, env);
    if name == "whisper" then Some(WhisperService)
    else if name == "pyannote" then (if pyannoteAvailable then Some(PyAnnoteService) else None)
    else if name == "mock" then Some(MockService)
    else None
  }

  /** The dispatcher ignores letter case, an explicit method overrides the
      environment, and with neither it picks Whisper. */
  lemma ServiceForProperties(m: string, e1: Option<string>, e2: Option<string>, a: bool)
    ensures ServiceFor(Some(m), e1, a) == ServiceFor(Some(Lower(m)), e2, a)
    ensures ServiceFor(None, None, a) == Some(WhisperService)
  {
    LowerIdempotent(m);
    assert Lower("whisper") == "whisper";
  }

  // ---------------------------------------------------------------------------
  // Merge
  // ---------------------------------------------------------------------------

  /** A transcript segment as a dictionary: any key may be missing. */
  datatype TranscriptEntry = TranscriptEntry(start: Option<real>, end: Option<real>, text: Option<string>)

  /** A merged segment; `speaker` is None when the key is absent. */
  datatype MergedSegment = MergedSegment(start: real, end: real, text: string, speaker: Option<string>)

  function Midpoint(e: TranscriptEntry): real {
    (e.start.GetOr(0.0) + e.end.GetOr(0.0)) / 2.0
  }

  function MergeOne(e: TranscriptEntry, d: DiarizationResult): MergedSegment {
    var speaker := d.SpeakerAt(Midpoint(e));
    MergedSegment(e.start.GetOr(0.0), e.end.GetOr(0.0), e.text.GetOr(""),
                  if Truthy(speaker) then speaker else None)
  }

  /** `merge_transcription_with_diarization`: one output per input, in order,
      with defaults for missing keys and a speaker exactly when the lookup at
      the midpoint returns a non-empty name. */
  function Merge(entries: seq<TranscriptEntry>, d: DiarizationResult): (r: seq<MergedSegment>)
    ensures |r| == |entries|
    ensures forall i :: 0 <= i < |entries| ==>
      && r[i].start == entries[i].start.GetOr(0.0)
      && r[i].end == entries[i].end.GetOr(0.0)
      && r[i].text == entries[i].text.GetOr("")
    ensures forall i :: 0 <= i < |entries| ==>
      (r[i].speaker.Some? <==> Truthy(d.SpeakerAt(Midpoint(entries[i]))))
    ensures forall i :: 0 <= i < |entries| && r[i].speaker.Some? ==>
      r[i].speaker == d.SpeakerAt((r[i].start + r[i].end) / 2.0)
    decreases |entries|
  {
    if |entries| == 0 then []
    else [MergeOne(entries[0], d)] + Merge(entries[1..], d)
  }
}
