/** The speech-recognition side of the handler: the shapes of the long-running
    recognition response (every field optional, as in the protobuf interface
    types), the fixed request configuration, and the transformation of a
    response into a transcript and a flat word-timing sequence. */
module Recognition {
  import opened Wrappers
  import opened Strings

  /** A protobuf Duration: whole seconds and nanoseconds, each optional. */
  datatype Duration = Duration(seconds: Option<int>, nanos: Option<int>)

  datatype Word = Word(word: Option<string>, startTime: Option<Duration>, endTime: Option<Duration>)

  datatype Alternative = Alternative(transcript: Option<string>, words: Option<seq<Word>>)

  /** One result segment: its ranked alternatives, best first. */
  datatype SegmentResult = SegmentResult(alternatives: Option<seq<Alternative>>)

  datatype Response = Response(results: Option<seq<SegmentResult>>)

  /** One entry of the job record's `wordTimings`. */
  datatype WordTiming = WordTiming(word: string, startTimeSec: real, endTimeSec: real)

  /** The request settings: 16-bit linear PCM at the extracted sample rate,
      US English, word offsets and punctuation on, the video model. */
  datatype RecognitionConfig = RecognitionConfig(
    encoding: string,
    sampleRateHertz: nat,
    languageCode: string,
    enableWordTimeOffsets: bool,
    enableAutomaticPunctuation: bool,
    model: string)

  const TargetSampleRate: nat := 16000

  const Config := RecognitionConfig("LINEAR16", TargetSampleRate, "en-US", true, true, "video")

  const NanosPerSecond: int := 1_000_000_000

  /** `durationToSeconds`: an absent duration is 0; otherwise the seconds plus
      the nanoseconds as a fraction, each absent part counting as 0. */
  function DurationToSeconds(d: Option<Duration>): (r: real)
    ensures d.None? ==> r == 0.0
    ensures d.Some? && 0 <= d.value.nanos.GetOr(0) < NanosPerSecond ==>
      r.Floor == d.value.seconds.GetOr(0)
  {
    match d
    case None => 0.0
    case Some(du) =>
      (du.seconds.GetOr(0) as real) + (du.nanos.GetOr(0) as real) / (NanosPerSecond as real)
  }

  /** With nanoseconds in range, the seconds value gives back both parts of
      the duration it was computed from. */
  lemma DurationRecoverable(d: Duration)
    requires 0 <= d.nanos.GetOr(0) < NanosPerSecond
    ensures var r := DurationToSeconds(Some(d));
      r.Floor == d.seconds.GetOr(0) &&
      (r - (r.Floor as real)) * (NanosPerSecond as real) == d.nanos.GetOr(0) as real
  {
  }

  /** `r.alternatives?.[0]`: the best alternative of a segment, if any. */
  function TopAlternative(r: SegmentResult): Option<Alternative> {
    match r.alternatives
    case Some(alts) => if |alts| > 0 then Some(alts[0]) else None
    case None => None
  }

  /** `r.alternatives?.[0]?.transcript ?? ""` */
  function TopTranscript(r: SegmentResult): string {
    match TopAlternative(r)
    case Some(a) => a.transcript.GetOr("")
    case None => ""
  }

  /** `r.alternatives?.[0]?.words ?? []` */
  function TopWords(r: SegmentResult): seq<Word> {
    match TopAlternative(r)
    case Some(a) => a.words.GetOr([])
    case None => []
  }

  function TopTranscripts(rs: seq<SegmentResult>): (ts: seq<string>)
    ensures |ts| == |rs|
    ensures forall i :: 0 <= i < |rs| ==> ts[i] == TopTranscript(rs[i])
  {
    seq(|rs|, i requires 0 <= i < |rs| => TopTranscript(rs[i]))
  }

  /** The transcript stored on completion: the segments' best transcripts,
      in result order, one per line. */
  function Transcript(rs: seq<SegmentResult>): string {
    Join(TopTranscripts(rs), '\n')
  }

  /** The timing entry for one recognised word; missing text becomes "". */
  function TimingOf(w: Word): WordTiming {
    WordTiming(w.word.GetOr(""), DurationToSeconds(w.startTime), DurationToSeconds(w.endTime))
  }

  /** Total number of best-alternative words over the segments. */
  function WordCount(rs: seq<SegmentResult>): nat
    decreases |rs|
  {
    if |rs| == 0 then 0 else |TopWords(rs[0])| + WordCount(rs[1..])
  }

  /** The `wordTimings` stored on completion: the best alternative's words of
      every segment, flattened in order, one entry per word. */
  function WordTimings(rs: seq<SegmentResult>): (ts: seq<WordTiming>)
    ensures |ts| == WordCount(rs)
    decreases |rs|
  {
    if |rs| == 0 then []
    else
      var ws := TopWords(rs[0]);
      seq(|ws|, k requires 0 <= k < |ws| => TimingOf(ws[k])) + WordTimings(rs[1..])
  }

  lemma WordCountAppend(a: seq<SegmentResult>, b: seq<SegmentResult>)
    ensures WordCount(a + b) == WordCount(a) + WordCount(b)
    decreases |a|
  {
    if |a| == 0 {
      assert a + b == b;
    } else {
      assert (a + b)[1..] == a[1..] + b;
      WordCountAppend(a[1..], b);
    }
  }

  /** Word `j` of segment `i` lands at the position after all the words of
      the earlier segments, so the flattening keeps order and drops nothing. */
  lemma {:induction false} WordTimingAt(rs: seq<SegmentResult>, i: nat, j: nat)
    requires i < |rs| && j < |TopWords(rs[i])|
    ensures WordCount(rs[..i]) + j < |WordTimings(rs)|
    ensures WordTimings(rs)[WordCount(rs[..i]) + j] == TimingOf(TopWords(rs[i])[j])
    decreases i
  {
    WordCountAppend(rs[..i], rs[i..]);
    assert rs[..i] + rs[i..] == rs;
    WordCountAppend([rs[i]], rs[i + 1..]);
    assert [rs[i]] + rs[i + 1..] == rs[i..];
    assert WordCount([rs[i]]) == |TopWords(rs[i])| by {
      assert [rs[i]][1..] == [];
    }
    if i > 0 {
      WordTimingAt(rs[1..], i - 1, j);
      assert rs[1..][..i - 1] == rs[1..i];
      assert rs[..i][1..] == rs[1..i];
      assert rs[1..][i - 1] == rs[i];
    }
  }

  /** Transcripts without line breaks can be read back line by line from the
      stored transcript, one line per result segment. */
  lemma TranscriptLines(rs: seq<SegmentResult>)
    requires |rs| > 0
    requires forall i :: 0 <= i < |rs| ==> '\n' !in TopTranscript(rs[i])
    ensures Split(Transcript(rs), '\n') == TopTranscripts(rs)
  {
    SplitJoin(TopTranscripts(rs), '\n');
  }

  /** The stored transcript begins with the first segment's best transcript,
      ends with the last one's, and adds one line break between each two
      segments. */
  lemma TranscriptBounds(rs: seq<SegmentResult>)
    requires |rs| > 0
    ensures StartsWith(Transcript(rs), TopTranscript(rs[0]))
    ensures EndsWith(Transcript(rs), TopTranscript(rs[|rs| - 1]))
    ensures |Transcript(rs)| == TotalLength(TopTranscripts(rs)) + |rs| - 1
  {
    JoinBounds(TopTranscripts(rs), '\n');
  }

  /** Two segments, each with a lower-ranked second alternative: "hello"
      (0 s to 1 s) over "yellow", then "world" (1 s to 2 s) over "word". */
  function TwoSegments(): seq<SegmentResult> {
    [SegmentResult(Some([
       Alternative(Some("hello"), Some([Word(Some("hello"), Some(Duration(Some(0), None)), Some(Duration(Some(1), None)))])),
       Alternative(Some("yellow"), Some([Word(Some("yellow"), None, None)]))])),
     SegmentResult(Some([
       Alternative(Some("world"), Some([Word(Some("world"), Some(Duration(Some(1), None)), Some(Duration(Some(2), None)))])),
       Alternative(Some("word"), Some([Word(Some("word"), Some(Duration(Some(3), None)), None)]))]))]
  }

  /** Only the best alternative of each segment reaches the transcript. */
  lemma TranscriptOfTwoSegments()
    ensures Transcript(TwoSegments()) == "hello\nworld"
  {
  }

  /** Only the best alternative of each segment reaches the word timings. */
  lemma WordTimingsOfTwoSegments()
    ensures WordTimings(TwoSegments()) == [WordTiming("hello", 0.0, 1.0), WordTiming("world", 1.0, 2.0)]
  {
  }

  /** Five and a half seconds. */
  lemma DurationOfFiveAndAHalf()
    ensures DurationToSeconds(Some(Duration(Some(5), Some(500_000_000)))) == 5.5
    ensures DurationToSeconds(Some(Duration(Some(0), None))) == 0.0
  {
  }
}
