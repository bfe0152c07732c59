/** The upload handler `onVideoUpload` as a pure function from the storage
    event, the record store and the outcome of every external call to the
    ordered list of effects it performs.

    The handler runs four stages in sequence:
    - the event gate, which ignores anything that is not a video under
      `videos/<owner>/`;
    - the claim, which finds the first pending job for the upload and marks
      it `processing`;
    - the processing block (download, audio extraction, staging upload,
      recognition submit and await, completion write, staged-audio delete),
      a single try block whose catch writes `error` status;
    - the finally block, which removes the local temporary files.
    Every external call is represented only by its outcome; the effects say
    which calls were made, in which order and with which arguments. */
module Pipeline {
  import opened Wrappers
  import opened Strings
  import opened Paths
  import opened Recognition
  import opened Jobs
  import opened Staging

  /** The storage event's metadata: bucket, object name, content type. */
  datatype Event = Event(bucket: string, name: Option<string>, contentType: Option<string>)

  /** Which local temporary files exist when the finally block runs. */
  datatype LocalFiles = LocalFiles(video: bool, audio: bool)

  /** The outcome of every external call the handler may make. A call the
      handler never reaches leaves its outcome unused. */
  datatype Outcomes = Outcomes(
    query: Outcome<()>,
    claim: Outcome<()>,
    download: Outcome<()>,
    extract: Outcome<()>,
    upload: Outcome<()>,
    submit: Outcome<()>,
    recognition: Outcome<Response>,
    completedWrite: Outcome<()>,
    errorWrite: Outcome<()>,
    remoteDelete: Outcome<()>,
    files: LocalFiles,
    unlinkVideo: Outcome<()>,
    unlinkAudio: Outcome<()>)

  /** The transcoder settings: no video, 16-bit little-endian PCM, the
      recognition sample rate, one channel. */
  datatype AudioSettings = AudioSettings(codec: string, sampleRate: nat, channels: nat)

  const Extraction := AudioSettings("pcm_s16le", TargetSampleRate, 1)

  const StagedContentType := "audio/wav"

  const NoResultsMessage := "No transcription results returned by API."

  /** One call the handler makes. Record updates, the staged-audio delete and
      local unlinks record whether they succeeded, because the handler goes
      on after each of them; for the other calls a failure ends the block
      they are in. */
  datatype Effect =
    | QueryJobs(path: string, userId: string)
    | UpdateJob(doc: nat, write: JobWrite, ok: bool)
    | Download(bucket: string, remotePath: string, localName: string)
    | ExtractAudio(input: string, output: string, settings: AudioSettings)
    | UploadAudio(localName: string, bucket: string, remotePath: string, contentType: string)
    | SubmitRecognition(config: RecognitionConfig, uri: string)
    | AwaitRecognition
    | DeleteStaged(bucket: string, remotePath: string, ok: bool)
    | Unlink(localName: string, ok: bool)

  /** Effects that touch the media: download, transcoding, staging upload
      and the recognition calls. */
  predicate IsMedia(e: Effect) {
    e.Download? || e.ExtractAudio? || e.UploadAudio? || e.SubmitRecognition? || e.AwaitRecognition?
  }

  /** A record update that took effect. */
  predicate IsSuccessfulWrite(e: Effect) {
    e.UpdateJob? && e.ok
  }

  predicate IsErrorWrite(e: Effect) {
    e.UpdateJob? && e.write.MarkError?
  }

  /** The effects of a JavaScript block and the message of the exception it
      ends with, if any. */
  datatype Block = Block(effects: seq<Effect>, thrown: Option<string>)

  /** `catch (e) { log(e) }`: the block's effects, and nothing escapes. */
  function Swallow(b: Block): (r: Block)
    ensures r.effects == b.effects && r.thrown.None?
  {
    Block(b.effects, None)
  }

  /** `try { b } finally { fin }`: both blocks' effects in order; an exception
      from the finally block replaces the one from `b`. */
  function Finally(b: Block, fin: Block): (r: Block)
    ensures r.effects == b.effects + fin.effects
    ensures fin.thrown.None? ==> r.thrown == b.thrown
  {
    Block(b.effects + fin.effects, if fin.thrown.Some? then fin.thrown else b.thrown)
  }

  // ---------------------------------------------------------------------
  // Event gate

  datatype GateDecision = PathMissing | NotVideo | OwnerMissing | Accept(userId: string)

  const VideoFolder := "videos/"

  const VideoContentType := "video/"

  /** `filePath?.split("/")[1]`: the owner segment, when there is one. */
  function OwnerSegment(path: string): Option<string> {
    var parts := Split(path, '/');
    if |parts| > 1 then Some(parts[1]) else None
  }

  /** The checks before any record-store call: a non-empty object name, the
      `videos/` folder and a `video/` content type, and a non-empty owner. */
  function Gate(name: Option<string>, contentType: Option<string>): (d: GateDecision)
    ensures d == PathMissing <==> name.None? || name == Some("")
    ensures d.Accept? ==>
      StartsWith(name.value, VideoFolder) && contentType.Some? && StartsWith(contentType.value, VideoContentType)
    ensures d == NotVideo <==>
      name.Some? && name.value != "" &&
      !(StartsWith(name.value, VideoFolder) && contentType.Some? && StartsWith(contentType.value, VideoContentType))
  {
    if name.None? || name.value == "" then PathMissing
    else if !StartsWith(name.value, VideoFolder) || contentType.None? || !StartsWith(contentType.value, VideoContentType) then NotVideo
    else
      match OwnerSegment(name.value)
      case Some(u) => if u == "" then OwnerMissing else Accept(u)
      case None => OwnerMissing
  }

  /** An upload is accepted for owner `u` exactly when its content type is a
      video type and its name is `videos/` then `u` (non-empty, no `/`) then
      either nothing or a `/` and the rest of the path. */
  lemma GateAcceptsIff(path: string, contentType: string, u: string)
    ensures Gate(Some(path), Some(contentType)) == Accept(u) <==>
      StartsWith(contentType, VideoContentType) && u != "" && '/' !in u &&
      StartsWith(path, VideoFolder + u) &&
      (|path| == |VideoFolder| + |u| || path[|VideoFolder| + |u|] == '/')
  {
    var n := |VideoFolder|;
    if StartsWith(path, VideoFolder) {
      var tail := path[n..];
      assert path == "videos" + ['/'] + tail;
      SplitAtFirstSeparator("videos", tail, '/');
      assert OwnerSegment(path) == Some(Split(tail, '/')[0]);
      SplitFirstPiece(tail, '/', u);
      if StartsWith(tail, u) {
        assert path[..n + |u|] == VideoFolder + u;
      }
      if StartsWith(path, VideoFolder + u) {
        assert tail[..|u|] == u;
      }
    }
  }

  // ---------------------------------------------------------------------
  // Claim

  /** The claim's effects and the record it claimed, if any. */
  datatype Claim = Claim(effects: seq<Effect>, doc: Option<nat>)

  /** Query the store for a pending job for this upload, and mark the first
      match `processing`. A failing query or update is logged and ends the
      invocation, as does finding no match. */
  function ClaimJob(store: Store, path: string, userId: string, o: Outcomes): (c: Claim)
    ensures |c.effects| >= 1 && c.effects[0] == QueryJobs(path, userId)
    ensures c.doc.Some? <==> o.query.Ok? && o.claim.Ok? && FirstMatch(store, path, userId).Some?
    ensures c.doc.Some? ==>
      c.doc.value < |store| && Pending(store[c.doc.value], path, userId) &&
      (forall j :: 0 <= j < c.doc.value ==> !Pending(store[j], path, userId)) &&
      c.effects == [QueryJobs(path, userId), UpdateJob(c.doc.value, MarkProcessing, true)]
    ensures c.doc.None? ==>
      |c.effects| <= 2 &&
      forall k :: 0 <= k < |c.effects| ==> !IsMedia(c.effects[k]) && !IsSuccessfulWrite(c.effects[k])
    ensures c.doc.None? ==>
      c.effects == [QueryJobs(path, userId)] ||
      (o.query.Ok? && FirstMatch(store, path, userId).Some? && o.claim.Fail? &&
       c.effects == [QueryJobs(path, userId), UpdateJob(FirstMatch(store, path, userId).value, MarkProcessing, false)])
  {
    var q := [QueryJobs(path, userId)];
    if o.query.Fail? then Claim(q, None)
    else
      match FirstMatch(store, path, userId)
      case None => Claim(q, None)
      case Some(i) =>
        var e := q + [UpdateJob(i, MarkProcessing, o.claim.Ok?)];
        if o.claim.Ok? then Claim(e, Some(i)) else Claim(e, None)
  }

  // ---------------------------------------------------------------------
  // Processing block

  /** Results that are absent or empty. */
  predicate NoResults(resp: Response) {
    resp.results.None? || |resp.results.value| == 0
  }

  /** The `completed` update for a recognition response: the transcript and
      word timings with a null message, or, without results, an empty
      transcript, no timings and a fixed diagnostic message. */
  function CompletedWrite(resp: Response): (w: JobWrite)
    ensures w.MarkCompleted?
    ensures NoResults(resp) ==> w == MarkCompleted("", [], Some(NoResultsMessage))
    ensures !NoResults(resp) ==>
      w.note.None? && w.transcript == Transcript(resp.results.value) &&
      w.wordTimings == WordTimings(resp.results.value)
  {
    if NoResults(resp) then MarkCompleted("", [], Some(NoResultsMessage))
    else
      var rs := resp.results.value;
      MarkCompleted(Transcript(rs), WordTimings(rs), None)
  }

  /** The steps of the processing block whose failure ends it, in order. */
  function Steps(o: Outcomes): seq<Outcome<()>> {
    [o.download, o.extract, o.upload, o.submit, o.recognition.Status(), o.completedWrite]
  }

  /** The position of the first failing step, if any. */
  function FirstFailure(steps: seq<Outcome<()>>): (r: Option<nat>)
    ensures r.Some? ==> r.value < |steps| && steps[r.value].Fail?
    ensures r.Some? ==> forall j :: 0 <= j < r.value ==> steps[j].Ok?
    ensures r.None? ==> forall j :: 0 <= j < |steps| ==> steps[j].Ok?
    decreases |steps|
  {
    if |steps| == 0 then None
    else if steps[0].Fail? then Some(0)
    else
      match FirstFailure(steps[1..])
      case Some(i) => Some(i + 1)
      case None => None
  }

  /** The message the processing block ends with: that of its first failing
      step. */
  function FailureMessage(o: Outcomes): Option<string> {
    match FirstFailure(Steps(o))
    case Some(i) => Some(Steps(o)[i].msg)
    case None => None
  }

  /** The first failing step decides the message, whatever comes after it. */
  lemma FailureMessageCases(o: Outcomes)
    ensures FailureMessage(o) ==
      if o.download.Fail? then Some(o.download.msg)
      else if o.extract.Fail? then Some(o.extract.msg)
      else if o.upload.Fail? then Some(o.upload.msg)
      else if o.submit.Fail? then Some(o.submit.msg)
      else if o.recognition.Fail? then Some(o.recognition.msg)
      else if o.completedWrite.Fail? then Some(o.completedWrite.msg)
      else None
  {
    var s := Steps(o);
    assert s[0] == o.download && s[1] == o.extract && s[2] == o.upload;
    assert s[3] == o.submit && s[4] == o.recognition.Status() && s[5] == o.completedWrite;
  }

  /** The first failing step's position, named step by step in the order
      of the awaits. */
  lemma FirstFailureOfSteps(o: Outcomes)
    ensures FirstFailure(Steps(o)) ==
      if o.download.Fail? then Some(0)
      else if o.extract.Fail? then Some(1)
      else if o.upload.Fail? then Some(2)
      else if o.submit.Fail? then Some(3)
      else if o.recognition.Fail? then Some(4)
      else if o.completedWrite.Fail? then Some(5)
      else None
  {
    var s := Steps(o);
    assert s[0] == o.download && s[1] == o.extract && s[2] == o.upload;
    assert s[3] == o.submit && s[4] == o.recognition.Status() && s[5] == o.completedWrite;
  }

  /** `gs://<bucket>/<path>` */
  function StorageUri(bucket: string, path: string): string {
    "gs://" + bucket + "/" + path
  }

  /** The try block: download, extract, stage, submit, await, write
      `completed`, then delete the staged audio, whose failure is logged. */
  function Process(bucket: string, path: string, doc: nat, names: ArtifactNames, o: Outcomes): (b: Block)
    ensures b.thrown == FailureMessage(o)
    ensures |b.effects| >= 1 && b.effects[0] == Download(bucket, path, names.tempVideo)
    ensures b.thrown.Some? ==> forall k :: 0 <= k < |b.effects| ==> !b.effects[k].DeleteStaged?
    ensures b.thrown.None? ==>
      o.recognition.Ok? && |b.effects| >= 2 &&
      b.effects[|b.effects| - 2] == UpdateJob(doc, CompletedWrite(o.recognition.value), true) &&
      b.effects[|b.effects| - 1] == DeleteStaged(bucket, names.stagingPath, o.remoteDelete.Ok?) &&
      forall k :: 0 <= k < |b.effects| - 1 ==> !b.effects[k].DeleteStaged?
  {
    FailureMessageCases(o);
    var e1 := [Download(bucket, path, names.tempVideo)];
    if o.download.Fail? then Block(e1, Some(o.download.msg)) else
    var e2 := e1 + [ExtractAudio(names.tempVideo, names.tempAudio, Extraction)];
    if o.extract.Fail? then Block(e2, Some(o.extract.msg)) else
    var e3 := e2 + [UploadAudio(names.tempAudio, bucket, names.stagingPath, StagedContentType)];
    if o.upload.Fail? then Block(e3, Some(o.upload.msg)) else
    var e4 := e3 + [SubmitRecognition(Config, StorageUri(bucket, names.stagingPath))];
    if o.submit.Fail? then Block(e4, Some(o.submit.msg)) else
    var e5 := e4 + [AwaitRecognition];
    if o.recognition.Fail? then Block(e5, Some(o.recognition.msg)) else
    var e6 := e5 + [UpdateJob(doc, CompletedWrite(o.recognition.value), o.completedWrite.Ok?)];
    if o.completedWrite.Fail? then Block(e6, Some(o.completedWrite.msg)) else
    Block(e6 + [DeleteStaged(bucket, names.stagingPath, o.remoteDelete.Ok?)], None)
  }

  /** The processing block stops at its first failing step: it has made
      one call per step up to and including that one, and one more, the
      staged-audio delete, when no step failed. */
  lemma ProcessStops(bucket: string, path: string, doc: nat, names: ArtifactNames, o: Outcomes)
    ensures var b := Process(bucket, path, doc, names, o);
      b.thrown.Some? <==> FirstFailure(Steps(o)).Some?
    ensures var b := Process(bucket, path, doc, names, o);
      b.thrown.Some? ==> |b.effects| == FirstFailure(Steps(o)).value + 1
    ensures var b := Process(bucket, path, doc, names, o);
      b.thrown.None? ==> |b.effects| == |Steps(o)| + 1
  {
    FirstFailureOfSteps(o);
    if o.download.Fail? {
    } else if o.extract.Fail? {
    } else if o.upload.Fail? {
    } else if o.submit.Fail? {
    } else if o.recognition.Fail? {
    } else if o.completedWrite.Fail? {
    }
  }

  /** Each call of the processing block is the one the source makes at
      that position, with this invocation's local and staged names. */
  lemma ProcessCalls(bucket: string, path: string, doc: nat, names: ArtifactNames, o: Outcomes)
    ensures var b := Process(bucket, path, doc, names, o);
      |b.effects| > 1 ==> b.effects[1] == ExtractAudio(names.tempVideo, names.tempAudio, Extraction)
    ensures var b := Process(bucket, path, doc, names, o);
      |b.effects| > 2 ==> b.effects[2] == UploadAudio(names.tempAudio, bucket, names.stagingPath, StagedContentType)
    ensures var b := Process(bucket, path, doc, names, o);
      |b.effects| > 3 ==> b.effects[3] == SubmitRecognition(Config, StorageUri(bucket, names.stagingPath))
    ensures var b := Process(bucket, path, doc, names, o);
      |b.effects| > 4 ==> b.effects[4] == AwaitRecognition
    ensures var b := Process(bucket, path, doc, names, o);
      |b.effects| > 5 ==>
        o.recognition.Ok? && b.effects[5] == UpdateJob(doc, CompletedWrite(o.recognition.value), o.completedWrite.Ok?)
  {
    if o.download.Fail? {
    } else if o.extract.Fail? {
    } else if o.upload.Fail? {
    } else if o.submit.Fail? {
    } else if o.recognition.Fail? {
    }
  }

  /** The catch block: write `error` status with the message; a failure of
      that write is caught and logged. */
  function RecordError(doc: nat, msg: string, errorWrite: Outcome<()>): (b: Block)
    ensures b.thrown.None?
    ensures b.effects == [UpdateJob(doc, MarkError(msg), errorWrite.Ok?)]
  {
    var write := [UpdateJob(doc, MarkError(msg), errorWrite.Ok?)];
    Swallow(if errorWrite.Fail? then Block(write, Some(errorWrite.msg)) else Block(write, None))
  }

  /** `try { body } catch (e) { RecordError(e) }` */
  function CatchFailure(body: Block, doc: nat, errorWrite: Outcome<()>): (r: Block)
    ensures r.thrown.None?
    ensures body.thrown.None? ==> r == body
    ensures body.thrown.Some? ==>
      r.effects == body.effects + [UpdateJob(doc, MarkError(body.thrown.value), errorWrite.Ok?)]
  {
    match body.thrown
    case None => body
    case Some(m) =>
      var handler := RecordError(doc, m, errorWrite);
      Block(body.effects + handler.effects, handler.thrown)
  }

  // ---------------------------------------------------------------------
  // Finally block

  /** The audio's existence check runs after the video unlink, so for a
      `.wav` upload, whose two local names are one file, it finds the file
      already gone once the video unlink succeeded. */
  predicate AudioExistsAtCheck(names: ArtifactNames, files: LocalFiles, unlinkVideo: Outcome<()>) {
    files.audio && !(files.video && unlinkVideo.Ok? && names.tempAudio == names.tempVideo)
  }

  /** The audio unlink is attempted: the video unlink before it did not
      throw, and the audio file is still there when it is checked. */
  predicate AudioUnlinkReached(names: ArtifactNames, files: LocalFiles, unlinkVideo: Outcome<()>) {
    !(files.video && unlinkVideo.Fail?) && AudioExistsAtCheck(names, files, unlinkVideo)
  }

  /** The finally block: unlink the local video if it exists, then the local
      audio if it exists; a failing unlink ends the inner try, whose catch
      only logs, so a failure on the video skips the audio. */
  function Cleanup(names: ArtifactNames, files: LocalFiles, unlinkVideo: Outcome<()>, unlinkAudio: Outcome<()>): (b: Block)
    ensures b.thrown.None?
    ensures forall k :: 0 <= k < |b.effects| ==> b.effects[k].Unlink?
    ensures |b.effects| <= 2
    ensures |b.effects| ==
      (if files.video then 1 else 0) + (if AudioUnlinkReached(names, files, unlinkVideo) then 1 else 0)
    ensures files.video ==> b.effects[0] == Unlink(names.tempVideo, unlinkVideo.Ok?)
    ensures AudioUnlinkReached(names, files, unlinkVideo) ==>
      b.effects[|b.effects| - 1] == Unlink(names.tempAudio, unlinkAudio.Ok?)
  {
    var ev := if files.video then [Unlink(names.tempVideo, unlinkVideo.Ok?)] else [];
    var inner :=
      if files.video && unlinkVideo.Fail? then Block(ev, Some(unlinkVideo.msg))
      else
        var audioNow := AudioExistsAtCheck(names, files, unlinkVideo);
        var ea := if audioNow then [Unlink(names.tempAudio, unlinkAudio.Ok?)] else [];
        if audioNow && unlinkAudio.Fail? then Block(ev + ea, Some(unlinkAudio.msg))
        else Block(ev + ea, None);
    Swallow(inner)
  }

  /** Which temporary files are left after the finally block. */
  function Remaining(names: ArtifactNames, files: LocalFiles, unlinkVideo: Outcome<()>, unlinkAudio: Outcome<()>): LocalFiles {
    var videoLeft := files.video && unlinkVideo.Fail?;
    var audioLeft := AudioExistsAtCheck(names, files, unlinkVideo) && (videoLeft || unlinkAudio.Fail?);
    LocalFiles(videoLeft, audioLeft)
  }

  // ---------------------------------------------------------------------
  // The handler

  /** What one invocation did: its effects in order, the record it claimed
      (media work happens exactly when one was claimed) and the exception
      that escaped the handler, if any. */
  datatype Invocation = Invocation(effects: seq<Effect>, claimed: Option<nat>, escaped: Option<string>)

  /** The handler after the gate accepted `path` for `userId`: claim, then
      the try block with its catch, then the finally block. */
  function Run(bucket: string, path: string, userId: string, store: Store, o: Outcomes, names: ArtifactNames): (inv: Invocation)
    ensures inv.escaped.None?
    ensures |inv.effects| >= 1 && inv.effects[0] == QueryJobs(path, userId)
    ensures inv.claimed.Some? <==> o.query.Ok? && o.claim.Ok? && FirstMatch(store, path, userId).Some?
    ensures inv.claimed.Some? ==>
      inv.claimed == FirstMatch(store, path, userId) &&
      |inv.effects| >= 3 && inv.effects[1] == UpdateJob(inv.claimed.value, MarkProcessing, true) &&
      inv.effects[2] == Download(bucket, path, names.tempVideo)
    ensures inv.claimed.None? ==>
      |inv.effects| <= 2 &&
      forall k :: 0 <= k < |inv.effects| ==> !IsMedia(inv.effects[k]) && !IsSuccessfulWrite(inv.effects[k])
    ensures inv.claimed.None? ==>
      inv.effects == [QueryJobs(path, userId)] ||
      (o.query.Ok? && FirstMatch(store, path, userId).Some? && o.claim.Fail? &&
       inv.effects == [QueryJobs(path, userId), UpdateJob(FirstMatch(store, path, userId).value, MarkProcessing, false)])
  {
    var c := ClaimJob(store, path, userId, o);
    if c.doc.None? then Invocation(c.effects, None, None)
    else
      var doc := c.doc.value;
      var body := Process(bucket, path, doc, names, o);
      var caught := CatchFailure(body, doc, o.errorWrite);
      var done := Finally(caught, Cleanup(names, o.files, o.unlinkVideo, o.unlinkAudio));
      Invocation(c.effects + done.effects, Some(doc), done.thrown)
  }

  /** `onVideoUpload` for one storage event: nothing at all unless the gate
      accepts it, and never an exception out of the handler. */
  function Handle(ev: Event, store: Store, o: Outcomes, uniquePrefix: string): (inv: Invocation)
    ensures inv.escaped.None?
    ensures !Gate(ev.name, ev.contentType).Accept? ==> inv.effects == [] && inv.claimed.None?
    ensures Gate(ev.name, ev.contentType).Accept? ==>
      |inv.effects| >= 1 && inv.effects[0] == QueryJobs(ev.name.value, Gate(ev.name, ev.contentType).userId)
    ensures inv.claimed.Some? ==> Gate(ev.name, ev.contentType).Accept? && o.query.Ok? && o.claim.Ok?
    ensures Gate(ev.name, ev.contentType).Accept? ==>
      inv == Run(ev.bucket, ev.name.value, Gate(ev.name, ev.contentType).userId, store, o,
                 NamesFor(uniquePrefix, Gate(ev.name, ev.contentType).userId, ev.name.value))
    ensures inv.claimed.None? ==>
      forall k :: 0 <= k < |inv.effects| ==> !IsMedia(inv.effects[k]) && !IsSuccessfulWrite(inv.effects[k])
  {
    match Gate(ev.name, ev.contentType)
    case Accept(u) =>
      var path := ev.name.value;
      Run(ev.bucket, path, u, store, o, NamesFor(uniquePrefix, u, path))
    case _ => Invocation([], None, None)
  }
}

