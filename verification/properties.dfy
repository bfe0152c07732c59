/** Properties of whole invocations after the gate accepted the upload:
    what the effect trace contains on each path, which failures change
    nothing, and what the invocation does to the record store. */
module PipelineProperties {
  import opened Wrappers
  import opened Strings
  import opened Paths
  import opened Recognition
  import opened Jobs
  import opened Staging
  import opened Pipeline

  // ---------------------------------------------------------------------
  // Shape of a trace

  /** The catch block's effects for a try block that ended as `body`: what
      `CatchFailure` adds after the try block's own effects. */
  function HandlerEffects(body: Block, doc: nat, errorWrite: Outcome<()>): (h: seq<Effect>)
    ensures body.effects + h == CatchFailure(body, doc, errorWrite).effects
  {
    match body.thrown
    case Some(m) => [UpdateJob(doc, MarkError(m), errorWrite.Ok?)]
    case None => []
  }

  /** After a claim, the trace is: query and claim, the try block, the error
      write if the try block threw, then the finally block. */
  lemma ClaimedShape(bucket: string, path: string, userId: string, store: Store, o: Outcomes, names: ArtifactNames)
    requires Run(bucket, path, userId, store, o, names).claimed.Some?
    ensures var inv := Run(bucket, path, userId, store, o, names);
      var i := inv.claimed.value;
      var body := Process(bucket, path, i, names, o);
      inv.effects ==
        [QueryJobs(path, userId), UpdateJob(i, MarkProcessing, true)]
        + body.effects + HandlerEffects(body, i, o.errorWrite)
        + Cleanup(names, o.files, o.unlinkVideo, o.unlinkAudio).effects
  {
  }

  /** An accepted upload that claims its record downloads the video to a
      local name made of the invocation's prefix, `_` and the upload's base
      name; once download and extraction succeed, the audio is staged under
      `extracted_audio/<owner>/`, ending in the local audio name. */
  lemma HandledUploadNames(ev: Event, store: Store, o: Outcomes, uniquePrefix: string, effs: seq<Effect>)
    requires Handle(ev, store, o, uniquePrefix).claimed.Some?
    requires effs == Handle(ev, store, o, uniquePrefix).effects
    ensures Gate(ev.name, ev.contentType).Accept?
    ensures var u := Gate(ev.name, ev.contentType).userId;
      var n := NamesFor(uniquePrefix, u, ev.name.value);
      |effs| >= 3 && effs[2] == Download(ev.bucket, ev.name.value, n.tempVideo) &&
      StartsWith(n.tempVideo, uniquePrefix + "_") && EndsWith(n.tempVideo, Basename(ev.name.value)) &&
      StartsWith(n.stagingPath, AudioFolder + u + "/") && EndsWith(n.stagingPath, n.tempAudio)
    ensures var u := Gate(ev.name, ev.contentType).userId;
      var n := NamesFor(uniquePrefix, u, ev.name.value);
      o.download.Ok? && o.extract.Ok? ==>
        |effs| > 4 && effs[4] == UploadAudio(n.tempAudio, ev.bucket, n.stagingPath, StagedContentType)
  {
    var u := Gate(ev.name, ev.contentType).userId;
    var path := ev.name.value;
    var n := NamesFor(uniquePrefix, u, path);
    assert effs == Run(ev.bucket, path, u, store, o, n).effects;
    ClaimedShape(ev.bucket, path, u, store, o, n);
    if o.download.Ok? && o.extract.Ok? {
      var i := Run(ev.bucket, path, u, store, o, n).claimed.value;
      var body := Process(ev.bucket, path, i, n, o);
      FirstFailureOfSteps(o);
      ProcessStops(ev.bucket, path, i, n, o);
      ProcessCalls(ev.bucket, path, i, n, o);
      assert |body.effects| > 2;
      IndexIntoBody([QueryJobs(path, u), UpdateJob(i, MarkProcessing, true)], body.effects,
        HandlerEffects(body, i, o.errorWrite), Cleanup(n, o.files, o.unlinkVideo, o.unlinkAudio).effects, 2);
    }
  }

  /** A position inside the try block's effects, seen in the whole trace. */
  lemma IndexIntoBody(claim: seq<Effect>, body: seq<Effect>, h: seq<Effect>, fin: seq<Effect>, k: nat)
    requires k < |body|
    ensures (claim + body + h + fin)[|claim| + k] == body[k]
  {
  }

  // ---------------------------------------------------------------------
  // Error path, success path, cleanup

  /** Any failure in download, extraction, staging upload, submit, await or
      the `completed` write leads to exactly one `error` write, carrying
      that failure's message, and the staged audio is never deleted. */
  lemma ErrorPathWritesOnce(bucket: string, path: string, userId: string, store: Store, o: Outcomes, names: ArtifactNames)
    requires Run(bucket, path, userId, store, o, names).claimed.Some?
    requires FailureMessage(o).Some?
    ensures var inv := Run(bucket, path, userId, store, o, names);
      exists k :: 0 <= k < |inv.effects| &&
        inv.effects[k] == UpdateJob(inv.claimed.value, MarkError(FailureMessage(o).value), o.errorWrite.Ok?)
    ensures var inv := Run(bucket, path, userId, store, o, names);
      forall k1, k2 :: 0 <= k1 < |inv.effects| && 0 <= k2 < |inv.effects| ==>
        IsErrorWrite(inv.effects[k1]) && IsErrorWrite(inv.effects[k2]) ==> k1 == k2
    ensures var inv := Run(bucket, path, userId, store, o, names);
      forall k :: 0 <= k < |inv.effects| ==> !inv.effects[k].DeleteStaged?
  {
    ClaimedShape(bucket, path, userId, store, o, names);
    var inv := Run(bucket, path, userId, store, o, names);
    var i := inv.claimed.value;
    var body := Process(bucket, path, i, names, o);
    ProcessWrites(bucket, path, i, names, o);
    var fin := Cleanup(names, o.files, o.unlinkVideo, o.unlinkAudio).effects;
    var w := UpdateJob(i, MarkError(FailureMessage(o).value), o.errorWrite.Ok?);
    var pre := [QueryJobs(path, userId), UpdateJob(i, MarkProcessing, true)] + body.effects;
    assert inv.effects == pre + [w] + fin;
    var k := |pre|;
    assert inv.effects[k] == w;
    forall k1 | 0 <= k1 < |inv.effects|
      ensures IsErrorWrite(inv.effects[k1]) ==> k1 == k
      ensures !inv.effects[k1].DeleteStaged?
    {
      if k1 < 2 {
        assert inv.effects[k1] == pre[k1];
      } else if k1 < k {
        assert inv.effects[k1] == pre[k1] == body.effects[k1 - 2];
      } else if k1 > k {
        assert inv.effects[k1] == fin[k1 - k - 1];
      }
    }
  }

  /** Without a failure the trace writes `completed` with the recognition
      result, then attempts the staged-audio delete, and writes no `error`. */
  lemma SuccessPathDeletesStaged(bucket: string, path: string, userId: string, store: Store, o: Outcomes, names: ArtifactNames)
    requires Run(bucket, path, userId, store, o, names).claimed.Some?
    requires FailureMessage(o).None?
    ensures o.recognition.Ok?
    ensures var inv := Run(bucket, path, userId, store, o, names);
      forall k :: 0 <= k < |inv.effects| ==> !IsErrorWrite(inv.effects[k])
    ensures var inv := Run(bucket, path, userId, store, o, names);
      exists k :: 1 <= k < |inv.effects| &&
        inv.effects[k] == DeleteStaged(bucket, names.stagingPath, o.remoteDelete.Ok?) &&
        inv.effects[k - 1] == UpdateJob(inv.claimed.value, CompletedWrite(o.recognition.value), true)
  {
    ClaimedShape(bucket, path, userId, store, o, names);
    var inv := Run(bucket, path, userId, store, o, names);
    var i := inv.claimed.value;
    var body := Process(bucket, path, i, names, o);
    ProcessWrites(bucket, path, i, names, o);
    var fin := Cleanup(names, o.files, o.unlinkVideo, o.unlinkAudio).effects;
    var pre := [QueryJobs(path, userId), UpdateJob(i, MarkProcessing, true)] + body.effects;
    assert inv.effects == pre + fin;
    var k := |pre| - 1;
    assert inv.effects[k] == body.effects[|body.effects| - 1];
    assert inv.effects[k - 1] == body.effects[|body.effects| - 2];
    forall k1 | 0 <= k1 < |inv.effects|
      ensures !IsErrorWrite(inv.effects[k1])
    {
      if k1 < 2 {
        assert inv.effects[k1] == pre[k1];
      } else if k1 < |pre| {
        assert inv.effects[k1] == pre[k1] == body.effects[k1 - 2];
      } else {
        assert inv.effects[k1] == fin[k1 - |pre|];
      }
    }
  }

  /** The processing block writes only the `completed` fields of the
      recognition result, to the claimed record; that write takes effect
      only when the block does not throw, and then it is the second-to-last
      call. */
  lemma ProcessWrites(bucket: string, path: string, doc: nat, names: ArtifactNames, o: Outcomes)
    ensures var b := Process(bucket, path, doc, names, o);
      forall k :: 0 <= k < |b.effects| && b.effects[k].UpdateJob? ==>
        b.effects[k].doc == doc && o.recognition.Ok? && b.effects[k].write == CompletedWrite(o.recognition.value)
    ensures var b := Process(bucket, path, doc, names, o);
      forall k :: 0 <= k < |b.effects| && IsSuccessfulWrite(b.effects[k]) ==>
        b.thrown.None? && k == |b.effects| - 2
  {
    var b := Process(bucket, path, doc, names, o);
    forall k | 0 <= k < |b.effects| && b.effects[k].UpdateJob?
      ensures b.effects[k].doc == doc && o.recognition.Ok? && b.effects[k].write == CompletedWrite(o.recognition.value)
      ensures b.effects[k].ok ==> b.thrown.None? && k == |b.effects| - 2
    {
      assert k == |b.effects| - 1 || k == |b.effects| - 2;
    }
  }

  /** The processing block makes no unlink, and deletes the staged audio
      only right after a `completed` write that took effect. */
  lemma ProcessCallOrder(bucket: string, path: string, doc: nat, names: ArtifactNames, o: Outcomes)
    ensures var b := Process(bucket, path, doc, names, o);
      forall k :: 0 <= k < |b.effects| ==> !b.effects[k].Unlink?
    ensures var b := Process(bucket, path, doc, names, o);
      forall k :: 0 <= k < |b.effects| && b.effects[k].DeleteStaged? ==>
        1 <= k && IsSuccessfulWrite(b.effects[k - 1]) && b.effects[k - 1].write.MarkCompleted?
  {
  }

  /** Call order in a claimed trace, for any finally block made of unlinks. */
  lemma ClaimedTraceOrder(i: nat, claim: seq<Effect>, fin: seq<Effect>, bucket: string, path: string, names: ArtifactNames, o: Outcomes)
    requires |claim| == 2 && claim[0].QueryJobs? && claim[1] == UpdateJob(i, MarkProcessing, true)
    requires forall k :: 0 <= k < |fin| ==> fin[k].Unlink?
    ensures var body := Process(bucket, path, i, names, o);
      var t := claim + body.effects + HandlerEffects(body, i, o.errorWrite) + fin;
      forall k :: 0 <= k < |t| && t[k].DeleteStaged? ==>
        1 <= k && IsSuccessfulWrite(t[k - 1]) && t[k - 1].write.MarkCompleted?
    ensures var body := Process(bucket, path, i, names, o);
      var t := claim + body.effects + HandlerEffects(body, i, o.errorWrite) + fin;
      t[|t| - |fin|..] == fin && forall k :: 0 <= k < |t| - |fin| ==> !t[k].Unlink?
  {
    var body := Process(bucket, path, i, names, o);
    ProcessCallOrder(bucket, path, i, names, o);
    var handler := HandlerEffects(body, i, o.errorWrite);
    var t := claim + body.effects + handler + fin;
    var n := |body.effects|;
    forall k | 0 <= k < |t|
      ensures t[k].DeleteStaged? ==> 1 <= k && IsSuccessfulWrite(t[k - 1]) && t[k - 1].write.MarkCompleted?
      ensures k < |t| - |fin| ==> !t[k].Unlink?
    {
      if k < 2 {
        assert t[k] == claim[k];
      } else if k < 2 + n {
        assert t[k] == body.effects[k - 2];
        if 3 <= k {
          assert t[k - 1] == body.effects[k - 3];
        }
      } else if k < 2 + n + |handler| {
        assert t[k] == handler[k - 2 - n];
      } else {
        assert t[k] == fin[k - 2 - n - |handler|];
      }
    }
    assert t[|t| - |fin|..] == fin;
  }

  /** Successful updates in a claimed trace, for any finally block made of
      unlinks: the claim's `processing`, then at most one terminal write. */
  lemma ClaimedTraceAdvances(i: nat, claim: seq<Effect>, fin: seq<Effect>, bucket: string, path: string, names: ArtifactNames, o: Outcomes)
    requires |claim| == 2 && claim[0].QueryJobs? && claim[1] == UpdateJob(i, MarkProcessing, true)
    requires forall k :: 0 <= k < |fin| ==> fin[k].Unlink?
    ensures var body := Process(bucket, path, i, names, o);
      var t := claim + body.effects + HandlerEffects(body, i, o.errorWrite) + fin;
      forall k1, k2 :: 0 <= k1 < k2 < |t| && IsSuccessfulWrite(t[k1]) && IsSuccessfulWrite(t[k2]) ==>
        Advances(TargetStatus(t[k1].write), TargetStatus(t[k2].write))
  {
    var body := Process(bucket, path, i, names, o);
    ProcessWrites(bucket, path, i, names, o);
    var handler := HandlerEffects(body, i, o.errorWrite);
    var t := claim + body.effects + handler + fin;
    var n := |body.effects|;
    forall k1, k2 | 0 <= k1 < k2 < |t| && IsSuccessfulWrite(t[k1]) && IsSuccessfulWrite(t[k2])
      ensures Advances(TargetStatus(t[k1].write), TargetStatus(t[k2].write))
    {
      if k2 < 2 + n {
        assert k2 >= 2 && t[k2] == body.effects[k2 - 2];
      } else if k2 < 2 + n + |handler| {
        assert t[k2] == handler[k2 - 2 - n];
      }
    }
  }

  /** The staged audio is only ever deleted right after a `completed` write
      that took effect. */
  lemma StagedDeleteFollowsCompletion(bucket: string, path: string, userId: string, store: Store, o: Outcomes,
                                      names: ArtifactNames, effs: seq<Effect>)
    requires effs == Run(bucket, path, userId, store, o, names).effects
    ensures forall k :: 0 <= k < |effs| && effs[k].DeleteStaged? ==>
      1 <= k && IsSuccessfulWrite(effs[k - 1]) && effs[k - 1].write.MarkCompleted?
  {
    var inv := Run(bucket, path, userId, store, o, names);
    if inv.claimed.Some? {
      ClaimedShape(bucket, path, userId, store, o, names);
      var i := inv.claimed.value;
      ClaimedTraceOrder(i, [QueryJobs(path, userId), UpdateJob(i, MarkProcessing, true)],
        Cleanup(names, o.files, o.unlinkVideo, o.unlinkAudio).effects, bucket, path, names, o);
    }
  }

  /** Once a job is claimed the finally block always runs last, and the
      local files are unlinked nowhere else. */
  lemma CleanupAlwaysRuns(bucket: string, path: string, userId: string, store: Store, o: Outcomes, names: ArtifactNames,
                          effs: seq<Effect>)
    requires Run(bucket, path, userId, store, o, names).claimed.Some?
    requires effs == Run(bucket, path, userId, store, o, names).effects
    ensures var fin := Cleanup(names, o.files, o.unlinkVideo, o.unlinkAudio).effects;
      |fin| <= |effs| && effs[|effs| - |fin|..] == fin &&
      forall k :: 0 <= k < |effs| - |fin| ==> !effs[k].Unlink?
  {
    ClaimedShape(bucket, path, userId, store, o, names);
    var i := Run(bucket, path, userId, store, o, names).claimed.value;
    ClaimedTraceOrder(i, [QueryJobs(path, userId), UpdateJob(i, MarkProcessing, true)],
      Cleanup(names, o.files, o.unlinkVideo, o.unlinkAudio).effects, bucket, path, names, o);
  }

  /** For a `.wav` upload the local video copy and the extracted audio are
      one file: when it exists, the finally block unlinks it once. */
  lemma CleanupSharedFile(names: ArtifactNames, files: LocalFiles, unlinkVideo: Outcome<()>, unlinkAudio: Outcome<()>)
    requires names.tempAudio == names.tempVideo && files.video
    ensures Cleanup(names, files, unlinkVideo, unlinkAudio).effects == [Unlink(names.tempVideo, unlinkVideo.Ok?)]
  {
  }

  /** Running the finally block again after it removed both files does
      nothing and raises nothing. */
  lemma CleanupTwice(names: ArtifactNames, files: LocalFiles, unlinkVideo2: Outcome<()>, unlinkAudio2: Outcome<()>)
    ensures var again := Remaining(names, files, Ok(()), Ok(()));
      Cleanup(names, again, unlinkVideo2, unlinkAudio2) == Block([], None)
  {
  }

  // ---------------------------------------------------------------------
  // Failures that change nothing

  /** An update, delete or unlink with its success flag forgotten: the call
      as attempted. */
  function Attempted(e: Effect): Effect {
    match e
    case UpdateJob(d, w, _) => UpdateJob(d, w, true)
    case DeleteStaged(b, p, _) => DeleteStaged(b, p, true)
    case Unlink(n, _) => Unlink(n, true)
    case _ => e
  }

  function Attempts(effs: seq<Effect>): (r: seq<Effect>)
    ensures |r| == |effs| && forall k :: 0 <= k < |effs| ==> r[k] == Attempted(effs[k])
  {
    seq(|effs|, k requires 0 <= k < |effs| => Attempted(effs[k]))
  }

  lemma AttemptsConcat(a: seq<Effect>, b: seq<Effect>)
    ensures Attempts(a + b) == Attempts(a) + Attempts(b)
  {
  }

  /** Two claimed traces that differ only in success flags make the same
      calls. */
  lemma SameAttempts(claim: seq<Effect>, b1: seq<Effect>, b2: seq<Effect>, h1: seq<Effect>, h2: seq<Effect>, fin: seq<Effect>)
    requires Attempts(b1) == Attempts(b2) && Attempts(h1) == Attempts(h2)
    ensures Attempts(claim + b1 + h1 + fin) == Attempts(claim + b2 + h2 + fin)
  {
    AttemptsConcat(claim + b1 + h1, fin);
    AttemptsConcat(claim + b2 + h2, fin);
    AttemptsConcat(claim + b1, h1);
    AttemptsConcat(claim + b2, h2);
    AttemptsConcat(claim, b1);
    AttemptsConcat(claim, b2);
  }

  /** A failing `error` write is swallowed: the handler still returns
      normally and makes the same calls, cleanup included. */
  lemma ErrorWriteFailureSwallowed(bucket: string, path: string, userId: string, store: Store, o: Outcomes,
                                   names: ArtifactNames, msg: string)
    ensures var failed := Run(bucket, path, userId, store, o.(errorWrite := Fail(msg)), names);
      var succeeded := Run(bucket, path, userId, store, o.(errorWrite := Ok(())), names);
      failed.escaped.None? && failed.claimed == succeeded.claimed &&
      Attempts(failed.effects) == Attempts(succeeded.effects)
  {
    var o1 := o.(errorWrite := Fail(msg));
    var o2 := o.(errorWrite := Ok(()));
    assert ClaimJob(store, path, userId, o1) == ClaimJob(store, path, userId, o2);
    var failed := Run(bucket, path, userId, store, o1, names);
    if failed.claimed.Some? {
      ClaimedShape(bucket, path, userId, store, o1, names);
      ClaimedShape(bucket, path, userId, store, o2, names);
      var i := failed.claimed.value;
      var body := Process(bucket, path, i, names, o1);
      assert Process(bucket, path, i, names, o2) == body;
      SameAttempts([QueryJobs(path, userId), UpdateJob(i, MarkProcessing, true)], body.effects, body.effects,
        HandlerEffects(body, i, o1.errorWrite), HandlerEffects(body, i, o2.errorWrite),
        Cleanup(names, o.files, o.unlinkVideo, o.unlinkAudio).effects);
    }
  }

  /** Whether the staged-audio delete succeeds or fails, the processing
      block makes the same calls and ends the same way. */
  lemma ProcessIgnoresDeleteOutcome(bucket: string, path: string, doc: nat, names: ArtifactNames, o: Outcomes, msg: string)
    ensures var failed := Process(bucket, path, doc, names, o.(remoteDelete := Fail(msg)));
      var succeeded := Process(bucket, path, doc, names, o.(remoteDelete := Ok(())));
      failed.thrown == succeeded.thrown && Attempts(failed.effects) == Attempts(succeeded.effects)
  {
    FailureMessageCases(o.(remoteDelete := Fail(msg)));
    FailureMessageCases(o.(remoteDelete := Ok(())));
  }

  /** A failing delete of the staged audio is swallowed: the handler makes
      the same calls as when the delete succeeds. */
  lemma StagedDeleteFailureSwallowed(bucket: string, path: string, userId: string, store: Store, o: Outcomes,
                                     names: ArtifactNames, msg: string)
    ensures var failed := Run(bucket, path, userId, store, o.(remoteDelete := Fail(msg)), names);
      var succeeded := Run(bucket, path, userId, store, o.(remoteDelete := Ok(())), names);
      failed.escaped.None? && failed.claimed == succeeded.claimed &&
      Attempts(failed.effects) == Attempts(succeeded.effects)
  {
    var o1 := o.(remoteDelete := Fail(msg));
    var o2 := o.(remoteDelete := Ok(()));
    assert ClaimJob(store, path, userId, o1) == ClaimJob(store, path, userId, o2);
    var failed := Run(bucket, path, userId, store, o1, names);
    if failed.claimed.Some? {
      ClaimedShape(bucket, path, userId, store, o1, names);
      ClaimedShape(bucket, path, userId, store, o2, names);
      var i := failed.claimed.value;
      var b1 := Process(bucket, path, i, names, o1);
      var b2 := Process(bucket, path, i, names, o2);
      ProcessIgnoresDeleteOutcome(bucket, path, i, names, o, msg);
      assert HandlerEffects(b1, i, o1.errorWrite) == HandlerEffects(b2, i, o2.errorWrite);
      SameAttempts([QueryJobs(path, userId), UpdateJob(i, MarkProcessing, true)], b1.effects, b2.effects,
        HandlerEffects(b1, i, o1.errorWrite), HandlerEffects(b2, i, o2.errorWrite),
        Cleanup(names, o.files, o.unlinkVideo, o.unlinkAudio).effects);
    }
  }

  // ---------------------------------------------------------------------
  // The record store

  /** One effect on the store: an update that took effect rewrites its
      record; nothing else changes the store. */
  function ApplyEffect(store: Store, e: Effect): (r: Store)
    ensures |r| == |store|
  {
    if e.UpdateJob? && e.ok && e.doc < |store| then store[e.doc := ApplyWrite(store[e.doc], e.write)]
    else store
  }

  function ApplyEffects(store: Store, effs: seq<Effect>): (r: Store)
    ensures |r| == |store|
    decreases |effs|
  {
    if |effs| == 0 then store else ApplyEffects(ApplyEffect(store, effs[0]), effs[1..])
  }

  lemma {:induction false} ApplyEffectsAppend(store: Store, a: seq<Effect>, b: seq<Effect>)
    ensures ApplyEffects(store, a + b) == ApplyEffects(ApplyEffects(store, a), b)
    decreases |a|
  {
    if |a| == 0 {
      assert a + b == b;
    } else {
      assert (a + b)[1..] == a[1..] + b;
      ApplyEffectsAppend(ApplyEffect(store, a[0]), a[1..], b);
    }
  }

  /** Effects none of which is a successful update leave the store as is. */
  lemma {:induction false} ApplyWithoutWrites(store: Store, effs: seq<Effect>)
    requires forall k :: 0 <= k < |effs| ==> !IsSuccessfulWrite(effs[k])
    ensures ApplyEffects(store, effs) == store
    decreases |effs|
  {
    if |effs| > 0 {
      assert !IsSuccessfulWrite(effs[0]);
      ApplyWithoutWrites(store, effs[1..]);
    }
  }

  /** Writing the same fields twice is writing them once. */
  lemma ApplyWriteIdempotent(rec: JobRecord, w: JobWrite)
    ensures ApplyWrite(ApplyWrite(rec, w), w) == ApplyWrite(rec, w)
  {
  }

  /** Effects whose updates all write `w` to record `i` leave the store with
      `w` applied to `i` if one of them took effect, and unchanged otherwise. */
  lemma {:induction false} ApplyUniformWrites(store: Store, effs: seq<Effect>, i: nat, w: JobWrite)
    requires i < |store|
    requires forall k :: 0 <= k < |effs| && effs[k].UpdateJob? ==> effs[k].doc == i && effs[k].write == w
    ensures (exists k :: 0 <= k < |effs| && IsSuccessfulWrite(effs[k])) ==>
      ApplyEffects(store, effs) == store[i := ApplyWrite(store[i], w)]
    ensures (forall k :: 0 <= k < |effs| ==> !IsSuccessfulWrite(effs[k])) ==>
      ApplyEffects(store, effs) == store
    decreases |effs|
  {
    if |effs| == 0 {
    } else {
      var tail := effs[1..];
      forall k | 0 <= k < |tail| && tail[k].UpdateJob?
        ensures tail[k].doc == i && tail[k].write == w
      {
        assert tail[k] == effs[k + 1];
      }
      var s1 := ApplyEffect(store, effs[0]);
      ApplyUniformWrites(s1, tail, i, w);
      if IsSuccessfulWrite(effs[0]) {
        ApplyWriteIdempotent(store[i], w);
        assert s1 == store[i := ApplyWrite(store[i], w)];
        if exists k :: 0 <= k < |tail| && IsSuccessfulWrite(tail[k]) {
          assert s1[i := ApplyWrite(s1[i], w)] == s1;
        }
      } else {
        assert s1 == store;
        if exists k :: 0 <= k < |effs| && IsSuccessfulWrite(effs[k]) {
          var k :| 0 <= k < |effs| && IsSuccessfulWrite(effs[k]);
          assert IsSuccessfulWrite(tail[k - 1]);
        }
        if forall k :: 0 <= k < |effs| ==> !IsSuccessfulWrite(effs[k]) {
          assert forall k :: 0 <= k < |tail| ==> !IsSuccessfulWrite(tail[k]) by {
            forall k | 0 <= k < |tail| ensures !IsSuccessfulWrite(tail[k]) {
              assert tail[k] == effs[k + 1];
            }
          }
        }
      }
    }
  }

  /** What the try block does to the store: the `completed` write lands on
      the claimed record exactly when the block did not throw. */
  lemma ProcessOnStore(bucket: string, path: string, doc: nat, names: ArtifactNames, o: Outcomes, store: Store)
    requires doc < |store|
    ensures var body := Process(bucket, path, doc, names, o);
      body.thrown.None? ==>
        o.recognition.Ok? &&
        ApplyEffects(store, body.effects) == store[doc := ApplyWrite(store[doc], CompletedWrite(o.recognition.value))]
    ensures var body := Process(bucket, path, doc, names, o);
      body.thrown.Some? ==> ApplyEffects(store, body.effects) == store
  {
    var body := Process(bucket, path, doc, names, o);
    ProcessWrites(bucket, path, doc, names, o);
    if body.thrown.None? {
      var w := CompletedWrite(o.recognition.value);
      assert IsSuccessfulWrite(body.effects[|body.effects| - 2]);
      ApplyUniformWrites(store, body.effects, doc, w);
    } else {
      ApplyWithoutWrites(store, body.effects);
    }
  }

  /** A claimed trace on the store: the claim moves record `i` to
      `processing`, the finally block writes nothing. */
  lemma ClaimedTraceOnStore(store: Store, i: nat, claim: seq<Effect>, body: seq<Effect>, handler: seq<Effect>, fin: seq<Effect>)
    requires i < |store|
    requires |claim| == 2 && claim[0].QueryJobs? && claim[1] == UpdateJob(i, MarkProcessing, true)
    requires forall k :: 0 <= k < |fin| ==> !IsSuccessfulWrite(fin[k])
    ensures ApplyEffects(store, claim + body + handler + fin) ==
      ApplyEffects(ApplyEffects(store[i := store[i].(status := Processing)], body), handler)
  {
    var s1 := store[i := store[i].(status := Processing)];
    assert ApplyEffects(store, claim) == s1 by {
      assert ApplyEffect(store, claim[0]) == store;
      assert ApplyEffect(store, claim[1]) == s1;
      assert claim[1..][1..] == [];
      assert ApplyEffects(store, claim[1..]) == ApplyEffects(s1, []);
    }
    ApplyEffectsAppend(store, claim + body + handler, fin);
    ApplyEffectsAppend(store, claim + body, handler);
    ApplyEffectsAppend(store, claim, body);
    ApplyWithoutWrites(ApplyEffects(store, claim + body + handler), fin);
  }

  /** The catch block on the store: the `error` write lands exactly when
      the try block threw and the write succeeded. */
  lemma HandlerOnStore(store: Store, body: Block, i: nat, errorWrite: Outcome<()>)
    requires i < |store|
    ensures body.thrown.Some? && errorWrite.Ok? ==>
      ApplyEffects(store, HandlerEffects(body, i, errorWrite)) == store[i := ApplyWrite(store[i], MarkError(body.thrown.value))]
    ensures body.thrown.None? || errorWrite.Fail? ==>
      ApplyEffects(store, HandlerEffects(body, i, errorWrite)) == store
  {
  }

  /** The record updates a claimed invocation makes, in order: the claim,
      the `completed` write if the try block finished, the `error` write
      if it threw and that write succeeded. */
  function ClaimedUpdates(store: Store, i: nat, thrown: Option<string>, completed: JobWrite, errorOk: bool): (r: Store)
    requires i < |store|
    ensures |r| == |store|
    ensures forall j :: 0 <= j < |store| && j != i ==> r[j] == store[j]
    ensures thrown.None? ==> r[i] == ApplyWrite(store[i].(status := Processing), completed)
    ensures thrown.Some? && errorOk ==> r[i] == ApplyWrite(store[i].(status := Processing), MarkError(thrown.value))
    ensures thrown.Some? && !errorOk ==> r[i] == store[i].(status := Processing)
  {
    var s1 := store[i := store[i].(status := Processing)];
    var s2 := if thrown.None? then s1[i := ApplyWrite(s1[i], completed)] else s1;
    if thrown.Some? && errorOk then s2[i := ApplyWrite(s2[i], MarkError(thrown.value))] else s2
  }

  /** A claimed trace applied to the store is `ClaimedUpdates`, for any
      try block whose effect on the store is its `completed` write when it
      does not throw, and any finally block that writes nothing. */
  lemma BlockUpdates(store: Store, i: nat, claim: seq<Effect>, body: Block, w: JobWrite, errorWrite: Outcome<()>, fin: seq<Effect>)
    requires i < |store|
    requires |claim| == 2 && claim[0].QueryJobs? && claim[1] == UpdateJob(i, MarkProcessing, true)
    requires forall k :: 0 <= k < |fin| ==> !IsSuccessfulWrite(fin[k])
    requires var s1 := store[i := store[i].(status := Processing)];
      ApplyEffects(s1, body.effects) == if body.thrown.None? then s1[i := ApplyWrite(s1[i], w)] else s1
    ensures ApplyEffects(store, claim + body.effects + HandlerEffects(body, i, errorWrite) + fin) ==
      ClaimedUpdates(store, i, body.thrown, w, errorWrite.Ok?)
  {
    var handler := HandlerEffects(body, i, errorWrite);
    ClaimedTraceOnStore(store, i, claim, body.effects, handler, fin);
    var s1 := store[i := store[i].(status := Processing)];
    HandlerOnStore(ApplyEffects(s1, body.effects), body, i, errorWrite);
  }

  /** The same for the handler's own try block. */
  lemma TraceUpdates(store: Store, i: nat, claim: seq<Effect>, fin: seq<Effect>, bucket: string, path: string, names: ArtifactNames, o: Outcomes)
    requires i < |store|
    requires |claim| == 2 && claim[0].QueryJobs? && claim[1] == UpdateJob(i, MarkProcessing, true)
    requires forall k :: 0 <= k < |fin| ==> !IsSuccessfulWrite(fin[k])
    ensures FailureMessage(o).None? ==> o.recognition.Ok?
    ensures var body := Process(bucket, path, i, names, o);
      ApplyEffects(store, claim + body.effects + HandlerEffects(body, i, o.errorWrite) + fin) ==
      ClaimedUpdates(store, i, FailureMessage(o),
        if o.recognition.Ok? then CompletedWrite(o.recognition.value) else MarkProcessing, o.errorWrite.Ok?)
  {
    var body := Process(bucket, path, i, names, o);
    var w := if o.recognition.Ok? then CompletedWrite(o.recognition.value) else MarkProcessing;
    ProcessOnStore(bucket, path, i, names, o, store[i := store[i].(status := Processing)]);
    BlockUpdates(store, i, claim, body, w, o.errorWrite, fin);
  }

  /** A claimed invocation's trace applied to the store is `ClaimedUpdates`. */
  lemma ClaimedTraceUpdates(bucket: string, path: string, userId: string, store: Store, o: Outcomes, names: ArtifactNames, effs: seq<Effect>)
    requires Run(bucket, path, userId, store, o, names).claimed.Some?
    requires effs == Run(bucket, path, userId, store, o, names).effects
    ensures Run(bucket, path, userId, store, o, names).claimed.value < |store|
    ensures FailureMessage(o).None? ==> o.recognition.Ok?
    ensures ApplyEffects(store, effs) ==
      ClaimedUpdates(store, Run(bucket, path, userId, store, o, names).claimed.value, FailureMessage(o),
        if o.recognition.Ok? then CompletedWrite(o.recognition.value) else MarkProcessing, o.errorWrite.Ok?)
  {
    ClaimedShape(bucket, path, userId, store, o, names);
    var i := Run(bucket, path, userId, store, o, names).claimed.value;
    TraceUpdates(store, i, [QueryJobs(path, userId), UpdateJob(i, MarkProcessing, true)],
      Cleanup(names, o.files, o.unlinkVideo, o.unlinkAudio).effects, bucket, path, names, o);
  }

  /** An invocation that claims no record leaves the store as it was. */
  lemma UnclaimedStoreUnchanged(bucket: string, path: string, userId: string, store: Store, o: Outcomes, names: ArtifactNames, effs: seq<Effect>)
    requires Run(bucket, path, userId, store, o, names).claimed.None?
    requires effs == Run(bucket, path, userId, store, o, names).effects
    ensures ApplyEffects(store, effs) == store
  {
    ApplyWithoutWrites(store, effs);
  }

  /** The store after an invocation that claimed record `i` and produced
      the trace `effs`. The record was `uploaded`; no other record changes;
      it ends `completed` with the recognition result when nothing failed,
      `error` with the failure's message when the error write succeeded,
      and stays `processing` when that write failed too. */
  lemma FinalStore(bucket: string, path: string, userId: string, store: Store, o: Outcomes, names: ArtifactNames, i: nat, effs: seq<Effect>)
    requires Run(bucket, path, userId, store, o, names).claimed == Some(i)
    requires effs == Run(bucket, path, userId, store, o, names).effects
    ensures i < |store| && store[i].status == Uploaded
    ensures forall j :: 0 <= j < |store| && j != i ==> ApplyEffects(store, effs)[j] == store[j]
    ensures FailureMessage(o).None? ==>
      o.recognition.Ok? &&
      ApplyEffects(store, effs)[i] == ApplyWrite(store[i].(status := Processing), CompletedWrite(o.recognition.value))
    ensures FailureMessage(o).Some? && o.errorWrite.Ok? ==>
      ApplyEffects(store, effs)[i] == ApplyWrite(store[i].(status := Processing), MarkError(FailureMessage(o).value))
    ensures FailureMessage(o).Some? && o.errorWrite.Fail? ==>
      ApplyEffects(store, effs)[i] == store[i].(status := Processing)
  {
    ClaimedTraceUpdates(bucket, path, userId, store, o, names, effs);
  }


  /** Whether the staged-audio delete fails or not makes no difference to
      the record store. */
  lemma StagedDeleteFailureKeepsStore(bucket: string, path: string, userId: string, store: Store, o: Outcomes,
                                      names: ArtifactNames, msg: string)
    ensures ApplyEffects(store, Run(bucket, path, userId, store, o.(remoteDelete := Fail(msg)), names).effects) ==
            ApplyEffects(store, Run(bucket, path, userId, store, o.(remoteDelete := Ok(())), names).effects)
  {
    var of := o.(remoteDelete := Fail(msg));
    var os := o.(remoteDelete := Ok(()));
    var failed := Run(bucket, path, userId, store, of, names);
    var succeeded := Run(bucket, path, userId, store, os, names);
    FailureMessageCases(of);
    FailureMessageCases(os);
    assert FailureMessage(of) == FailureMessage(os);
    if failed.claimed.None? {
      UnclaimedStoreUnchanged(bucket, path, userId, store, of, names, failed.effects);
      UnclaimedStoreUnchanged(bucket, path, userId, store, os, names, succeeded.effects);
    } else {
      var i := failed.claimed.value;
      FinalStore(bucket, path, userId, store, of, names, i, failed.effects);
      FinalStore(bucket, path, userId, store, os, names, i, succeeded.effects);
    }
  }


  /** The record's status only moves forward along the lifecycle: of any
      two updates in a trace that took effect, the later one advances the
      status the earlier one set, so the claim's `processing` is followed
      by at most one terminal write, and nothing comes after it. */
  lemma StatusOnlyAdvances(bucket: string, path: string, userId: string, store: Store, o: Outcomes,
                           names: ArtifactNames, effs: seq<Effect>)
    requires effs == Run(bucket, path, userId, store, o, names).effects
    ensures forall k1, k2 :: 0 <= k1 < k2 < |effs| && IsSuccessfulWrite(effs[k1]) && IsSuccessfulWrite(effs[k2]) ==>
      Advances(TargetStatus(effs[k1].write), TargetStatus(effs[k2].write))
  {
    var inv := Run(bucket, path, userId, store, o, names);
    if inv.claimed.Some? {
      ClaimedShape(bucket, path, userId, store, o, names);
      var i := inv.claimed.value;
      ClaimedTraceAdvances(i, [QueryJobs(path, userId), UpdateJob(i, MarkProcessing, true)],
        Cleanup(names, o.files, o.unlinkVideo, o.unlinkAudio).effects, bucket, path, names, o);
    }
  }
}
