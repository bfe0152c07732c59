/** The `transcriptionJobs` record store as the handler sees it: the records
    in the order the store's query returns them, the pending-job lookup
    (`originalVideoPath == path`, `userId == owner`, `status == "uploaded"`,
    limit 1), and the three partial updates the handler writes. A record is
    referred to by its position in the store. */
module Jobs {
  import opened Wrappers
  import opened Recognition

  datatype Status = Uploaded | Processing | Completed | Error

  /** A job record; `errorMessage == None` stands for null or absent. The
      `updatedAt` timestamp is not modelled. */
  datatype JobRecord = JobRecord(
    originalVideoPath: string,
    userId: string,
    status: Status,
    transcript: Option<string>,
    wordTimings: Option<seq<WordTiming>>,
    errorMessage: Option<string>)

  type Store = seq<JobRecord>

  /** The fields one `update` call sets; `note` is the `errorMessage`
      written alongside a completion (None for null). */
  datatype JobWrite =
    | MarkProcessing
    | MarkCompleted(transcript: string, wordTimings: seq<WordTiming>, note: Option<string>)
    | MarkError(message: string)

  /** The record matches the pending-job query for this upload. */
  predicate Pending(rec: JobRecord, path: string, userId: string) {
    rec.originalVideoPath == path && rec.userId == userId && rec.status == Uploaded
  }

  /** The single record the limit-1 query returns: the first pending match. */
  function FirstMatch(store: Store, path: string, userId: string): (r: Option<nat>)
    ensures r.Some? ==> r.value < |store| && Pending(store[r.value], path, userId)
    ensures r.Some? ==> forall j :: 0 <= j < r.value ==> !Pending(store[j], path, userId)
    ensures r.None? ==> forall j :: 0 <= j < |store| ==> !Pending(store[j], path, userId)
  {
    FirstMatchFrom(store, path, userId, 0)
  }

  function FirstMatchFrom(store: Store, path: string, userId: string, from: nat): (r: Option<nat>)
    requires from <= |store|
    ensures r.Some? ==> from <= r.value < |store| && Pending(store[r.value], path, userId)
    ensures r.Some? ==> forall j :: from <= j < r.value ==> !Pending(store[j], path, userId)
    ensures r.None? ==> forall j :: from <= j < |store| ==> !Pending(store[j], path, userId)
    decreases |store| - from
  {
    if from == |store| then None
    else if Pending(store[from], path, userId) then Some(from)
    else FirstMatchFrom(store, path, userId, from + 1)
  }

  /** The status an update moves the record to. */
  function TargetStatus(w: JobWrite): Status {
    match w
    case MarkProcessing => Processing
    case MarkCompleted(_, _, _) => Completed
    case MarkError(_) => Error
  }

  /** A partial update: the written fields change, every other field keeps
      its value; in particular the path and owner never change. */
  function ApplyWrite(rec: JobRecord, w: JobWrite): (r: JobRecord)
    ensures r.originalVideoPath == rec.originalVideoPath && r.userId == rec.userId
    ensures r.status == TargetStatus(w)
    ensures w.MarkProcessing? ==> r == rec.(status := Processing)
    ensures w.MarkError? ==>
      r.errorMessage == Some(w.message) && r.transcript == rec.transcript && r.wordTimings == rec.wordTimings
    ensures w.MarkCompleted? ==>
      r.transcript == Some(w.transcript) && r.wordTimings == Some(w.wordTimings) && r.errorMessage == w.note
  {
    match w
    case MarkProcessing => rec.(status := Processing)
    case MarkCompleted(t, ws, m) =>
      rec.(status := Completed, transcript := Some(t), wordTimings := Some(ws), errorMessage := m)
    case MarkError(m) => rec.(status := Error, errorMessage := Some(m))
  }

  /** `completed` and `error` are terminal. */
  predicate Terminal(s: Status) {
    s == Completed || s == Error
  }

  /** The lifecycle order uploaded, processing, then completed or error. */
  predicate Advances(from: Status, to: Status) {
    (from == Uploaded && to == Processing) || (from == Processing && Terminal(to))
  }
}
