/**
 * One attempt at downloadSourceTile (src/lib/copernicus_terrain_provider.cpp), written as the
 * list of disk contents it leaves after every file operation. A crash or a kill keeps some
 * element of that list, which is where the next attempt starts.
 */
module SourceDownload {
  import opened Wrappers
  import opened Bytes
  import opened DownloadValidation
  import opened ResumeState

  const MAX_SOURCE_BYTES: int := 256 * 1024 * 1024

  /** The four files of a source cell; None is an absent file. */
  datatype Disk = Disk(final: Option<seq<byte>>, partial: Option<seq<byte>>,
                       metadata: Option<seq<byte>>, incoming: Option<seq<byte>>)

  const EMPTY_DISK := Disk(None, None, None, None)

  datatype FileOp =
    | RemovePartial
    | RemoveMetadata
    | RemoveIncoming
    | OpenIncoming
    | WriteIncoming(chunk: seq<byte>)
    | RenameIncoming
    | CommitPartial(content: seq<byte>)
    | CommitMetadata(content: seq<byte>)
    | CommitFinal(content: seq<byte>)

  function Content(file: Option<seq<byte>>): seq<byte> {
    if file.Some? then file.value else []
  }

  /** QFile::rename needs its source and does not overwrite. */
  predicate Possible(op: FileOp, d: Disk) {
    op.RenameIncoming? ==> d.incoming.Some? && d.partial.None?
  }

  function Apply(op: FileOp, d: Disk): Disk {
    match op
    case RemovePartial => d.(partial := None)
    case RemoveMetadata => d.(metadata := None)
    case RemoveIncoming => d.(incoming := None)
    case OpenIncoming => d.(incoming := Some([]))
    case WriteIncoming(chunk) => d.(incoming := Some(Content(d.incoming) + chunk))
    case RenameIncoming => if Possible(op, d) then d.(partial := d.incoming, incoming := None) else d
    case CommitPartial(content) => d.(partial := Some(content))
    case CommitMetadata(content) => d.(metadata := Some(content))
    case CommitFinal(content) => d.(final := Some(content))
  }

  // ---------------------------------------------------------------- what the environment decides

  datatype NetworkError = NoError | ContentNotFound | OtherError

  /** The upstream's answer as the client sees it; the body arrives in chunks. */
  datatype Transfer = Transfer(status: int, contentLength: Option<int>, etag: seq<byte>,
                               contentRange: seq<byte>, chunks: seq<seq<byte>>,
                               error: NetworkError, expired: bool)

  /** Where a cancellation is noticed, by cancel generation or by the job's own token. */
  datatype Cancellation = Cancellation(generation: bool, token: bool, afterTransfer: bool, beforePublish: bool)

  /**
   * `failing` numbers the file operations that fail and change nothing; removals of the
   * metadata file have their own set, because they decide what the attempt guarantees.
   */
  datatype Attempt = Attempt(transfer: Transfer, cancel: Cancellation,
                             failing: set<nat>, stuckMetadata: set<nat>)

  datatype Status = Ready | Unavailable | NetworkFailure | ReadFailure | Cancelled

  datatype Outcome = Outcome(history: History, status: Status)

  predicate Intact(t: Transfer) {
    t.error.NoError? && !t.expired
  }

  function Flatten(chunks: seq<seq<byte>>): seq<byte> {
    if chunks == [] then [] else chunks[0] + Flatten(chunks[1..])
  }

  // ---------------------------------------------------------------- file operations in sequence

  type History = h: seq<Disk> | h != [] witness [EMPTY_DISK]

  function Last(h: History): Disk {
    h[|h| - 1]
  }

  predicate Fails(h: History, op: FileOp, a: Attempt) {
    |h| in (if op.RemoveMetadata? then a.stuckMetadata else a.failing)
  }

  predicate Succeeds(h: History, op: FileOp, a: Attempt) {
    !Fails(h, op, a) && Possible(op, Last(h))
  }

  function Do(h: History, op: FileOp, a: Attempt): History {
    h + [if Fails(h, op, a) then Last(h) else Apply(op, Last(h))]
  }

  function DiscardPartial(h: History, a: Attempt): History {
    Do(Do(h, RemovePartial, a), RemoveMetadata, a)
  }

  // ---------------------------------------------------------------- the attempt

  datatype Received = Received(history: History, downloaded: int, failed: bool)

  function Receive(h: History, chunks: seq<seq<byte>>, downloaded: int, a: Attempt): Received
    decreases |chunks|
  {
    if chunks == [] then Received(h, downloaded, false)
    else
      var total := downloaded + |chunks[0]|;
      var write := WriteIncoming(chunks[0]);
      if total > MAX_SOURCE_BYTES then Received(h, total, true)
      else if !Succeeds(h, write, a) then Received(Do(h, write, a), total, true)
      else Receive(Do(h, write, a), chunks[1..], total, a)
  }

  predicate HasFinal(d: Disk) {
    d.final.Some? && d.final.value != []
  }

  function Prior(d: Disk): Option<PartialState> {
    Load(d.partial, d.metadata, MAX_SOURCE_BYTES)
  }

  /** Under the source lock: drop an unusable pair and stage an empty incoming file. */
  function Staging(d: Disk, a: Attempt): History {
    var h: History := [d];
    Do(if Prior(d).None? then DiscardPartial(h, a) else h, RemoveIncoming, a)
  }

  /** The state after the whole response is in; None when the attempt stops before that. */
  function Transferred(d: Disk, a: Attempt): Option<Received> {
    var h := Staging(d, a);
    if HasFinal(d) || !Succeeds(h, OpenIncoming, a) || a.cancel.generation || a.cancel.token
    then None
    else Some(Receive(Do(h, OpenIncoming, a), a.transfer.chunks, 0, a))
  }

  /** A cut-off full response worth keeping: a strong entity of known, larger size. */
  predicate WorthKeeping(t: Transfer, downloaded: int) {
    && t.status == 200 && downloaded > 0
    && t.contentLength.Some? && downloaded < t.contentLength.value <= MAX_SOURCE_BYTES
    && ValidStrongEtag(t.etag)
  }

  predicate NotFound(t: Transfer) {
    t.status == 404 || t.error.ContentNotFound?
  }

  /** saveCopernicusPartialState: an invalid state is refused, the commit is atomic. */
  function SaveState(h: History, state: PartialState, a: Attempt): (History, bool) {
    if !ValidPartialState(state, MAX_SOURCE_BYTES) then (h, false)
    else
      var commit := CommitMetadata(MetadataText(state));
      (Do(h, commit, a), Succeeds(h, commit, a))
  }

  function KeepPrefix(h: History, downloaded: int, a: Attempt): History
    requires a.transfer.contentLength.Some?
  {
    var cleared := DiscardPartial(h, a);
    var renamed := Do(cleared, RenameIncoming, a);
    if !Succeeds(cleared, RenameIncoming, a) then Do(renamed, RemoveIncoming, a)
    else
      var (saved, ok) := SaveState(
        renamed, PartialState(downloaded, a.transfer.contentLength.value, a.transfer.etag), a);
      if ok then saved else DiscardPartial(saved, a)
  }

  /** appendCopernicusPartialSuffix. */
  function AppendSuffix(h: History, state: PartialState, suffixBytes: int, a: Attempt): History {
    var d := Last(h);
    if !ValidPartialState(state, MAX_SOURCE_BYTES)
       || !(0 < suffixBytes < state.total - state.downloaded)
       || Prior(d) != Some(state) || |Content(d.incoming)| != suffixBytes
    then h
    else
      var commit := CommitPartial(d.partial.value + Content(d.incoming));
      if !Succeeds(h, commit, a) then Do(h, commit, a)
      else SaveState(Do(h, commit, a), state.(downloaded := state.downloaded + suffixBytes), a).0
  }

  /** A cut-off range response that continues exactly the entity the partial file belongs to. */
  predicate ContinuesPrior(t: Transfer, state: PartialState, downloaded: int) {
    var range := ParseContentRange(t.contentRange);
    var remaining := state.total - state.downloaded;
    && range.Some? && range.value.first == state.downloaded && range.value.total == state.total
    && range.value.last + 1 == range.value.total
    && range.value.last - range.value.first + 1 == remaining
    && t.etag == state.etag && t.contentLength == Some(remaining) && downloaded < remaining
  }

  function Interrupted(prior: Option<PartialState>, r: Received, a: Attempt): History {
    var t := a.transfer;
    if WorthKeeping(t, r.downloaded) then KeepPrefix(r.history, r.downloaded, a)
    else if t.status == 206 && prior.Some? && r.downloaded > 0 then
      var h := if ContinuesPrior(t, prior.value, r.downloaded)
               then AppendSuffix(r.history, prior.value, r.downloaded, a) else r.history;
      Do(h, RemoveIncoming, a)
    else Do(r.history, RemoveIncoming, a)
  }

  /** The Content-Length of the response, or -1. */
  function DeclaredLength(t: Transfer): int {
    if t.contentLength.Some? then t.contentLength.value else -1
  }

  predicate AppendsPrior(prior: Option<PartialState>, t: Transfer, downloaded: int) {
    && t.status == 206 && prior.Some?
    && ClassifyResumeResponse(t.status, prior.value.downloaded, downloaded, t.contentRange,
                              prior.value.etag, t.etag, MAX_SOURCE_BYTES).AppendVerifiedRange?
    && prior.value.downloaded + downloaded == prior.value.total
  }

  function Complete(prior: Option<PartialState>, r: Received, a: Attempt): Outcome {
    var t := a.transfer;
    var append := AppendsPrior(prior, t, r.downloaded);
    var full := CompleteResponse(t.status, r.downloaded, DeclaredLength(t));
    var discarded := Do(r.history, RemoveIncoming, a);
    if (!append && !full) || (append && t.contentLength.Some? && t.contentLength.value != r.downloaded)
    then Outcome(if t.status == 206 then DiscardPartial(discarded, a) else discarded, NetworkFailure)
    else if a.cancel.beforePublish then Outcome(discarded, Cancelled)
    else
      var d := Last(r.history);
      var commit := CommitFinal((if append then Content(d.partial) else []) + Content(d.incoming));
      var published := Do(Do(r.history, commit, a), RemoveIncoming, a);
      if !Succeeds(r.history, commit, a) then Outcome(published, ReadFailure)
      else Outcome(DiscardPartial(published, a), Ready)
  }

  function Finish(prior: Option<PartialState>, r: Received, a: Attempt): Outcome {
    var t := a.transfer;
    var discarded := Do(r.history, RemoveIncoming, a);
    if a.cancel.afterTransfer then Outcome(discarded, Cancelled)
    else if r.failed then Outcome(discarded, ReadFailure)
    else if NotFound(t) then Outcome(DiscardPartial(discarded, a), Unavailable)
    else if !Intact(t) then Outcome(Interrupted(prior, r, a), NetworkFailure)
    else if t.status != 200 && t.status != 206
    then Outcome(if t.status == 416 then DiscardPartial(discarded, a) else discarded, NetworkFailure)
    else Complete(prior, r, a)
  }

  /** downloadSourceTile from the moment it holds the source lock. */
  function Download(d: Disk, a: Attempt): Outcome {
    if HasFinal(d) then
      var h: History := [d];
      Outcome(h, Ready)
    else
      var h := Staging(d, a);
      var staged := Do(h, OpenIncoming, a);
      if !Succeeds(h, OpenIncoming, a) then Outcome(staged, ReadFailure)
      else if a.cancel.generation then Outcome(staged, Cancelled)
      else if a.cancel.token then Outcome(Do(staged, RemoveIncoming, a), Cancelled)
      else Finish(Prior(d), Transferred(d, a).value, a)
  }
}
