/**
 * How a source download ends when no file operation fails: exactly when it publishes, and what every
 * other answer or cancellation leaves on disk.
 */
module SourceEndings {
  import opened Wrappers
  import opened Bytes
  import opened DownloadValidation
  import opened ResumeState
  import opened SourceDownload
  import opened SourceSafety
  import opened SourceResumption

  /** The files an attempt finds worth resuming; an unusable pair is removed first. */
  function Found(d: Disk): Disk {
    if Prior(d).Some? then Disk(d.final, d.partial, d.metadata, None) else Disk(d.final, None, None, None)
  }

  function Body(t: Transfer): seq<byte> {
    Flatten(t.chunks)
  }

  /** The bytes arrive without a failing operation, within the size limit. */
  predicate Arrives(a: Attempt) {
    a.failing == {} && a.stuckMetadata == {} && |Body(a.transfer)| <= MAX_SOURCE_BYTES
  }

  /** The length a response declares is the length it has, if it declares one. */
  predicate LengthFits(t: Transfer) {
    t.contentLength.None? || t.contentLength.value == |Body(t)|
  }

  /** A whole response: the entity itself. Here a negative length counts as none. */
  predicate FullAnswer(t: Transfer) {
    && t.status == 200 && Body(t) != []
    && (LengthFits(t) || t.contentLength.value < 0)
  }

  /** A whole range response: the bytes from the retained offset to the end, of the entity they were asked for. */
  predicate RestAnswer(t: Transfer, prior: Option<PartialState>) {
    && t.status == 206 && prior.Some? && t.etag == prior.value.etag
    && ParseContentRange(t.contentRange) == Some(ContentRange(prior.value.downloaded, prior.value.total - 1, prior.value.total))
    && |Body(t)| == prior.value.total - prior.value.downloaded && LengthFits(t)
  }

  predicate Answered(t: Transfer) {
    Intact(t) && !NotFound(t)
  }

  /** What the code leaves when the whole response is in. */
  lemma Received(d: Disk, a: Attempt)
    requires !HasFinal(d) && Arrives(a) && !a.cancel.generation && !a.cancel.token
    ensures Transferred(d, a).Some?
    ensures var r := Transferred(d, a).value;
      && !r.failed && r.downloaded == |Body(a.transfer)|
      && Last(r.history) == Found(d).(incoming := Some(Body(a.transfer)))
      && Prior(Last(r.history)) == Prior(d)
  {
    var staged := Do(Staging(d, a), OpenIncoming, a);
    ReceiveSucceeds(staged, a.transfer.chunks, 0, a);
    ReceiveStores(staged, a.transfer.chunks, 0, a);
    assert [] + Body(a.transfer) == Body(a.transfer);
  }

  lemma AppendsIff(prior: Option<PartialState>, t: Transfer)
    requires prior.Some? ==> ValidPartialState(prior.value, MAX_SOURCE_BYTES)
    ensures AppendsPrior(prior, t, |Body(t)|) && LengthFits(t) <==> RestAnswer(t, prior)
  {
  }

  // ---------------------------------------------------------------- success

  /** A source that is there already is not asked for again. */
  lemma FinalIsKept(d: Disk, a: Attempt)
    requires HasFinal(d)
    ensures Download(d, a).status == Ready && Download(d, a).history == [d]
  {
  }

  /** A complete response is published, whether or not it declares its length, and everything else is removed. */
  lemma CompleteResponseIsPublished(d: Disk, a: Attempt)
    requires !HasFinal(d) && Arrives(a) && a.cancel == NOT_CANCELLED && Answered(a.transfer) && FullAnswer(a.transfer)
    ensures Download(d, a).status == Ready
    ensures Last(Download(d, a).history) == Disk(Some(Body(a.transfer)), None, None, None)
  {
    Received(d, a);
    assert [] + Body(a.transfer) == Body(a.transfer);
  }

  /** A complete range response is appended to what was retained. */
  lemma CompleteRangeIsPublished(d: Disk, a: Attempt)
    requires !HasFinal(d) && Arrives(a) && a.cancel == NOT_CANCELLED && Answered(a.transfer) && RestAnswer(a.transfer, Prior(d))
    ensures Download(d, a).status == Ready
    ensures Last(Download(d, a).history) == Disk(Some(d.partial.value + Body(a.transfer)), None, None, None)
  {
    Received(d, a);
    AppendsIff(Prior(d), a.transfer);
  }

  /** With no operation failing, an attempt succeeds in these three cases and in no other. */
  lemma ReadyIff(d: Disk, a: Attempt)
    requires Arrives(a)
    ensures Download(d, a).status == Ready
            <==> HasFinal(d) || (&& a.cancel == NOT_CANCELLED && Answered(a.transfer)
                                 && (FullAnswer(a.transfer) || RestAnswer(a.transfer, Prior(d))))
  {
    if !HasFinal(d) && !a.cancel.generation && !a.cancel.token {
      Received(d, a);
      AppendsIff(Prior(d), a.transfer);
    }
  }

  // ---------------------------------------------------------------- cancellation

  /** Cancelled before the request: by generation the empty staged file stays, by token it is removed. */
  lemma CancelledBeforeRequest(d: Disk, a: Attempt)
    requires !HasFinal(d) && Arrives(a) && (a.cancel.generation || a.cancel.token)
    ensures Download(d, a).status == Cancelled
    ensures Last(Download(d, a).history) == Found(d).(incoming := if a.cancel.generation then Some([]) else None)
  {
  }

  /** Cancelled after the response: what was retained stays, what was received is dropped. */
  lemma CancelledAfterResponse(d: Disk, a: Attempt)
    requires !HasFinal(d) && Arrives(a) && !a.cancel.generation && !a.cancel.token && a.cancel.afterTransfer
    ensures Download(d, a).status == Cancelled
    ensures Last(Download(d, a).history) == Found(d)
  {
    Received(d, a);
  }

  /** Cancelled before publishing: even a complete response publishes nothing. */
  lemma CancelledBeforePublishing(d: Disk, a: Attempt)
    requires !HasFinal(d) && Arrives(a) && a.cancel == Cancellation(false, false, false, true) && Answered(a.transfer)
    requires FullAnswer(a.transfer) || RestAnswer(a.transfer, Prior(d))
    ensures Download(d, a).status == Cancelled
    ensures Last(Download(d, a).history) == Found(d)
  {
    Received(d, a);
    AppendsIff(Prior(d), a.transfer);
  }

  // ---------------------------------------------------------------- refusals

  lemma {:induction false} ReceiveTooMuch(h: History, chunks: seq<seq<byte>>, downloaded: int, a: Attempt)
    requires a.failing == {} && downloaded <= MAX_SOURCE_BYTES < downloaded + |Flatten(chunks)|
    ensures Receive(h, chunks, downloaded, a).failed
    decreases |chunks|
  {
    if downloaded + |chunks[0]| <= MAX_SOURCE_BYTES {
      ReceiveTooMuch(Do(h, WriteIncoming(chunks[0]), a), chunks[1..], downloaded + |chunks[0]|, a);
    }
  }

  /** A response over the size limit is not kept in any part. */
  lemma TooLargeIsRefused(d: Disk, a: Attempt)
    requires !HasFinal(d) && a.failing == {} && a.stuckMetadata == {} && |Body(a.transfer)| > MAX_SOURCE_BYTES
    requires !a.cancel.generation && !a.cancel.token && !a.cancel.afterTransfer
    ensures Download(d, a).status == ReadFailure
    ensures Last(Download(d, a).history) == Found(d)
  {
    var staged := Do(Staging(d, a), OpenIncoming, a);
    ReceiveTooMuch(staged, a.transfer.chunks, 0, a);
    ReceiveStores(staged, a.transfer.chunks, 0, a);
  }

  /** The upstream has no such source: nothing is retained. */
  lemma MissingSourceIsUnavailable(d: Disk, a: Attempt)
    requires !HasFinal(d) && Arrives(a) && !a.cancel.generation && !a.cancel.token && !a.cancel.afterTransfer && NotFound(a.transfer)
    ensures Download(d, a).status == Unavailable
    ensures Last(Download(d, a).history) == Disk(d.final, None, None, None)
  {
    Received(d, a);
  }

  /** Any status but 200 and 206 is an error; after 416 the retained pair, whose range was refused, is dropped. */
  lemma OtherStatusIsAnError(d: Disk, a: Attempt)
    requires !HasFinal(d) && Arrives(a) && !a.cancel.generation && !a.cancel.token && !a.cancel.afterTransfer
    requires Answered(a.transfer) && a.transfer.status != 200 && a.transfer.status != 206
    ensures Download(d, a).status == NetworkFailure
    ensures Last(Download(d, a).history) == if a.transfer.status == 416 then Disk(d.final, None, None, None) else Found(d)
  {
    Received(d, a);
  }

  /** A 200 or 206 response that is not what was asked for, or not all of it; a mismatched range drops the retained pair. */
  lemma UnfitAnswerIsAnError(d: Disk, a: Attempt)
    requires !HasFinal(d) && Arrives(a) && !a.cancel.generation && !a.cancel.token && !a.cancel.afterTransfer && Answered(a.transfer)
    requires a.transfer.status == 200 || a.transfer.status == 206
    requires !FullAnswer(a.transfer) && !RestAnswer(a.transfer, Prior(d))
    ensures Download(d, a).status == NetworkFailure
    ensures Last(Download(d, a).history) == if a.transfer.status == 206 then Disk(d.final, None, None, None) else Found(d)
  {
    Received(d, a);
    AppendsIff(Prior(d), a.transfer);
  }

  /** A broken-off response of which nothing can be kept leaves what was there. */
  lemma NothingWorthKeeping(d: Disk, a: Attempt)
    requires !HasFinal(d) && Arrives(a) && !a.cancel.generation && !a.cancel.token && !a.cancel.afterTransfer
    requires !NotFound(a.transfer) && !Intact(a.transfer) && !WorthKeeping(a.transfer, |Body(a.transfer)|)
    requires a.transfer.status != 206
    ensures Download(d, a).status == NetworkFailure
    ensures Last(Download(d, a).history) == Found(d)
  {
    Received(d, a);
  }
}
