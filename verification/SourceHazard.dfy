/**
 * Exactly when repeated source downloads are safe, in terms of what an attempt starts from: the files on
 * disk, the response, and which file operations fail.
 */
module SourceHazard {
  import opened Wrappers
  import opened Bytes
  import opened ResumeState
  import opened SourceDownload
  import opened SourceSafety

  // ---------------------------------------------------------------- the condition

  /** The operation that opens the incoming file; two more removals come first when there is no pair to resume. */
  function OpenAt(d: Disk): nat {
    if Prior(d).None? then 4 else 2
  }

  /** The operation that removes the partial file once the response is in; the metadata file and the rename follow. */
  function ClearAt(d: Disk, a: Attempt): nat {
    OpenAt(d) + 1 + |a.transfer.chunks|
  }

  /** The response comes in completely: nothing is cancelled, and no staging or write operation fails. */
  predicate BodyArrives(d: Disk, a: Attempt) {
    && !HasFinal(d) && !a.cancel.generation && !a.cancel.token && !a.cancel.afterTransfer
    && OpenAt(d) !in a.failing
    && WritesSucceed(OpenAt(d) + 1, |a.transfer.chunks|, a)
  }

  predicate WritesSucceed(first: nat, count: nat, a: Attempt) {
    forall k :: first <= k < first + count ==> k !in a.failing
  }

  /** It is cut off, and worth keeping. */
  predicate KeepsBody(a: Attempt) {
    !NotFound(a.transfer) && !Intact(a.transfer) && WorthKeeping(a.transfer, |Flatten(a.transfer.chunks)|)
  }

  /** Every removal of the metadata file fails. */
  predicate MetadataStays(d: Disk, a: Attempt) {
    && (Prior(d).None? ==> 2 in a.stuckMetadata)
    && ClearAt(d, a) + 1 in a.stuckMetadata
  }

  /** The partial file is gone, and the rename that replaces it does not fail. */
  predicate PartialIsReplaced(d: Disk, a: Attempt) {
    && (d.partial.None? || (Prior(d).None? && 1 !in a.failing) || ClearAt(d, a) !in a.failing)
    && ClearAt(d, a) + 2 !in a.failing
  }

  /** The metadata file is a valid record of as many bytes as were received, which are no prefix of the entity it names. */
  ghost predicate ForeignRecord(o: Origin, metadata: Option<seq<byte>>, body: seq<byte>) {
    var record := Load(Some(body), metadata, MAX_SOURCE_BYTES);
    record.Some? && !PrefixOf(o, body, record.value)
  }

  /**
   * The attempt keeps the first bytes of a response that is cut off, beside an old metadata file that
   * cannot be removed and records the same number of bytes of something else.
   */
  ghost predicate PairsForeignRecord(o: Origin, d: Disk, a: Attempt) {
    && BodyArrives(d, a) && KeepsBody(a) && MetadataStays(d, a) && PartialIsReplaced(d, a)
    && ForeignRecord(o, d.metadata, Flatten(a.transfer.chunks))
  }

  // ---------------------------------------------------------------- it is the hazard

  lemma {:induction false} ReceiveArrives(h: History, chunks: seq<seq<byte>>, downloaded: nat, a: Attempt)
    requires Last(h).incoming.Some? && downloaded + |Flatten(chunks)| <= MAX_SOURCE_BYTES
    ensures var r := Receive(h, chunks, downloaded, a);
      && (!r.failed <==> WritesSucceed(|h|, |chunks|, a))
      && (!r.failed ==> |r.history| == |h| + |chunks|)
    decreases |chunks|
  {
    if chunks != [] {
      var next := Do(h, WriteIncoming(chunks[0]), a);
      if |h| !in a.failing {
        ReceiveArrives(next, chunks[1..], downloaded + |chunks[0]|, a);
      }
    }
  }

  lemma StagingLeaves(d: Disk, a: Attempt)
    ensures var h := Staging(d, a);
      && |h| == OpenAt(d)
      && Last(h).metadata == (if Prior(d).None? && 2 !in a.stuckMetadata then None else d.metadata)
      && Last(h).partial == (if Prior(d).None? && 1 !in a.failing then None else d.partial)
  {
  }

  /** What the disk looks like when the body is in. */
  lemma BodyIsIn(d: Disk, a: Attempt, r: Received)
    requires Transferred(d, a) == Some(r) && !r.failed && |Flatten(a.transfer.chunks)| <= MAX_SOURCE_BYTES
    ensures |r.history| == ClearAt(d, a) && Last(r.history).incoming == Some(Flatten(a.transfer.chunks))
    ensures Last(r.history).metadata == if Prior(d).None? && 2 !in a.stuckMetadata then None else d.metadata
    ensures Last(r.history).partial == if Prior(d).None? && 1 !in a.failing then None else d.partial
  {
    StagingLeaves(d, a);
    var staged := Do(Staging(d, a), OpenIncoming, a);
    ReceiveStores(staged, a.transfer.chunks, 0, a);
    ReceiveArrives(staged, a.transfer.chunks, 0, a);
    assert [] + Flatten(a.transfer.chunks) == Flatten(a.transfer.chunks);
  }

  lemma BodyArrivesIff(d: Disk, a: Attempt)
    requires KeepsBody(a)
    ensures BodyArrives(d, a) <==> Transferred(d, a).Some? && !Transferred(d, a).value.failed && !a.cancel.afterTransfer
  {
    StagingLeaves(d, a);
    if Transferred(d, a).Some? {
      ReceiveArrives(Do(Staging(d, a), OpenIncoming, a), a.transfer.chunks, 0, a);
    }
  }

  lemma ReachesIff(d: Disk, a: Attempt)
    ensures ReachesKeepPrefix(d, a) <==> BodyArrives(d, a) && KeepsBody(a)
  {
    if ReachesKeepPrefix(d, a) {
      ReceiveStores(Do(Staging(d, a), OpenIncoming, a), a.transfer.chunks, 0, a);
      assert KeepsBody(a);
    }
    if KeepsBody(a) {
      BodyArrivesIff(d, a);
      if BodyArrives(d, a) {
        ReceiveStores(Do(Staging(d, a), OpenIncoming, a), a.transfer.chunks, 0, a);
      }
    }
  }

  lemma HazardIff(o: Origin, d: Disk, a: Attempt)
    ensures Hazard(o, d, a) <==> PairsForeignRecord(o, d, a)
  {
    ReachesIff(d, a);
    if ReachesKeepPrefix(d, a) {
      BodyIsIn(d, a, Transferred(d, a).value);
      ClearedIff(o, d, a, Transferred(d, a).value.history);
    }
  }

  lemma ClearedLeaves(h: History, a: Attempt)
    ensures var cleared := DiscardPartial(h, a);
      && |cleared| == |h| + 2 && Last(cleared).incoming == Last(h).incoming
      && Last(cleared).metadata == (if |h| + 1 in a.stuckMetadata then Last(h).metadata else None)
      && Last(cleared).partial == (if |h| in a.failing then Last(h).partial else None)
  {
  }

  lemma ClearedIff(o: Origin, d: Disk, a: Attempt, h: History)
    requires |h| == ClearAt(d, a) && Last(h).incoming == Some(Flatten(a.transfer.chunks))
    requires Last(h).metadata == if Prior(d).None? && 2 !in a.stuckMetadata then None else d.metadata
    requires Last(h).partial == if Prior(d).None? && 1 !in a.failing then None else d.partial
    ensures var cleared := DiscardPartial(h, a);
      Succeeds(cleared, RenameIncoming, a) && StaleMetadata(o, Last(cleared))
      <==> MetadataStays(d, a) && PartialIsReplaced(d, a) && ForeignRecord(o, d.metadata, Flatten(a.transfer.chunks))
  {
    ClearedLeaves(h, a);
  }

  // ---------------------------------------------------------------- the theorems

  /**
   * Every disk an attempt can leave behind is safe, whatever fails, is cancelled or crashes, if and only if
   * the attempt does not pair its bytes with a foreign record.
   */
  lemma AttemptSafeIff(o: Origin, d: Disk, a: Attempt)
    requires ValidOrigin(o) && Safe(o, d) && Honest(o, a.transfer)
    ensures AllSafe(o, Download(d, a).history) <==> !PairsForeignRecord(o, d, a)
  {
    AttemptSafeUnlessHazard(o, d, a);
    HazardIff(o, d, a);
  }

  /** A metadata file that can be removed, before the transfer or after it, pairs with nothing. */
  lemma RemovableMetadataIsSafe(o: Origin, d: Disk, a: Attempt)
    requires ClearAt(d, a) + 1 !in a.stuckMetadata
    ensures !PairsForeignRecord(o, d, a)
  {
  }

  /** The disk that attempt i of a run starts from. */
  function StartOf(d: Disk, events: seq<Event>, i: nat): Disk
    requires i <= |events|
  {
    Run(d, events[..i])
  }

  ghost predicate HonestRun(o: Origin, events: seq<Event>) {
    forall i :: 0 <= i < |events| && events[i].Attempted? ==> Honest(o, events[i].a.transfer)
  }

  /** Every disk that any attempt of the run can leave behind is safe. */
  ghost predicate DisksSafe(o: Origin, d: Disk, events: seq<Event>) {
    forall i :: 0 <= i < |events| && events[i].Attempted? ==> AllSafe(o, Download(StartOf(d, events, i), events[i].a).history)
  }

  ghost predicate NoForeignRecord(o: Origin, d: Disk, events: seq<Event>) {
    forall i :: 0 <= i < |events| && events[i].Attempted? ==> !PairsForeignRecord(o, StartOf(d, events, i), events[i].a)
  }

  /**
   * Over every run of attempts, interruptions, crashes and source deletions from a safe disk (an empty one
   * included): all disks are safe if and only if no attempt pairs its bytes with a foreign record.
   */
  lemma {:induction false} RunSafeIff(o: Origin, d: Disk, events: seq<Event>)
    requires ValidOrigin(o) && Safe(o, d) && HonestRun(o, events)
    ensures DisksSafe(o, d, events) <==> NoForeignRecord(o, d, events)
    ensures NoForeignRecord(o, d, events) ==> Safe(o, Run(d, events))
    decreases |events|
  {
    if events != [] {
      var front, last := events[..|events| - 1], events[|events| - 1];
      RunSafeIff(o, d, front);
      LastAttempt(o, d, events, front, last);
      if NoForeignRecord(o, d, front) && last.Attempted? {
        AttemptSafeIff(o, Run(d, front), last.a);
        assert Download(Run(d, front), last.a).history != [];
      }
    }
  }

  lemma {:induction false} LastAttempt(o: Origin, d: Disk, events: seq<Event>, front: seq<Event>, last: Event)
    requires events == front + [last]
    ensures DisksSafe(o, d, events)
            <==> DisksSafe(o, d, front) && (last.Attempted? ==> AllSafe(o, Download(Run(d, front), last.a).history))
    ensures NoForeignRecord(o, d, events)
            <==> NoForeignRecord(o, d, front) && (last.Attempted? ==> !PairsForeignRecord(o, Run(d, front), last.a))
  {
    var n := |front|;
    forall i | 0 <= i < n ensures front[i] == events[i] && StartOf(d, front, i) == StartOf(d, events, i) {
      assert front[..i] == events[..i];
    }
    assert events[n] == last && events[..n] == front;
    assert StartOf(d, events, n) == Run(d, front);
  }

  /** The guarantee as callers see it: with metadata files that can be removed every run is safe. */
  lemma {:induction false} RunSafe(o: Origin, d: Disk, events: seq<Event>)
    requires ValidOrigin(o) && Safe(o, d) && HonestRun(o, events)
    requires forall i :: 0 <= i < |events| && events[i].Attempted? ==> events[i].a.stuckMetadata == {}
    ensures DisksSafe(o, d, events) && Safe(o, Run(d, events))
  {
    RunSafeIff(o, d, events);
    forall i | 0 <= i < |events| && events[i].Attempted? ensures !PairsForeignRecord(o, StartOf(d, events, i), events[i].a) {
      RemovableMetadataIsSafe(o, StartOf(d, events, i), events[i].a);
    }
  }
}
