/**
 * What repeated source downloads guarantee, whatever is interrupted, cancelled, replaced
 * upstream, or cut short by a crash between two file operations.
 */
module SourceSafety {
  import opened Wrappers
  import opened Bytes
  import opened DownloadValidation
  import opened ResumeState
  import opened SourceDownload

  /** Every entity the upstream ever served, and the byte string each strong ETag names. */
  datatype Origin = Origin(entities: iset<seq<byte>>, named: map<seq<byte>, seq<byte>>)

  ghost predicate ValidOrigin(o: Origin) {
    forall etag :: etag in o.named ==> o.named[etag] in o.entities
  }

  /** The 200 response `t` carries (a prefix of) the entity `e`, and all of it when nothing but the end of the response tells. */
  ghost predicate ServesEntity(o: Origin, t: Transfer, e: seq<byte>) {
    var body := Flatten(t.chunks);
    && e in o.entities && body <= e
    && (Intact(t) && t.contentLength.None? ==> body == e)
    && (t.contentLength.Some? ==> t.contentLength.value == |e|)
    && (ValidStrongEtag(t.etag) ==> t.etag in o.named && o.named[t.etag] == e)
  }

  /** The 206 response `t` carries (a prefix of) the range it announces of the entity its ETag names. */
  ghost predicate ServesRange(o: Origin, t: Transfer, range: ContentRange) {
    var body := Flatten(t.chunks);
    && t.etag in o.named && |o.named[t.etag]| == range.total && range.first <= range.last < range.total
    && 0 <= range.first
    && body <= o.named[t.etag][range.first..range.last + 1]
  }

  /** RFC 9110: sections 8.6 (Content-Length), 8.8.1 (strong validators), 14.4 (Content-Range), 15.3.7 (206). */
  ghost predicate Honest(o: Origin, t: Transfer) {
    && (t.status == 200 ==> exists e :: ServesEntity(o, t, e))
    && (t.status == 206 && ValidStrongEtag(t.etag) && ParseContentRange(t.contentRange).Some?
        ==> ServesRange(o, t, ParseContentRange(t.contentRange).value))
  }

  /** `content` is a proper prefix of the entity that `state` describes. */
  ghost predicate PrefixOf(o: Origin, content: seq<byte>, state: PartialState) {
    && state.etag in o.named && |o.named[state.etag]| == state.total
    && |content| == state.downloaded < state.total
    && content <= o.named[state.etag]
  }

  /** The published file is absent or one whole entity; a pair that loads is a true prefix. */
  ghost predicate Safe(o: Origin, d: Disk) {
    && (d.final.Some? ==> d.final.value in o.entities)
    && (Prior(d).Some? ==> PrefixOf(o, d.partial.value, Prior(d).value))
  }

  ghost predicate AllSafe(o: Origin, h: seq<Disk>) {
    forall i :: 0 <= i < |h| ==> Safe(o, h[i])
  }

  // ---------------------------------------------------------------- single operations

  lemma RemovalsKeepSafe(o: Origin, h: History, op: FileOp, a: Attempt)
    requires AllSafe(o, h)
    requires op.RemovePartial? || op.RemoveMetadata? || op.RemoveIncoming? || op.OpenIncoming? || op.WriteIncoming?
    ensures AllSafe(o, Do(h, op, a))
  {
    assert Safe(o, Last(h));
  }

  lemma DiscardKeepsSafe(o: Origin, h: History, a: Attempt)
    requires AllSafe(o, h)
    ensures AllSafe(o, DiscardPartial(h, a))
  {
    RemovalsKeepSafe(o, h, RemovePartial, a);
    RemovalsKeepSafe(o, Do(h, RemovePartial, a), RemoveMetadata, a);
  }

  /** Receiving touches the incoming file only, and a failure-free receipt stores the whole body. */
  lemma {:induction false} ReceiveStores(h: History, chunks: seq<seq<byte>>, downloaded: int, a: Attempt)
    requires Last(h).incoming.Some?
    ensures var r := Receive(h, chunks, downloaded, a);
            var d := Last(h);
            && h <= r.history
            && (forall i :: |h| <= i < |r.history| ==> r.history[i] == d.(incoming := r.history[i].incoming))
            && Last(r.history) == d.(incoming := Last(r.history).incoming)
            && (!r.failed ==> Last(r.history).incoming == Some(d.incoming.value + Flatten(chunks))
                              && r.downloaded == downloaded + |Flatten(chunks)|)
    decreases |chunks|
  {
    var d := Last(h);
    if chunks == [] {
      assert d.incoming.value + Flatten(chunks) == d.incoming.value;
    } else {
      var write := WriteIncoming(chunks[0]);
      var next := Do(h, write, a);
      if downloaded + |chunks[0]| <= MAX_SOURCE_BYTES && Succeeds(h, write, a) {
        ReceiveStores(next, chunks[1..], downloaded + |chunks[0]|, a);
        assert d.incoming.value + Flatten(chunks) == Last(next).incoming.value + Flatten(chunks[1..]);
      }
    }
  }

  lemma SaveKeepsSafe(o: Origin, h: History, state: PartialState, a: Attempt)
    requires AllSafe(o, h)
    requires Last(h).partial.Some? && PrefixOf(o, Last(h).partial.value, state)
    ensures AllSafe(o, SaveState(h, state, a).0)
  {
    if ValidPartialState(state, MAX_SOURCE_BYTES) {
      LoadOfSaved(Last(h).partial.value, state, MAX_SOURCE_BYTES);
    }
  }

  // ---------------------------------------------------------------- the stages of an attempt

  lemma StagingKeepsSafe(o: Origin, d: Disk, a: Attempt)
    requires Safe(o, d)
    ensures AllSafe(o, Staging(d, a))
    ensures Last(Staging(d, a)).final == d.final
    ensures Prior(d).Some? ==> Last(Staging(d, a)) == d.(incoming := Last(Staging(d, a)).incoming)
  {
    if Prior(d).None? {
      DiscardKeepsSafe(o, [d], a);
      RemovalsKeepSafe(o, DiscardPartial([d], a), RemoveIncoming, a);
    } else {
      RemovalsKeepSafe(o, [d], RemoveIncoming, a);
    }
  }

  /** When the response is in, the incoming file holds its body and the retained pair is as found. */
  lemma TransferKeepsSafe(o: Origin, d: Disk, a: Attempt)
    requires Safe(o, d) && Transferred(d, a).Some?
    ensures var r := Transferred(d, a).value;
            var last := Last(r.history);
            var body := Flatten(a.transfer.chunks);
            && AllSafe(o, r.history)
            && last.final == d.final
            && (Prior(d).Some? ==> last.partial == d.partial && last.metadata == d.metadata)
            && (!r.failed ==> last.incoming == Some(body) && r.downloaded == |body|)
  {
    StagingKeepsSafe(o, d, a);
    var h := Staging(d, a);
    RemovalsKeepSafe(o, h, OpenIncoming, a);
    var staged := Do(h, OpenIncoming, a);
    ReceiveStores(staged, a.transfer.chunks, 0, a);
    assert [] + Flatten(a.transfer.chunks) == Flatten(a.transfer.chunks);
    assert Safe(o, Last(staged));
  }

  /** A disk on which renaming the incoming file would pair it with metadata of another entity. */
  ghost predicate StaleMetadata(o: Origin, d: Disk) {
    var state := Load(d.incoming, d.metadata, MAX_SOURCE_BYTES);
    state.Some? && !PrefixOf(o, d.incoming.value, state.value)
  }

  predicate ReachesKeepPrefix(d: Disk, a: Attempt) {
    && Transferred(d, a).Some?
    && var r := Transferred(d, a).value;
       !a.cancel.afterTransfer && !r.failed && !NotFound(a.transfer) && !Intact(a.transfer)
       && WorthKeeping(a.transfer, r.downloaded)
  }

  /** The attempt renames its incoming file although an old metadata file survived the removal right before, and does not fit. */
  ghost predicate Hazard(o: Origin, d: Disk, a: Attempt) {
    && ReachesKeepPrefix(d, a)
    && var cleared := DiscardPartial(Transferred(d, a).value.history, a);
       Succeeds(cleared, RenameIncoming, a) && StaleMetadata(o, Last(cleared))
  }

  lemma KeepPrefixSafe(o: Origin, h: History, downloaded: int, a: Attempt)
    requires AllSafe(o, h) && Honest(o, a.transfer) && WorthKeeping(a.transfer, downloaded)
    requires Last(h).incoming == Some(Flatten(a.transfer.chunks)) && downloaded == |Flatten(a.transfer.chunks)|
    ensures var cleared := DiscardPartial(h, a);
            AllSafe(o, KeepPrefix(h, downloaded, a))
            <==> !(Succeeds(cleared, RenameIncoming, a) && StaleMetadata(o, Last(cleared)))
  {
    var t := a.transfer;
    var cleared := DiscardPartial(h, a);
    DiscardKeepsSafe(o, h, a);
    assert Safe(o, Last(cleared));
    var renamed := Do(cleared, RenameIncoming, a);
    if !Succeeds(cleared, RenameIncoming, a) {
      assert Last(renamed) == Last(cleared);
      RemovalsKeepSafe(o, renamed, RemoveIncoming, a);
    } else {
      var state := PartialState(downloaded, t.contentLength.value, t.etag);
      var e :| ServesEntity(o, t, e);
      assert PrefixOf(o, Last(renamed).partial.value, state);
      var (saved, ok) := SaveState(renamed, state, a);
      assert renamed <= saved && saved <= KeepPrefix(h, downloaded, a);
      if StaleMetadata(o, Last(cleared)) {
        assert KeepPrefix(h, downloaded, a)[|cleared|] == Last(renamed);
      } else {
        assert AllSafe(o, renamed);
        SaveKeepsSafe(o, renamed, state, a);
        DiscardKeepsSafe(o, saved, a);
      }
    }
  }

  lemma SuffixExtendsPrefix(o: Origin, partial: seq<byte>, state: PartialState, t: Transfer)
    requires PrefixOf(o, partial, state) && ValidStrongEtag(state.etag)
    requires Honest(o, t) && t.status == 206 && ContinuesPrior(t, state, |Flatten(t.chunks)|)
    ensures PrefixOf(o, partial + Flatten(t.chunks), state.(downloaded := state.downloaded + |Flatten(t.chunks)|))
  {
    var body := Flatten(t.chunks);
    assert ServesRange(o, t, ParseContentRange(t.contentRange).value);
    var whole := o.named[state.etag];
    assert body <= whole[state.downloaded..state.total];
    assert whole == partial + whole[state.downloaded..];
  }

  lemma AppendSuffixSafe(o: Origin, h: History, state: PartialState, a: Attempt)
    requires AllSafe(o, h) && Honest(o, a.transfer) && a.transfer.status == 206
    requires Last(h).incoming == Some(Flatten(a.transfer.chunks))
    requires ValidPartialState(state, MAX_SOURCE_BYTES)
    requires ContinuesPrior(a.transfer, state, |Flatten(a.transfer.chunks)|)
    ensures AllSafe(o, AppendSuffix(h, state, |Flatten(a.transfer.chunks)|, a))
  {
    var d, body := Last(h), Flatten(a.transfer.chunks);
    if 0 < |body| < state.total - state.downloaded && Prior(d) == Some(state) {
      assert Safe(o, d);
      SuffixExtendsPrefix(o, d.partial.value, state, a.transfer);
      var commit := CommitPartial(d.partial.value + body);
      var committed := Do(h, commit, a);
      assert AllSafe(o, committed);
      if Succeeds(h, commit, a) {
        SaveKeepsSafe(o, committed, state.(downloaded := state.downloaded + |body|), a);
      }
    }
  }

  lemma InterruptedSafe(o: Origin, prior: Option<PartialState>, r: Received, a: Attempt)
    requires AllSafe(o, r.history) && Honest(o, a.transfer)
    requires Last(r.history).incoming == Some(Flatten(a.transfer.chunks)) && r.downloaded == |Flatten(a.transfer.chunks)|
    requires prior.Some? ==> ValidPartialState(prior.value, MAX_SOURCE_BYTES)
    ensures var cleared := DiscardPartial(r.history, a);
            AllSafe(o, Interrupted(prior, r, a))
            <==> !(WorthKeeping(a.transfer, r.downloaded) && Succeeds(cleared, RenameIncoming, a)
                   && StaleMetadata(o, Last(cleared)))
  {
    var t := a.transfer;
    if WorthKeeping(t, r.downloaded) {
      KeepPrefixSafe(o, r.history, r.downloaded, a);
    } else if t.status == 206 && prior.Some? && r.downloaded > 0 && ContinuesPrior(t, prior.value, r.downloaded) {
      AppendSuffixSafe(o, r.history, prior.value, a);
      RemovalsKeepSafe(o, AppendSuffix(r.history, prior.value, r.downloaded, a), RemoveIncoming, a);
    } else {
      RemovalsKeepSafe(o, r.history, RemoveIncoming, a);
    }
  }

  /** What a finished response that passes the tests of the code publishes is one whole entity. */
  lemma PublishedContentIsAnEntity(o: Origin, prior: Option<PartialState>, r: Received, a: Attempt)
    requires ValidOrigin(o) && AllSafe(o, r.history) && Honest(o, a.transfer) && Intact(a.transfer)
    requires Last(r.history).incoming == Some(Flatten(a.transfer.chunks)) && r.downloaded == |Flatten(a.transfer.chunks)|
    requires prior.Some? ==> Prior(Last(r.history)) == prior
    ensures var d := Last(r.history);
            && (AppendsPrior(prior, a.transfer, r.downloaded)
                ==> prior.value.etag in o.named && d.partial.value + d.incoming.value == o.named[prior.value.etag])
            && (CompleteResponse(a.transfer.status, r.downloaded, DeclaredLength(a.transfer)) ==> d.incoming.value in o.entities)
  {
    var t, d := a.transfer, Last(r.history);
    if AppendsPrior(prior, t, r.downloaded) {
      assert Safe(o, d);
      var range := ParseContentRange(t.contentRange).value;
      assert ServesRange(o, t, range);
      var whole := o.named[t.etag];
      assert whole[..range.first] + whole[range.first..range.last + 1] == whole;
      assert d.partial.value == whole[..range.first];
      assert d.incoming.value == whole[range.first..range.last + 1];
    }
    if CompleteResponse(t.status, r.downloaded, DeclaredLength(t)) {
      var e :| ServesEntity(o, t, e);
      assert d.incoming.value == e;
    }
  }

  lemma CompleteSafe(o: Origin, prior: Option<PartialState>, r: Received, a: Attempt)
    requires ValidOrigin(o) && AllSafe(o, r.history) && Honest(o, a.transfer) && Intact(a.transfer)
    requires Last(r.history).incoming == Some(Flatten(a.transfer.chunks)) && r.downloaded == |Flatten(a.transfer.chunks)|
    requires prior.Some? ==> Prior(Last(r.history)) == prior
    ensures AllSafe(o, Complete(prior, r, a).history)
  {
    var t, d := a.transfer, Last(r.history);
    var append := AppendsPrior(prior, t, r.downloaded);
    RemovalsKeepSafe(o, r.history, RemoveIncoming, a);
    DiscardKeepsSafe(o, Do(r.history, RemoveIncoming, a), a);
    PublishedContentIsAnEntity(o, prior, r, a);
    if append || CompleteResponse(t.status, r.downloaded, DeclaredLength(t)) {
      var content := (if append then Content(d.partial) else []) + Content(d.incoming);
      assert !append ==> content == d.incoming.value;
      var committed := Do(r.history, CommitFinal(content), a);
      assert Safe(o, d);
      assert AllSafe(o, committed);
      RemovalsKeepSafe(o, committed, RemoveIncoming, a);
      DiscardKeepsSafe(o, Do(committed, RemoveIncoming, a), a);
    }
  }

  /** The disks an attempt can leave behind, judged by the disks themselves. */
  lemma AttemptSafeUnlessHazard(o: Origin, d: Disk, a: Attempt)
    requires ValidOrigin(o) && Safe(o, d) && Honest(o, a.transfer)
    ensures AllSafe(o, Download(d, a).history) <==> !Hazard(o, d, a)
  {
    if !HasFinal(d) {
      StagingKeepsSafe(o, d, a);
      var h := Staging(d, a);
      RemovalsKeepSafe(o, h, OpenIncoming, a);
      RemovalsKeepSafe(o, Do(h, OpenIncoming, a), RemoveIncoming, a);
      if Transferred(d, a).Some? {
        TransferKeepsSafe(o, d, a);
        FinishSafe(o, d, a);
      }
    }
  }

  lemma FinishSafe(o: Origin, d: Disk, a: Attempt)
    requires ValidOrigin(o) && Safe(o, d) && Honest(o, a.transfer)
    requires Transferred(d, a).Some?
    ensures AllSafe(o, Finish(Prior(d), Transferred(d, a).value, a).history) <==> !Hazard(o, d, a)
  {
    TransferKeepsSafe(o, d, a);
    var r := Transferred(d, a).value;
    RemovalsKeepSafe(o, r.history, RemoveIncoming, a);
    DiscardKeepsSafe(o, Do(r.history, RemoveIncoming, a), a);
    if !a.cancel.afterTransfer && !r.failed && !NotFound(a.transfer) {
      if !Intact(a.transfer) {
        InterruptedSafe(o, Prior(d), r, a);
      } else {
        CompleteSafe(o, Prior(d), r, a);
      }
    }
  }

  // ---------------------------------------------------------------- whole runs

  /** An attempt of which only the first `survives` + 1 disks happen, or the source deletion. */
  datatype Event = Attempted(a: Attempt, survives: nat) | SourceDeleted

  function After(d: Disk, event: Event): Disk {
    match event
    case SourceDeleted => d.(final := None)
    case Attempted(a, survives) => LeftAt(Download(d, a).history, survives)
  }

  function LeftAt(h: History, survives: nat): Disk {
    if survives < |h| then h[survives] else Last(h)
  }

  function Run(d: Disk, events: seq<Event>): Disk {
    if events == [] then d else After(Run(d, events[..|events| - 1]), events[|events| - 1])
  }

  /** What a caller sees: a Ready attempt ends with a whole entity at the final path. */
  lemma ReadyMeansPublished(o: Origin, d: Disk, a: Attempt)
    requires ValidOrigin(o) && Safe(o, d) && Honest(o, a.transfer)
    requires Download(d, a).status == Ready
    ensures var last := Last(Download(d, a).history);
            last.final.Some? && last.final.value in o.entities
  {
    AttemptSafeUnlessHazard(o, d, a);
    assert !Hazard(o, d, a);
  }
}
