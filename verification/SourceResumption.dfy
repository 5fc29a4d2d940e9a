/**
 * Resumption makes progress: what one undisturbed attempt leaves behind is what the next one
 * continues, until the whole entity is published. And the one way to break the guarantee.
 */
module SourceResumption {
  import opened Wrappers
  import opened Bytes
  import opened DownloadValidation
  import opened ResumeState
  import opened SourceDownload
  import opened SourceSafety

  const NOT_CANCELLED := Cancellation(false, false, false, false)

  /** No operation fails and nothing is cancelled. */
  predicate Undisturbed(a: Attempt) {
    a.failing == {} && a.stuckMetadata == {} && a.cancel == NOT_CANCELLED
  }

  lemma {:induction false} ReceiveSucceeds(h: History, chunks: seq<seq<byte>>, downloaded: int, a: Attempt)
    requires a.failing == {} && downloaded + |Flatten(chunks)| <= MAX_SOURCE_BYTES
    ensures !Receive(h, chunks, downloaded, a).failed
    decreases |chunks|
  {
    if chunks != [] {
      ReceiveSucceeds(Do(h, WriteIncoming(chunks[0]), a), chunks[1..], downloaded + |chunks[0]|, a);
    }
  }

  lemma TransferSucceeds(d: Disk, a: Attempt)
    requires !HasFinal(d) && Undisturbed(a)
    requires |Flatten(a.transfer.chunks)| <= MAX_SOURCE_BYTES
    ensures Transferred(d, a).Some?
    ensures var r := Transferred(d, a).value;
            var found := if Prior(d).Some? then d else d.(partial := None, metadata := None);
            && !r.failed && r.downloaded == |Flatten(a.transfer.chunks)|
            && Last(r.history) == found.(incoming := Some(Flatten(a.transfer.chunks)))
  {
    var h := Staging(d, a);
    var staged := Do(h, OpenIncoming, a);
    ReceiveSucceeds(staged, a.transfer.chunks, 0, a);
    ReceiveStores(staged, a.transfer.chunks, 0, a);
    assert [] + Flatten(a.transfer.chunks) == Flatten(a.transfer.chunks);
  }

  /** The headers of a 206 response that runs from the retained offset to the end of the entity. */
  predicate AnnouncesRest(t: Transfer, state: PartialState) {
    && t.status == 206 && !NotFound(t) && t.etag == state.etag
    && t.contentLength == Some(state.total - state.downloaded)
    && ParseContentRange(t.contentRange) == Some(ContentRange(state.downloaded, state.total - 1, state.total))
  }

  /** An honest answer to the range request for `state`, not necessarily all of it. */
  ghost predicate AnswersRange(o: Origin, t: Transfer, state: PartialState) {
    Honest(o, t) && AnnouncesRest(t, state)
  }

  /** A full response cut short keeps its bytes together with a record that loads. */
  lemma InterruptionKeepsPrefix(d: Disk, a: Attempt)
    requires !HasFinal(d) && Undisturbed(a)
    requires !NotFound(a.transfer) && !Intact(a.transfer) && WorthKeeping(a.transfer, |Flatten(a.transfer.chunks)|)
    ensures var state := PartialState(|Flatten(a.transfer.chunks)|, a.transfer.contentLength.value, a.transfer.etag);
            Last(Download(d, a).history)
            == Disk(d.final, Some(Flatten(a.transfer.chunks)), Some(MetadataText(state)), None)
  {
    TransferSucceeds(d, a);
  }

  /** A range response cut short extends the retained prefix by exactly the bytes that arrived. */
  lemma ResumptionKeepsProgress(o: Origin, d: Disk, a: Attempt)
    requires Safe(o, d) && !HasFinal(d) && Prior(d).Some? && Undisturbed(a)
    requires AnswersRange(o, a.transfer, Prior(d).value) && !Intact(a.transfer)
    requires 0 < |Flatten(a.transfer.chunks)| < Prior(d).value.total - Prior(d).value.downloaded
    ensures var body := Flatten(a.transfer.chunks);
            var state := Prior(d).value.(downloaded := Prior(d).value.downloaded + |body|);
            Last(Download(d, a).history)
            == Disk(d.final, Some(d.partial.value + body), Some(MetadataText(state)), None)
  {
    TransferSucceeds(d, a);
    var r := Transferred(d, a).value;
    var state := Prior(d).value;
    assert ContinuesPrior(a.transfer, state, r.downloaded);
    assert Prior(Last(r.history)) == Some(state);
  }

  /** A whole range answer is appended to the retained bytes, published, and the pair removed. */
  lemma RangeAnswerIsAppended(d: Disk, a: Attempt)
    requires !HasFinal(d) && Prior(d).Some? && Undisturbed(a) && Intact(a.transfer)
    requires AnnouncesRest(a.transfer, Prior(d).value)
    requires |Flatten(a.transfer.chunks)| == Prior(d).value.total - Prior(d).value.downloaded
    ensures Download(d, a).status == Ready
    ensures Last(Download(d, a).history)
            == Disk(Some(d.partial.value + Flatten(a.transfer.chunks)), None, None, None)
  {
    TransferSucceeds(d, a);
    var r := Transferred(d, a).value;
    assert AppendsPrior(Prior(d), a.transfer, r.downloaded) by {
      assert Prior(d).value.etag[0] == QUOTE;
    }
  }

  /** The full range answer publishes the entity the retained bytes were a prefix of. */
  lemma ResumptionCompletes(o: Origin, d: Disk, a: Attempt)
    requires ValidOrigin(o) && Safe(o, d) && !HasFinal(d) && Prior(d).Some? && Undisturbed(a)
    requires AnswersRange(o, a.transfer, Prior(d).value) && Intact(a.transfer)
    requires |Flatten(a.transfer.chunks)| == Prior(d).value.total - Prior(d).value.downloaded
    ensures Download(d, a).status == Ready
    ensures Last(Download(d, a).history) == Disk(Some(o.named[Prior(d).value.etag]), None, None, None)
  {
    var state, t := Prior(d).value, a.transfer;
    assert PrefixOf(o, d.partial.value, state);
    assert ServesRange(o, t, ParseContentRange(t.contentRange).value);
    var whole := o.named[state.etag];
    assert Flatten(t.chunks) == whole[state.downloaded..state.total];
    assert whole == d.partial.value + Flatten(t.chunks);
    RangeAnswerIsAppended(d, a);
  }

  /** A response that ends without a network error but short of what it announced is refused, and publishes nothing. */
  lemma ShortResponseIsRefused(d: Disk, a: Attempt)
    requires !HasFinal(d) && Undisturbed(a) && Intact(a.transfer) && !NotFound(a.transfer)
    requires |Flatten(a.transfer.chunks)| <= MAX_SOURCE_BYTES
    requires FallsShort(Prior(d), a.transfer)
    ensures Download(d, a).status == NetworkFailure
    ensures var resumable := Prior(d).Some? && a.transfer.status == 200;
            Last(Download(d, a).history)
            == Disk(d.final, if resumable then d.partial else None, if resumable then d.metadata else None, None)
  {
    TransferSucceeds(d, a);
  }

  /** Fewer bytes than the Content-Length of a full response, or than the rest that was asked for. */
  predicate FallsShort(prior: Option<PartialState>, t: Transfer) {
    var received := |Flatten(t.chunks)|;
    if t.status == 200 then received < DeclaredLength(t)
    else prior.Some? && AnnouncesRest(t, prior.value) && received < prior.value.total - prior.value.downloaded
  }

  // ---------------------------------------------------------------- the stale metadata file

  /** When the fifth operation, the removal of the old metadata, fails, the rename pairs it with new bytes. */
  lemma StuckRemovalMixes(d: Disk, a: Attempt, chunk: seq<byte>)
    requires !HasFinal(d) && Prior(d).Some?
    requires a.failing == {} && a.stuckMetadata == {5} && a.cancel == NOT_CANCELLED
    requires a.transfer.chunks == [chunk] && WorthKeeping(a.transfer, |chunk|)
    requires !NotFound(a.transfer) && !Intact(a.transfer)
    ensures |Download(d, a).history| > 6
    ensures Download(d, a).history[6] == Disk(d.final, Some(chunk), d.metadata, None)
  {
    var staged := Do(Staging(d, a), OpenIncoming, a);
    assert |staged| == 3 && Last(staged) == d.(incoming := Some([]));
    var received := Do(staged, WriteIncoming(chunk), a);
    assert [] + chunk == chunk;
    assert a.transfer.chunks[0] == chunk && a.transfer.chunks[1..] == [];
    assert Receive(received, a.transfer.chunks[1..], |chunk|, a) == Received(received, |chunk|, false);
    assert Transferred(d, a) == Some(Received(received, |chunk|, false));
    var cleared := DiscardPartial(received, a);
    assert |cleared| == 6 && Last(cleared) == Disk(d.final, None, d.metadata, Some(chunk));
    var renamed := Do(cleared, RenameIncoming, a);
    assert renamed <= KeepPrefix(received, |chunk|, a);
  }

  /** A response that carries the first byte of a two-byte entity and then breaks off. */
  predicate CutAfter(t: Transfer, etag: seq<byte>, first: byte) {
    && t.status == 200 && t.contentLength == Some(2) && t.etag == etag
    && t.chunks == [[first]] && t.error == OtherError
  }

  lemma FlattenOne(chunk: seq<byte>)
    ensures Flatten([chunk]) == chunk
  {
    assert [chunk][1..] == [];
  }

  /** A broken-off first byte of a named two-byte entity is an honest response. */
  lemma HonestCut(o: Origin, t: Transfer, etag: seq<byte>, entity: seq<byte>)
    requires |entity| == 2 && CutAfter(t, etag, entity[0])
    requires etag in o.named && o.named[etag] == entity && entity in o.entities
    ensures Honest(o, t)
  {
    FlattenOne([entity[0]]);
    assert ServesEntity(o, t, entity);
  }

  lemma SecondOfTwoBytes() returns (text: seq<byte>)
    ensures ParseContentRange(text) == Some(ContentRange(1, 1, 2))
  {
    var one, two: seq<byte> := [49], [50];
    assert one[..0] == [] && two[..0] == [];
    assert Denotes(one, one, two, ContentRange(1, 1, 2));
    ContentRangeComplete(one, one, two, ContentRange(1, 1, 2));
    text := RangeText(one, one, two);
  }

  /** The second byte of a named two-byte entity, announced as such, is an honest response. */
  lemma HonestRest(o: Origin, etag: seq<byte>, entity: seq<byte>) returns (t: Transfer)
    requires etag in o.named && o.named[etag] == entity && |entity| == 2
    ensures Honest(o, t) && Intact(t) && t.chunks == [[entity[1]]]
    ensures AnnouncesRest(t, PartialState(1, 2, etag))
  {
    var text := SecondOfTwoBytes();
    t := Transfer(206, Some(1), etag, text, [[entity[1]]], NoError, false);
    FlattenOne([entity[1]]);
    assert entity[1..2] == [entity[1]];
    assert ServesRange(o, t, ContentRange(1, 1, 2));
  }

  lemma {:induction false} RunOfThree(d: Disk, e1: Event, e2: Event, e3: Event)
    ensures Run(d, [e1, e2, e3]) == After(After(After(d, e1), e2), e3)
  {
    var all, two, one := [e1, e2, e3], [e1, e2], [e1];
    assert all[..2] == two && two[..1] == one && one[..0] == [];
    assert Run(d, one) == After(Run(d, []), e1);
    assert Run(d, two) == After(Run(d, one), e2);
    assert Run(d, all) == After(Run(d, two), e3);
  }

  lemma {:induction false} ThreeHonest(o: Origin, d: Disk, e1: Event, e2: Event, e3: Event) returns (events: seq<Event>)
    requires e1.Attempted? ==> Honest(o, e1.a.transfer)
    requires e2.Attempted? ==> Honest(o, e2.a.transfer)
    requires e3.Attempted? ==> Honest(o, e3.a.transfer)
    ensures Run(d, events) == After(After(After(d, e1), e2), e3)
    ensures forall i :: 0 <= i < |events| && events[i].Attempted? ==> Honest(o, events[i].a.transfer)
  {
    events := [e1, e2, e3];
    RunOfThree(d, e1, e2, e3);
  }

  /** The event that lets an attempt run to its end. */
  function ToTheEnd(d: Disk, a: Attempt): Event {
    Attempted(a, |Download(d, a).history|)
  }

  lemma {:induction false} AfterToTheEnd(d: Disk, a: Attempt)
    ensures After(d, ToTheEnd(d, a)) == Last(Download(d, a).history)
  {
  }

  /** The pair a two-byte entity leaves after its first byte. */
  function Retained(first: byte, etag: seq<byte>): Disk {
    Disk(None, Some([first]), Some(MetadataText(PartialState(1, 2, etag))), None)
  }

  lemma RetainStep(d: Disk, t: Transfer, etag: seq<byte>, first: byte) returns (event: Event)
    requires d.final.None? && ValidStrongEtag(etag) && CutAfter(t, etag, first)
    ensures event.Attempted? && event.a.transfer == t && After(d, event) == Retained(first, etag)
  {
    var a := Attempt(t, NOT_CANCELLED, {}, {});
    FlattenOne([first]);
    InterruptionKeepsPrefix(d, a);
    AfterToTheEnd(d, a);
    event := ToTheEnd(d, a);
  }

  lemma MixStep(etag: seq<byte>, first: byte, t: Transfer, otherEtag: seq<byte>, other: byte) returns (event: Event)
    requires ValidStrongEtag(etag) && ValidStrongEtag(otherEtag) && CutAfter(t, otherEtag, other)
    ensures event.Attempted? && event.a.transfer == t
    ensures After(Retained(first, etag), event) == Retained(other, etag)
  {
    var a := Attempt(t, NOT_CANCELLED, {}, {5});
    LoadOfSaved([first], PartialState(1, 2, etag), MAX_SOURCE_BYTES);
    StuckRemovalMixes(Retained(first, etag), a, [other]);
    event := Attempted(a, 6);
  }

  lemma PublishStep(etag: seq<byte>, first: byte, t: Transfer, second: byte) returns (event: Event)
    requires ValidStrongEtag(etag)
    requires Intact(t) && t.chunks == [[second]] && AnnouncesRest(t, PartialState(1, 2, etag))
    ensures event.Attempted? && event.a.transfer == t
    ensures After(Retained(first, etag), event).final == Some([first, second])
  {
    var a := Attempt(t, NOT_CANCELLED, {}, {});
    var d := Retained(first, etag);
    LoadOfSaved([first], PartialState(1, 2, etag), MAX_SOURCE_BYTES);
    FlattenOne([second]);
    RangeAnswerIsAppended(d, a);
    AfterToTheEnd(d, a);
    assert [first] + [second] == [first, second];
    event := ToTheEnd(d, a);
  }

  lemma TwoEtags() returns (x: seq<byte>, y: seq<byte>)
    ensures ValidStrongEtag(x) && ValidStrongEtag(y) && x != y
  {
    x, y := [QUOTE, 97, QUOTE], [QUOTE, 98, QUOTE];
  }

  /** Two named entities of two bytes, a broken-off response for each, and the rest of the first. */
  lemma TwoEntities() returns (o: Origin, x: seq<byte>, y: seq<byte>, t1: Transfer, t2: Transfer, t3: Transfer)
    ensures ValidOrigin(o) && o.entities == iset{[1, 2], [3, 4]}
    ensures ValidStrongEtag(x) && ValidStrongEtag(y)
    ensures Honest(o, t1) && Honest(o, t2) && Honest(o, t3)
    ensures CutAfter(t1, x, 1) && CutAfter(t2, y, 3)
    ensures Intact(t3) && t3.chunks == [[2]] && AnnouncesRest(t3, PartialState(1, 2, x))
  {
    x, y := TwoEtags();
    var a, b: seq<byte> := [1, 2], [3, 4];
    o := Origin(iset{a, b}, map[x := a, y := b]);
    t1 := Transfer(200, Some(2), x, [], [[1]], OtherError, false);
    t2 := Transfer(200, Some(2), y, [], [[3]], OtherError, false);
    HonestCut(o, t1, x, a);
    HonestCut(o, t2, y, b);
    t3 := HonestRest(o, x, a);
  }

  lemma MixtureIsUnsafe(o: Origin, d: Disk, first: byte, second: byte)
    requires o.entities == iset{[1, 2], [3, 4]}
    requires first == 3 && second == 2 && d.final == Some([first, second])
    ensures d.final == Some([3, 2]) && [3, 2] !in o.entities && !Safe(o, d)
  {
    var mixed := [first, second];
    assert mixed[0] != [1, 2][0] && mixed[1] != [3, 4][1];
  }

  /**
   * A first byte of one entity is retained. The next attempt receives the first byte of another
   * entity, cannot remove the old metadata file, and dies right after the rename. The attempt
   * after that asks for the rest of the first entity, and publishes a mixture that no entity is.
   */
  lemma StaleMetadataCorrupts(d: Disk) returns (o: Origin, events: seq<Event>)
    requires d == EMPTY_DISK
    ensures ValidOrigin(o)
    ensures forall i :: 0 <= i < |events| && events[i].Attempted? ==> Honest(o, events[i].a.transfer)
    ensures Run(d, events).final == Some([3, 2]) && [3, 2] !in o.entities
    ensures !Safe(o, Run(d, events))
  {
    var x, y, t1, t2, t3;
    o, x, y, t1, t2, t3 := TwoEntities();
    var e1 := RetainStep(d, t1, x, 1);
    var e2 := MixStep(x, 1, t2, y, 3);
    var e3 := PublishStep(x, 3, t3, 2);
    events := ThreeHonest(o, d, e1, e2, e3);
    MixtureIsUnsafe(o, Run(d, events), 3, 2);
  }
}
