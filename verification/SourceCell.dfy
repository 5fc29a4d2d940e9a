/**
 * downloadSourceTile, appendCopernicusPartialSuffix and publishCopernicusSource as they run:
 * one file operation after the other on the four files of a source cell.
 */
module SourceCell {
  import opened Wrappers
  import opened Bytes
  import opened DownloadValidation
  import opened ResumeState
  import opened SourceDownload

  const APPEND_CHUNK_BYTES: nat := 64 * 1024
  const PUBLISH_CHUNK_BYTES: nat := 256 * 1024

  class SourceFiles {
    var final: Option<seq<byte>>
    var partial: Option<seq<byte>>
    var metadata: Option<seq<byte>>
    var incoming: Option<seq<byte>>
    // Numbers the file operations, so that an attempt's inputs can say which of them fail.
    var operations: nat
    // The disk after each operation so far.
    ghost var history: seq<Disk>

    constructor (d: Disk)
      ensures Valid() && history == [d]
    {
      final, partial, metadata, incoming := d.final, d.partial, d.metadata, d.incoming;
      operations, history := 1, [d];
    }

    function DiskNow(): Disk
      reads this
    {
      Disk(final, partial, metadata, incoming)
    }

    ghost predicate Valid()
      reads this
    {
      history != [] && operations == |history| && Last(history) == DiskNow()
    }

    /** Carries out one operation unless the attempt says that it fails. */
    method Perform(op: FileOp, a: Attempt) returns (ok: bool)
      requires Valid()
      modifies this
      ensures Valid()
      ensures history == Do(old(history), op, a)
      ensures ok == Succeeds(old(history), op, a)
    {
      ok := operations !in (if op.RemoveMetadata? then a.stuckMetadata else a.failing);
      if ok {
        match op {
          case RemovePartial => partial := None;
          case RemoveMetadata => metadata := None;
          case RemoveIncoming => incoming := None;
          case OpenIncoming => incoming := Some([]);
          case WriteIncoming(chunk) => incoming := Some(Content(incoming) + chunk);
          case RenameIncoming =>
            if incoming.Some? && partial.None? {
              partial, incoming := incoming, None;
            } else {
              ok := false;
            }
          case CommitPartial(content) => partial := Some(content);
          case CommitMetadata(content) => metadata := Some(content);
          case CommitFinal(content) => final := Some(content);
        }
      }
      history := history + [DiskNow()];
      operations := operations + 1;
    }

    method DropPartial(a: Attempt)
      requires Valid()
      modifies this
      ensures Valid() && history == DiscardPartial(old(history), a)
    {
      var _ := Perform(RemovePartial, a);
      var _ := Perform(RemoveMetadata, a);
    }

    /** The readyRead loop: chunks are written as they arrive, up to the size cap. */
    method ReceiveBody(a: Attempt) returns (downloaded: int, failed: bool)
      requires Valid()
      modifies this
      ensures Valid()
      ensures Receive(old(history), a.transfer.chunks, 0, a) == Received(history, downloaded, failed)
    {
      var chunks := a.transfer.chunks;
      downloaded, failed := 0, false;
      while chunks != [] && !failed
        invariant Valid()
        invariant Receive(old(history), a.transfer.chunks, 0, a)
                  == if failed then Received(history, downloaded, true) else Receive(history, chunks, downloaded, a)
        decreases |chunks|
      {
        downloaded := downloaded + |chunks[0]|;
        if downloaded > MAX_SOURCE_BYTES {
          failed := true;
        } else {
          var ok := Perform(WriteIncoming(chunks[0]), a);
          failed := !ok;
        }
        chunks := chunks[1..];
      }
    }

    method Save(state: PartialState, a: Attempt) returns (ok: bool)
      requires Valid()
      modifies this
      ensures Valid() && (history, ok) == SaveState(old(history), state, a)
    {
      if !ValidPartialState(state, MAX_SOURCE_BYTES) {
        return false;
      }
      ok := Perform(CommitMetadata(MetadataText(state)), a);
    }

    method KeepInterruptedPrefix(downloaded: int, a: Attempt)
      requires Valid() && a.transfer.contentLength.Some?
      modifies this
      ensures Valid() && history == KeepPrefix(old(history), downloaded, a)
    {
      DropPartial(a);
      var renamed := Perform(RenameIncoming, a);
      if renamed {
        var saved := Save(PartialState(downloaded, a.transfer.contentLength.value, a.transfer.etag), a);
        if !saved {
          DropPartial(a);
        }
      } else {
        var _ := Perform(RemoveIncoming, a);
      }
    }

    /** The chunked copy of exactly `expected` bytes from the start of a file. */
    static method CopyBytes(source: seq<byte>, expected: nat) returns (copied: seq<byte>)
      requires expected <= |source|
      ensures copied == source[..expected]
    {
      copied := [];
      var remaining := expected;
      while remaining > 0
        invariant 0 <= remaining <= expected
        invariant copied == source[..expected - remaining]
      {
        var size := if remaining < APPEND_CHUNK_BYTES then remaining else APPEND_CHUNK_BYTES;
        var chunk := source[expected - remaining..expected - remaining + size];
        copied := copied + chunk;
        remaining := remaining - size;
      }
    }

    /** appendCopernicusPartialSuffix: prefix and suffix are copied into one atomically committed file. */
    method AppendPartialSuffix(state: PartialState, suffixBytes: int, a: Attempt)
      requires Valid()
      modifies this
      ensures Valid() && history == AppendSuffix(old(history), state, suffixBytes, a)
    {
      if !ValidPartialState(state, MAX_SOURCE_BYTES)
         || !(0 < suffixBytes < state.total - state.downloaded) {
        return;
      }
      var current := Load(partial, metadata, MAX_SOURCE_BYTES);
      if current != Some(state) || |Content(incoming)| != suffixBytes {
        return;
      }
      var prefix := CopyBytes(partial.value, state.downloaded);
      var suffix := CopyBytes(Content(incoming), suffixBytes);
      assert prefix == partial.value && suffix == Content(incoming);
      var ok := Perform(CommitPartial(prefix + suffix), a);
      if ok {
        var _ := Save(state.(downloaded := state.downloaded + suffixBytes), a);
      }
    }

    /** The publisher's read loop: a whole file, chunk after chunk. */
    static method ReadToEnd(source: seq<byte>) returns (copied: seq<byte>)
      ensures copied == source
    {
      copied := [];
      var position := 0;
      while position < |source|
        invariant 0 <= position <= |source|
        invariant copied == source[..position]
      {
        var end := if position + PUBLISH_CHUNK_BYTES < |source| then position + PUBLISH_CHUNK_BYTES else |source|;
        copied := copied + source[position..end];
        position := end;
      }
    }

    /** publishCopernicusSource. */
    method Publish(withPrefix: bool, a: Attempt) returns (ok: bool)
      requires Valid()
      modifies this
      ensures Valid()
      ensures var op := CommitFinal((if withPrefix then Content(old(partial)) else []) + Content(old(incoming)));
              history == Do(old(history), op, a) && ok == Succeeds(old(history), op, a)
    {
      var output := [];
      if withPrefix {
        output := ReadToEnd(Content(partial));
      }
      var response := ReadToEnd(Content(incoming));
      ok := Perform(CommitFinal(output + response), a);
    }

    method FinishTransfer(prior: Option<PartialState>, downloaded: int, failed: bool, a: Attempt) returns (status: Status)
      requires Valid()
      modifies this
      ensures Valid()
      ensures Outcome(history, status) == Finish(prior, Received(old(history), downloaded, failed), a)
    {
      var t := a.transfer;
      if a.cancel.afterTransfer {
        var _ := Perform(RemoveIncoming, a);
        return Cancelled;
      }
      if failed {
        var _ := Perform(RemoveIncoming, a);
        return ReadFailure;
      }
      if NotFound(t) {
        var _ := Perform(RemoveIncoming, a);
        DropPartial(a);
        return Unavailable;
      }
      if !Intact(t) {
        if WorthKeeping(t, downloaded) {
          KeepInterruptedPrefix(downloaded, a);
        } else if t.status == 206 && prior.Some? && downloaded > 0 {
          if ContinuesPrior(t, prior.value, downloaded) {
            AppendPartialSuffix(prior.value, downloaded, a);
          }
          var _ := Perform(RemoveIncoming, a);
        } else {
          var _ := Perform(RemoveIncoming, a);
        }
        return NetworkFailure;
      }
      if t.status != 200 && t.status != 206 {
        var _ := Perform(RemoveIncoming, a);
        if t.status == 416 {
          DropPartial(a);
        }
        return NetworkFailure;
      }
      status := CompleteTransfer(prior, downloaded, failed, a);
    }

    method CompleteTransfer(prior: Option<PartialState>, downloaded: int, failed: bool, a: Attempt) returns (status: Status)
      requires Valid()
      modifies this
      ensures Valid()
      ensures Outcome(history, status) == Complete(prior, Received(old(history), downloaded, failed), a)
    {
      var t := a.transfer;
      var append := AppendsPrior(prior, t, downloaded);
      var full := CompleteResponse(t.status, downloaded, if t.contentLength.Some? then t.contentLength.value else -1);
      if (!append && !full) || (append && t.contentLength.Some? && t.contentLength.value != downloaded) {
        var _ := Perform(RemoveIncoming, a);
        if t.status == 206 {
          DropPartial(a);
        }
        return NetworkFailure;
      }
      if a.cancel.beforePublish {
        var _ := Perform(RemoveIncoming, a);
        return Cancelled;
      }
      var published := Publish(append, a);
      var _ := Perform(RemoveIncoming, a);
      if !published {
        return ReadFailure;
      }
      DropPartial(a);
      status := Ready;
    }

    /** downloadSourceTile, under the source lock: it leaves exactly the disks the specification lists. */
    method DownloadSourceTile(a: Attempt) returns (status: Status)
      requires Valid() && history == [DiskNow()]
      modifies this
      ensures Valid()
      ensures Outcome(history, status) == Download(old(DiskNow()), a)
    {
      if final.Some? && final.value != [] {
        return Ready;
      }
      var prior := Load(partial, metadata, MAX_SOURCE_BYTES);
      if prior.None? {
        DropPartial(a);
      }
      var _ := Perform(RemoveIncoming, a);
      var staged := Perform(OpenIncoming, a);
      if !staged {
        return ReadFailure;
      }
      if a.cancel.generation {
        return Cancelled;
      }
      if a.cancel.token {
        var _ := Perform(RemoveIncoming, a);
        return Cancelled;
      }
      var downloaded, failed := ReceiveBody(a);
      status := FinishTransfer(prior, downloaded, failed, a);
    }
  }
}
