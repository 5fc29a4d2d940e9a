/** The partial-download record of src/lib/copernicus_resume_state.h: validity, text form, loading. */
module ResumeState {
  import opened Wrappers
  import opened Bytes
  import opened DownloadValidation

  const MAX_METADATA_BYTES: nat := 1024

  datatype PartialState = PartialState(downloaded: int, total: int, etag: seq<byte>)

  predicate ValidStrongEtag(etag: seq<byte>) {
    && 2 <= |etag| <= 256
    && etag[0] == QUOTE && etag[|etag| - 1] == QUOTE
    && NEWLINE !in etag && 13 !in etag && 0 !in etag
  }

  predicate ValidPartialState(state: PartialState, maximum: int) {
    && maximum > 0
    && 0 < state.downloaded < state.total <= maximum
    && ValidStrongEtag(state.etag)
  }

  function Magic(): seq<byte> {
    Ascii("AOWIS-COPERNICUS-PARTIAL-1")
  }

  function Line(text: seq<byte>, rest: seq<byte>): seq<byte> {
    text + [NEWLINE] + rest
  }

  /** The bytes saveCopernicusPartialState commits. */
  function MetadataText(state: PartialState): seq<byte>
    requires state.downloaded >= 0 && state.total >= 0
  {
    Line(Magic(), Line(Decimal(state.downloaded), Line(Decimal(state.total), Line(ToHex(state.etag), []))))
  }

  /** The state a metadata file spells out, before its validity is looked at. */
  function ParseMetadata(text: seq<byte>): Option<PartialState> {
    if |text| > MAX_METADATA_BYTES then None
    else
      var lines := Split(text, NEWLINE);
      if |lines| != 5 || lines[0] != Magic() || lines[4] != [] then None
      else
        var downloaded, total := DecimalOf(lines[1]), DecimalOf(lines[2]);
        if downloaded.None? || total.None? || |lines[3]| % 2 != 0 then None
        else
          var etag := FromHex(lines[3]);
          if ToHex(etag) != lines[3] then None
          else Some(PartialState(downloaded.value, total.value, etag))
  }

  /** loadCopernicusPartialState over the contents of the two files (None: no readable file). */
  function Load(partial: Option<seq<byte>>, metadata: Option<seq<byte>>, maximum: int): (r: Option<PartialState>)
    ensures r.Some? ==> partial.Some? && |partial.value| == r.value.downloaded && ValidPartialState(r.value, maximum)
  {
    if partial.None? || partial.value == [] || |partial.value| >= maximum || metadata.None? then None
    else
      var state := ParseMetadata(metadata.value);
      if state.None? || !ValidPartialState(state.value, maximum) || |partial.value| != state.value.downloaded
      then None
      else state
  }

  lemma MetadataLength(state: PartialState, maximum: int)
    requires ValidPartialState(state, maximum) && maximum <= MAX_INT64
    ensures |MetadataText(state)| <= MAX_METADATA_BYTES
  {
    assert Power10(19) == 10_000_000_000_000_000_000 by {
      assert Power10(5) == 100_000;
      assert Power10(10) == 10_000_000_000;
      assert Power10(15) == 1_000_000_000_000_000;
    }
    DecimalLength(state.downloaded, 19);
    DecimalLength(state.total, 19);
  }

  lemma SplitMetadata(state: PartialState)
    requires state.downloaded >= 0 && state.total >= 0
    ensures Split(MetadataText(state), NEWLINE)
            == [Magic(), Decimal(state.downloaded), Decimal(state.total), ToHex(state.etag), []]
  {
    SplitFourLines(Magic(), Decimal(state.downloaded), Decimal(state.total), ToHex(state.etag));
  }

  lemma SplitOneMore(line: seq<byte>, rest: seq<byte>, lines: seq<seq<byte>>, all: seq<seq<byte>>)
    requires NEWLINE !in line && Split(rest, NEWLINE) == lines && all == [line] + lines
    ensures Split(Line(line, rest), NEWLINE) == all
  {
    SplitLine(line, NEWLINE, rest);
  }

  lemma {:induction false} SplitFourLines(m: seq<byte>, d: seq<byte>, t: seq<byte>, e: seq<byte>)
    requires NEWLINE !in m && NEWLINE !in d && NEWLINE !in t && NEWLINE !in e
    ensures Split(Line(m, Line(d, Line(t, Line(e, [])))), NEWLINE) == [m, d, t, e, []]
  {
    SplitOneMore(e, [], [[]], [e, []]);
    SplitOneMore(t, Line(e, []), [e, []], [t, e, []]);
    SplitOneMore(d, Line(t, Line(e, [])), [t, e, []], [d, t, e, []]);
    SplitOneMore(m, Line(d, Line(t, Line(e, []))), [d, t, e, []], [m, d, t, e, []]);
  }

  /** Saving and loading undo each other for every valid state and matching partial file. */
  lemma LoadOfSaved(partial: seq<byte>, state: PartialState, maximum: int)
    requires ValidPartialState(state, maximum) && maximum <= MAX_INT64
    requires |partial| == state.downloaded
    ensures Load(Some(partial), Some(MetadataText(state)), maximum) == Some(state)
  {
    MetadataLength(state, maximum);
    SplitMetadata(state);
    DecimalValueOfDecimal(state.downloaded);
    DecimalValueOfDecimal(state.total);
    FromHexOfToHex(state.etag);
  }
}
