/** The response rules of src/lib/copernicus_download_validation.h. */
module DownloadValidation {
  import opened Wrappers
  import opened Bytes

  const MAX_INT64: int := 0x7fff_ffff_ffff_ffff

  datatype ContentRange = ContentRange(first: int, last: int, total: int)

  datatype ResumeAction = RestartWithFullEntity | AppendVerifiedRange | RejectResponse

  predicate CompleteResponse(status: int, downloaded: int, declaredLength: int) {
    status == 200 && downloaded > 0 && (declaredLength < 0 || declaredLength == downloaded)
  }

  /** What the decimal parser accepts: digit strings whose value fits a signed 64-bit integer. */
  function DecimalOf(text: seq<byte>): Option<int> {
    if text != [] && AllDigits(text) && DecimalValue(text) <= MAX_INT64
    then Some(DecimalValue(text)) else None
  }

  /**
   * The accumulating parser. Its overflow test `value > (MAX - digit) / 10` never
   * rejects a string whose value fits, and never lets one through that does not.
   */
  method ParsePositiveDecimal(text: seq<byte>) returns (r: Option<int>)
    ensures r == DecimalOf(text)
  {
    if text == [] {
      return None;
    }
    var value := 0;
    for i := 0 to |text|
      invariant AllDigits(text[..i])
      invariant value == DecimalValue(text[..i])
      invariant 0 <= value <= MAX_INT64
    {
      if !IsDigit(text[i]) {
        return None;
      }
      var nextDigit := text[i] - 48;
      assert text[..i + 1][..i] == text[..i];
      assert DecimalValue(text[..i + 1]) == 10 * value + nextDigit;
      if value > (MAX_INT64 - nextDigit) / 10 {
        if AllDigits(text) {
          DecimalValuePrefix(text, i + 1);
        }
        return None;
      }
      value := value * 10 + nextDigit;
    }
    assert text[..|text|] == text;
    r := Some(value);
  }

  function ParseContentRange(header: seq<byte>): Option<ContentRange> {
    if !(Ascii("bytes ") <= header) then None
    else
      var range := header[6..];
      var dash := IndexOf(range, DASH, 0);
      var slash := IndexOf(range, SLASH, 0);
      if dash <= 0 || slash <= dash + 1 || slash == |range| - 1
         || IndexOf(range, DASH, dash + 1) >= 0 || IndexOf(range, SLASH, slash + 1) >= 0
      then None
      else
        var first := DecimalOf(range[..dash]);
        var last := DecimalOf(range[dash + 1..slash]);
        var total := DecimalOf(range[slash + 1..]);
        if first.None? || last.None? || total.None? || total.value == 0
           || first.value > last.value || last.value >= total.value
        then None
        else Some(ContentRange(first.value, last.value, total.value))
  }

  function RangeText(f: seq<byte>, l: seq<byte>, t: seq<byte>): seq<byte> {
    Ascii("bytes ") + (f + [DASH] + l + [SLASH] + t)
  }

  /** `f`, `l` and `t` are digit strings that denote the range `r`, which lies inside its total. */
  predicate Denotes(f: seq<byte>, l: seq<byte>, t: seq<byte>, r: ContentRange) {
    && DecimalOf(f) == Some(r.first) && DecimalOf(l) == Some(r.last) && DecimalOf(t) == Some(r.total)
    && r.first <= r.last < r.total
  }

  /** Whatever the parser returns is written in the header as `bytes F-L/T`. */
  lemma ContentRangeSound(header: seq<byte>) returns (f: seq<byte>, l: seq<byte>, t: seq<byte>)
    requires ParseContentRange(header).Some?
    ensures header == RangeText(f, l, t) && Denotes(f, l, t, ParseContentRange(header).value)
  {
    var range := header[6..];
    var dash := IndexOf(range, DASH, 0);
    var slash := IndexOf(range, SLASH, 0);
    f, l, t := range[..dash], range[dash + 1..slash], range[slash + 1..];
    CutTwice(range, dash, slash);
    PrefixAndRest(header);
  }

  lemma CutTwice(range: seq<byte>, dash: nat, slash: nat)
    requires dash < slash < |range| && range[dash] == DASH && range[slash] == SLASH
    ensures range == range[..dash] + [DASH] + range[dash + 1..slash] + [SLASH] + range[slash + 1..]
  {
  }

  lemma PrefixAndRest(header: seq<byte>)
    requires Ascii("bytes ") <= header
    ensures |header| >= 6 && header == Ascii("bytes ") + header[6..]
  {
  }

  /** In `f-l/t`, with digit strings for f, l and t, each separator occurs once. */
  lemma {:induction false} Separators(f: seq<byte>, l: seq<byte>, t: seq<byte>)
    requires AllDigits(f) && AllDigits(l) && AllDigits(t)
    ensures var range := f + [DASH] + l + [SLASH] + t;
            var slash := |f| + 1 + |l|;
            && IndexOf(range, DASH, 0) == |f| && IndexOf(range, DASH, |f| + 1) == -1
            && IndexOf(range, SLASH, 0) == slash && IndexOf(range, SLASH, slash + 1) == -1
            && range[..|f|] == f && range[|f| + 1..slash] == l && range[slash + 1..] == t
  {
    var range := f + [DASH] + l + [SLASH] + t;
    var slash := |f| + 1 + |l|;
    assert forall i :: 0 <= i < |range| && i != |f| && i != slash ==> IsDigit(range[i]);
    assert range[|f|] == DASH && range[slash] == SLASH;
    var d := IndexOf(range, DASH, 0);
    var s := IndexOf(range, SLASH, 0);
  }

  /** Every header `bytes F-L/T` with F <= L < T in 64-bit range is accepted with those values. */
  lemma {:induction false} ContentRangeComplete(f: seq<byte>, l: seq<byte>, t: seq<byte>, r: ContentRange)
    requires Denotes(f, l, t, r)
    ensures ParseContentRange(RangeText(f, l, t)) == Some(r)
  {
    var range := f + [DASH] + l + [SLASH] + t;
    assert RangeText(f, l, t)[6..] == range;
    Separators(f, l, t);
  }

  /** The parser accepts exactly `bytes F-L/T` with F <= L < T, and returns those numbers. */
  lemma ContentRangeExact(header: seq<byte>, r: ContentRange)
    ensures ParseContentRange(header) == Some(r)
            <==> exists f, l, t :: header == RangeText(f, l, t) && Denotes(f, l, t, r)
  {
    if ParseContentRange(header) == Some(r) {
      var f, l, t := ContentRangeSound(header);
    }
    if exists f, l, t :: header == RangeText(f, l, t) && Denotes(f, l, t, r) {
      var f, l, t :| header == RangeText(f, l, t) && Denotes(f, l, t, r);
      ContentRangeComplete(f, l, t, r);
    }
  }

  function ClassifyResumeResponse(status: int, existing: int, received: int, contentRange: seq<byte>,
                                  storedEtag: seq<byte>, responseEtag: seq<byte>, maximum: int): ResumeAction
  {
    if status == 200 && CompleteResponse(status, received, -1) && received <= maximum
    then RestartWithFullEntity
    else if status != 206 || existing <= 0 || received <= 0 || maximum <= 0 || storedEtag == []
            || Ascii("W/") <= storedEtag || responseEtag != storedEtag
    then RejectResponse
    else
      var range := ParseContentRange(contentRange);
      if range.None? || range.value.first != existing || range.value.total > maximum
         || range.value.last - range.value.first + 1 != received
         || range.value.last + 1 != range.value.total
      then RejectResponse
      else AppendVerifiedRange
  }

  /**
   * A response is appended exactly when it names the stored strong entity and its bytes
   * run from the stored offset to the end of that entity, within the size limit.
   */
  lemma AppendCompletesTheEntity(status: int, existing: int, received: int, contentRange: seq<byte>,
                                 storedEtag: seq<byte>, responseEtag: seq<byte>, maximum: int)
    ensures ClassifyResumeResponse(status, existing, received, contentRange, storedEtag, responseEtag, maximum) == AppendVerifiedRange
            <==> (&& status == 206 && responseEtag == storedEtag && storedEtag != [] && !(Ascii("W/") <= storedEtag)
                  && existing > 0 && received > 0 && existing + received <= maximum
                  && exists f, l, t ::
                       && contentRange == RangeText(f, l, t)
                       && Denotes(f, l, t, ContentRange(existing, existing + received - 1, existing + received)))
  {
    ContentRangeExact(contentRange, ContentRange(existing, existing + received - 1, existing + received));
    if ParseContentRange(contentRange).Some? {
      ContentRangeExact(contentRange, ParseContentRange(contentRange).value);
    }
  }
}
