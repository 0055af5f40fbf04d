// The Content-Length framing between the Python client and the Java search
// daemon, in the shape of the Language Server Protocol's base protocol: a
// header block ended by an empty line, then exactly Content-Length bytes of
// body. Both sides build the same frame; they read it back differently:
// Java stops the header at the first "\n\n" or "\r\n\r\n" and applies an
// anchored, line-oriented pattern, Python reads up to "\r\n\r\n" only and
// searches for the field anywhere in the header.
//
// Everything is stated over bytes. The header patterns are modelled on the
// bytes directly: the characters they mention are ASCII, and a byte of 0x80
// or above is treated as an ordinary non-space, non-digit character.
module Framing {
  import opened Wrappers
  import opened Strings
  import opened Decimal

  type Byte = b: int | 0 <= b < 256

  const CR: Byte := 13
  const LF: Byte := 10

  /** The bytes of an ASCII text. */
  function Ascii(s: string): (r: seq<Byte>)
    requires forall i :: 0 <= i < |s| ==> s[i] as int < 128
    ensures |r| == |s| && forall i :: 0 <= i < |s| ==> r[i] == s[i] as int
  {
    seq(|s|, i requires 0 <= i < |s| => s[i] as int)
  }

  /** `\s` of both pattern engines on ASCII: space, tab, LF, VT, FF, CR. */
  predicate IsSpaceByte(b: Byte)
  {
    b == 32 || 9 <= b <= 13
  }

  /** `\d` of both pattern engines: ASCII 0-9. */
  predicate IsDigitByte(b: Byte)
  {
    48 <= b <= 57
  }

  /** ASCII case folding, as the case-insensitive flags apply it. */
  function LowerByte(b: Byte): Byte
  {
    if 65 <= b <= 90 then b + 32 else b
  }

  /** "content-length:" in lower case. */
  function FieldName(): (r: seq<Byte>)
    ensures |r| == 15
  {
    [99, 111, 110, 116, 101, 110, 116, 45, 108, 101, 110, 103, 116, 104, 58]
  }

  /** "Content-Length: " as both sides write it. */
  function Prefix(): (r: seq<Byte>)
    ensures |r| == 16
  {
    [67, 111, 110, 116, 101, 110, 116, 45, 76, 101, 110, 103, 116, 104, 58, 32]
  }

  /** The header field name occurs at `p`, in any letter case. */
  predicate NameAt(h: seq<Byte>, p: nat)
  {
    p + 15 <= |h| && forall i :: 0 <= i < 15 ==> LowerByte(h[p + i]) == FieldName()[i]
  }

  /** End of the longest run of whitespace starting at `i`. */
  function SpaceEnd(h: seq<Byte>, i: nat): (e: nat)
    requires i <= |h|
    ensures i <= e <= |h| && (e == |h| || !IsSpaceByte(h[e]))
    ensures forall j :: i <= j < e ==> IsSpaceByte(h[j])
    decreases |h| - i
  {
    if i == |h| || !IsSpaceByte(h[i]) then i else SpaceEnd(h, i + 1)
  }

  /** End of the longest run of digits starting at `i`. */
  function DigitEnd(h: seq<Byte>, i: nat): (e: nat)
    requires i <= |h|
    ensures i <= e <= |h| && (e == |h| || !IsDigitByte(h[e]))
    ensures forall j :: i <= j < e ==> IsDigitByte(h[j])
    decreases |h| - i
  {
    if i == |h| || !IsDigitByte(h[i]) then i else DigitEnd(h, i + 1)
  }

  /** Value of a run of digit bytes. */
  function DigitsValue(ds: seq<Byte>): nat
    requires forall i :: 0 <= i < |ds| ==> IsDigitByte(ds[i])
    decreases |ds|
  {
    if |ds| == 0 then 0
    else
      var last := ds[|ds| - 1];
      assert IsDigitByte(last);
      DigitsValue(ds[..|ds| - 1]) * 10 + (last as int - 48)
  }

  // ---------------------------------------------------------------- the frame

  /** `Content-Length: <n>\r\n\r\n`, as both sides write it. */
  function Header(n: nat): (h: seq<Byte>)
    ensures |h| == 16 + |ToDecimal(n)| + 4
  {
    Prefix() + Ascii(ToDecimal(n)) + [CR, LF, CR, LF]
  }

  /**
   * The frame of a body: the Java daemon's `send` and the Python client's
   * `_encode_frame` both write the header for the body's byte length and
   * then the body unchanged.
   */
  function Frame(body: seq<Byte>): (r: seq<Byte>)
    ensures |r| == |Header(|body|)| + |body|
    ensures r[..|Header(|body|)|] == Header(|body|) && r[|Header(|body|)|..] == body
  {
    Header(|body|) + body
  }

  // ---------------------------------------------------------------- Java: readContentLength

  /** The header read so far ends in "\n\n" or "\r\n\r\n" after `n` bytes. */
  predicate DelimiterEndsAt(input: seq<Byte>, n: nat)
    requires n <= |input|
  {
    (n >= 2 && input[n - 2] == LF && input[n - 1] == LF) ||
    (n >= 4 && input[n - 4..n] == [CR, LF, CR, LF])
  }

  /** The delimiter test byte by byte. */
  lemma DelimiterBytes(input: seq<Byte>, n: nat)
    requires n <= |input|
    ensures DelimiterEndsAt(input, n) <==>
              (n >= 2 && input[n - 2] == LF && input[n - 1] == LF) ||
              (n >= 4 && input[n - 4] == CR && input[n - 3] == LF && input[n - 2] == CR && input[n - 1] == LF)
  {
    if n >= 4 {
      assert input[n - 4..n] == [input[n - 4], input[n - 3], input[n - 2], input[n - 1]];
    }
  }

  /** The number of bytes the Java reader consumes: through the first delimiter, or None at EOF. */
  function JavaHeaderEnd(input: seq<Byte>, from: nat): (r: Option<nat>)
    requires from <= |input|
    ensures r.Some? ==> from < r.value <= |input| && DelimiterEndsAt(input, r.value)
    ensures r.Some? ==> forall n :: from < n < r.value ==> !DelimiterEndsAt(input, n)
    ensures r.None? ==> forall n :: from < n <= |input| ==> !DelimiterEndsAt(input, n)
    decreases |input| - from
  {
    if from == |input| then None
    else if DelimiterEndsAt(input, from + 1) then Some(from + 1)
    else JavaHeaderEnd(input, from + 1)
  }

  /**
   * Java's MULTILINE `^` at `p`: the start of the input, or just after a line
   * terminator that is not the end of the input and does not split "\r\n".
   */
  predicate LineStart(h: seq<Byte>, p: nat)
    requires p <= |h|
  {
    p == 0 || (p < |h| && (h[p - 1] == LF || h[p - 1] == CR) && !(h[p - 1] == CR && h[p] == LF))
  }

  /** Java's MULTILINE `$` at `q`: the end of the input, or before a line terminator not inside "\r\n". */
  predicate LineEnd(h: seq<Byte>, q: nat)
    requires q <= |h|
  {
    q == |h| || h[q] == CR || (h[q] == LF && !(q > 0 && h[q - 1] == CR))
  }

  /**
   * The digit span `(?i)^Content-Length:\s*(\d+)\s*$` captures when it
   * matches at `p`: the greedy `\s*` must stop at the digits, the greedy
   * `\d+` takes all of them, and the trailing `\s*` may give back characters
   * until `$` holds.
   */
  function JavaMatchAt(h: seq<Byte>, p: nat): (r: Option<(nat, nat)>)
    requires p <= |h|
    ensures r.Some? ==> NameAt(h, p) && p + 15 <= r.value.0 < r.value.1 <= |h|
    ensures r.Some? ==> forall j :: r.value.0 <= j < r.value.1 ==> IsDigitByte(h[j])
  {
    if LineStart(h, p) && NameAt(h, p) then
      var a := SpaceEnd(h, p + 15);
      var e := DigitEnd(h, a);
      if e > a && exists q :: e <= q <= SpaceEnd(h, e) && LineEnd(h, q) then Some((a, e)) else None
    else None
  }

  /** `Matcher.find()`: the leftmost match at or after `from`. */
  function JavaFind(h: seq<Byte>, from: nat): (r: Option<(nat, nat)>)
    requires from <= |h|
    ensures r.Some? ==> exists p :: from <= p <= |h| && JavaMatchAt(h, p) == r
    decreases |h| - from
  {
    if JavaMatchAt(h, from).Some? then JavaMatchAt(h, from)
    else if from == |h| then None
    else JavaFind(h, from + 1)
  }

  /** What `readContentLength` returns or throws. */
  datatype HeaderRead =
    | Eof                               // -1: the stream ended before a delimiter
    | Length(n: nat)                    // the parsed Content-Length
    | NoContentLength(header: seq<Byte>) // IOException "Content-Length header not found"
    | NumberFormat(digits: seq<Byte>)    // Integer.parseInt overflow

  /** The outcome of the pattern and `Integer.parseInt` on a complete header block. */
  function JavaHeaderValue(h: seq<Byte>): HeaderRead
  {
    match JavaFind(h, 0)
    case None => NoContentLength(h)
    case Some((a, e)) =>
      var digits := h[a..e];
      if DigitsValue(digits) > JavaIntMax then NumberFormat(digits) else Length(DigitsValue(digits))
  }

  /**
   * `readContentLength`: reads byte by byte until the bytes read end in
   * "\n\n" or "\r\n\r\n" (tracking the previous byte for the first and the
   * last four for the second); EOF first gives -1.
   */
  method ReadContentLength(input: seq<Byte>) returns (r: HeaderRead, consumed: nat)
    ensures JavaHeaderEnd(input, 0).None? ==> r == Eof && consumed == |input|
    ensures JavaHeaderEnd(input, 0).Some? ==>
              consumed == JavaHeaderEnd(input, 0).value && r == JavaHeaderValue(input[..consumed])
  {
    var hdrBuf: seq<Byte> := [];
    var last: int := -1;
    var b: int := -1;
    var pos := 0;
    while true
      invariant 0 <= pos <= |input| && hdrBuf == input[..pos]
      invariant last == if pos == 0 then -1 else input[pos - 1]
      invariant forall n :: 0 < n <= pos ==> !DelimiterEndsAt(input, n)
      decreases |input| - pos
    {
      if pos == |input| {
        b := -1;
        break;
      }
      b := input[pos];
      pos := pos + 1;
      hdrBuf := hdrBuf + [b];
      assert hdrBuf == input[..pos];
      if last == LF && b == LF {
        break;
      }
      if |hdrBuf| >= 4 {
        var n := |hdrBuf|;
        if hdrBuf[n - 4] == CR && hdrBuf[n - 3] == LF && hdrBuf[n - 2] == CR && hdrBuf[n - 1] == LF {
          assert input[n - 4..n] == [CR, LF, CR, LF];
          break;
        }
      }
      DelimiterBytes(input, pos);
      last := b;
    }
    consumed := pos;
    if b == -1 {
      assert JavaHeaderEnd(input, 0).None?;
      return Eof, consumed;
    }
    JavaHeaderEndFirst(input, pos);
    r := JavaHeaderValue(hdrBuf);
  }

  // ---------------------------------------------------------------- Python: _read_frame

  /** Why `_read_frame` fails. */
  datatype FrameError =
    | IncompleteRead      // EOF before "\r\n\r\n" or before the body is complete
    | MissingLength       // RuntimeError "Missing Content-Length header"

  /** The span `Content-Length:\s*(\d+)` captures at `p` under `re.I`; no anchors. */
  function PyMatchAt(h: seq<Byte>, p: nat): (r: Option<(nat, nat)>)
    requires p <= |h|
    ensures r.Some? ==> NameAt(h, p) && p + 15 <= r.value.0 < r.value.1 <= |h|
    ensures r.Some? ==> forall j :: r.value.0 <= j < r.value.1 ==> IsDigitByte(h[j])
  {
    if NameAt(h, p) then
      var a := SpaceEnd(h, p + 15);
      var e := DigitEnd(h, a);
      if e > a then Some((a, e)) else None
    else None
  }

  /** `re.search`: the leftmost match at or after `from`. */
  function PySearch(h: seq<Byte>, from: nat): (r: Option<(nat, nat)>)
    requires from <= |h|
    ensures r.Some? ==> exists p :: from <= p <= |h| && PyMatchAt(h, p) == r
    ensures r.None? ==> forall p :: from <= p <= |h| ==> PyMatchAt(h, p).None?
    decreases |h| - from
  {
    if PyMatchAt(h, from).Some? then PyMatchAt(h, from)
    else if from == |h| then None
    else PySearch(h, from + 1)
  }

  /**
   * `_read_frame`: the header is everything through the first "\r\n\r\n";
   * its first Content-Length match gives the body length, and exactly that
   * many bytes follow. The rest of the stream is returned alongside.
   */
  function ReadFrame(stream: seq<Byte>): (r: Result<(seq<Byte>, seq<Byte>), FrameError>)
    ensures r.Ok? ==> exists n :: 4 <= n <= |stream| && r.value.0 + r.value.1 == stream[n..]
    ensures Find(stream, [CR, LF, CR, LF]).None? ==> r == Err(IncompleteRead)
  {
    match Find(stream, [CR, LF, CR, LF])
    case None => Err(IncompleteRead)
    case Some(k) =>
      var hdr := stream[..k + 4];
      var rest := stream[k + 4..];
      match PySearch(hdr, 0)
      case None => Err(MissingLength)
      case Some((a, e)) =>
        var length := DigitsValue(hdr[a..e]);
        if |rest| < length then Err(IncompleteRead)
        else
          assert rest[..length] + rest[length..] == stream[k + 4..];
          Ok((rest[..length], rest[length..]))
  }

  // ---------------------------------------------------------------- round trips

  lemma {:induction false} DigitsValueAscii(s: string)
    requires AllDigits(s)
    ensures forall i :: 0 <= i < |Ascii(s)| ==> IsDigitByte(Ascii(s)[i])
    ensures DigitsValue(Ascii(s)) == Value(s)
    decreases |s|
  {
    if |s| > 0 {
      var init := s[..|s| - 1];
      assert Ascii(s)[..|s| - 1] == Ascii(init);
      DigitsValueAscii(init);
    }
  }

  /** What a block starting with "Content-Length: " shows the patterns in its first 16 bytes. */
  lemma PrefixFacts(h: seq<Byte>)
    requires |h| >= 16 && h[..16] == Prefix()
    ensures NameAt(h, 0) && IsSpaceByte(h[15])
    ensures forall j :: 0 <= j < 16 ==> h[j] != CR && h[j] != LF && !IsDigitByte(h[j])
  {
    forall j | 0 <= j < 16 ensures h[j] == Prefix()[j] {
      assert h[..16][j] == h[j];
    }
  }

  lemma {:induction false} DigitEndOfRun(h: seq<Byte>, i: nat, e: nat)
    requires i <= e <= |h|
    requires forall j :: i <= j < e ==> IsDigitByte(h[j])
    requires e == |h| || !IsDigitByte(h[e])
    ensures DigitEnd(h, i) == e
    decreases e - i
  {
    if i < e { DigitEndOfRun(h, i + 1, e); }
  }

  /**
   * After "Content-Length: ", a run of digits ended by a line terminator is
   * what both patterns capture, and both find it at the very start.
   */
  lemma CaptureAfterPrefix(h: seq<Byte>, e: nat)
    requires |h| >= 16 && h[..16] == Prefix()
    requires 16 < e < |h| && (h[e] == CR || h[e] == LF)
    requires forall j :: 16 <= j < e ==> IsDigitByte(h[j])
    ensures JavaFind(h, 0) == Some((16, e)) && PySearch(h, 0) == Some((16, e))
  {
    PrefixFacts(h);
    assert SpaceEnd(h, 15) == 16 by {
      assert !IsSpaceByte(h[16]);
    }
    DigitEndOfRun(h, 16, e);
    assert LineEnd(h, e);
    assert JavaMatchAt(h, 0) == Some((16, e));
    assert PyMatchAt(h, 0) == Some((16, e));
  }

  /** The parts of a header: "Content-Length: ", the digits of `n`, CR LF CR LF. */
  lemma HeaderLayout(n: nat)
    ensures |Header(n)| >= 16 && Header(n)[..16] == Prefix()
    ensures Header(n)[16..16 + |ToDecimal(n)|] == Ascii(ToDecimal(n))
    ensures Header(n)[16 + |ToDecimal(n)|..] == [CR, LF, CR, LF]
    ensures forall j :: 16 <= j < 16 + |ToDecimal(n)| ==> IsDigitByte(Header(n)[j])
  {
    var s := ToDecimal(n);
    DigitsValueAscii(s);
    var h := Header(n);
    assert h == Prefix() + Ascii(s) + [CR, LF, CR, LF];
    forall j | 16 <= j < 16 + |s| ensures IsDigitByte(h[j]) {
      assert h[j] == Ascii(s)[j - 16];
    }
  }

  /** Both patterns capture the digits of `n` from its header. */
  lemma HeaderCapture(n: nat)
    ensures var h := Header(n); var e: nat := 16 + |ToDecimal(n)|;
            JavaFind(h, 0) == Some((16, e)) && PySearch(h, 0) == Some((16, e)) &&
            DigitsValue(h[16..e]) == n
  {
    var h := Header(n);
    var s := ToDecimal(n);
    HeaderLayout(n);
    assert h[16 + |s|] == h[16 + |s|..][0] == CR;
    CaptureAfterPrefix(h, 16 + |s|);
    DigitsValueAscii(s);
    ValueOfToDecimal(n);
  }

  /** The Java pattern and `parseInt` give back the length a header was written for. */
  lemma JavaParsesHeader(n: nat)
    requires n <= JavaIntMax
    ensures JavaHeaderValue(Header(n)) == Length(n)
  {
    HeaderCapture(n);
  }

  /** The Java reader stops exactly at the end of the header `send` wrote. */
  lemma JavaHeaderEndOfFrame(n: nat, tail: seq<Byte>)
    ensures JavaHeaderEnd(Header(n) + tail, 0) == Some(|Header(n)|)
  {
    var h := Header(n);
    var input := h + tail;
    var d := |ToDecimal(n)|;
    HeaderLayout(n);
    PrefixFacts(h);
    assert forall j :: 0 <= j < |h| ==> input[j] == h[j];
    assert h[16 + d] == CR && h[16 + d + 1] == LF && h[16 + d + 2] == CR && h[16 + d + 3] == LF by {
      assert h[16 + d..][0] == h[16 + d] && h[16 + d..][1] == h[16 + d + 1];
      assert h[16 + d..][2] == h[16 + d + 2] && h[16 + d..][3] == h[16 + d + 3];
    }
    forall m | 0 < m < |h| ensures !DelimiterEndsAt(input, m) {
      if m <= 16 + d + 1 {
        assert input[m - 1] != LF;
      } else if m == 16 + d + 2 {
        assert input[m - 2] != LF;
        assert input[m - 4..m][0] != CR;
      } else {
        assert input[m - 1] != LF;
        assert input[m - 4..m][0] == h[16 + d - 1];
      }
    }
    assert input[|h| - 4..|h|] == [CR, LF, CR, LF];
    JavaHeaderEndFirst(input, |h|);
  }

  lemma JavaHeaderEndFirst(input: seq<Byte>, k: nat)
    requires 0 < k <= |input| && DelimiterEndsAt(input, k)
    requires forall m :: 0 < m < k ==> !DelimiterEndsAt(input, m)
    ensures JavaHeaderEnd(input, 0) == Some(k)
  {
    var r := JavaHeaderEnd(input, 0);
    assert r.Some?;
    assert r.value <= k;
  }

  /**
   * Round trip on the Java side: reading the frame `send` wrote consumes
   * exactly its header and yields the body length, for every body a Java
   * array can hold.
   */
  lemma JavaReadsFrame(body: seq<Byte>, tail: seq<Byte>)
    requires |body| <= JavaIntMax
    ensures var input := Frame(body) + tail;
            JavaHeaderEnd(input, 0) == Some(|Header(|body|)|) &&
            JavaHeaderValue(input[..|Header(|body|)|]) == Length(|body|)
  {
    var h := Header(|body|);
    assert Frame(body) + tail == h + (body + tail);
    assert (h + (body + tail))[..|h|] == h;
    JavaHeaderEndOfFrame(|body|, body + tail);
    JavaParsesHeader(|body|);
  }

  /** The first "\r\n\r\n" of a frame is the one ending its header. */
  lemma FrameDelimiter(body: seq<Byte>, tail: seq<Byte>)
    ensures Find(Frame(body) + tail, [CR, LF, CR, LF]) == Some(|Header(|body|)| - 4)
  {
    var h := Header(|body|);
    var input := Frame(body) + tail;
    var d := |ToDecimal(|body|)|;
    HeaderLayout(|body|);
    PrefixFacts(h);
    assert input[..|h|] == h;
    assert OccursAt(input, [CR, LF, CR, LF], |h| - 4) by {
      assert input[|h| - 4..|h|] == h[16 + d..];
    }
    forall j | 0 <= j < |h| - 4 ensures !OccursAt(input, [CR, LF, CR, LF], j) {
      assert input[j] == h[j];
      assert input[j..j + 4][0] == input[j];
      if j >= 16 {
        assert IsDigitByte(h[j]);
      }
    }
    FindIsFirst(input, [CR, LF, CR, LF], |h| - 4);
  }

  /**
   * Round trip on the Python side: `_read_frame` applied to
   * `_encode_frame(p)` followed by anything returns `p` and leaves the rest
   * of the stream unread.
   */
  lemma PyReadsFrame(payload: seq<Byte>, tail: seq<Byte>)
    ensures ReadFrame(Frame(payload) + tail) == Ok((payload, tail))
  {
    var h := Header(|payload|);
    var input := Frame(payload) + tail;
    FrameDelimiter(payload, tail);
    assert input[..|h|] == h;
    assert input[|h|..] == payload + tail;
    HeaderCapture(|payload|);
    assert (payload + tail)[..|payload|] == payload;
    assert (payload + tail)[|payload|..] == tail;
  }

  /** The bytes "Content-Length: 2\n\n{}". */
  function BareNewlines(): (r: seq<Byte>)
    ensures |r| == 21 && r[..16] == Prefix()
  {
    Prefix() + [50, LF, LF, 123, 125]
  }

  /** The Java reader ends the header of "Content-Length: 2\n\n{}" at the bare "\n\n". */
  lemma JavaEndsAtBareNewlines()
    ensures JavaHeaderEnd(BareNewlines(), 0) == Some(19)
  {
    var input := BareNewlines();
    PrefixFacts(input);
    assert input[16] == 50 && input[17] == LF && input[18] == LF;
    forall m | 0 < m < 19 ensures !DelimiterEndsAt(input, m) {
      if m <= 17 {
        assert input[m - 1] != LF;
      } else {
        assert input[m - 2] != LF;
      }
    }
    JavaHeaderEndFirst(input, 19);
  }

  /** ... and reads the length 2 from it. */
  lemma JavaReadsBareNewlinesLength()
    ensures JavaHeaderValue(BareNewlines()[..19]) == Length(2)
  {
    var h := BareNewlines()[..19];
    assert h[..16] == Prefix();
    assert h[16] == 50 && h[17] == LF;
    SingleDigitValue(h);
  }

  lemma SingleDigitValue(h: seq<Byte>)
    requires |h| >= 18 && h[..16] == Prefix() && h[16] == 50 && h[17] == LF
    ensures JavaHeaderValue(h) == Length(2)
  {
    CaptureAfterPrefix(h, 17);
    assert h[16..17] == [50];
    assert DigitsValue([50]) == 2 by { assert [50][..0] == []; }
  }

  /** The Python reader never sees "\r\n\r\n" in "Content-Length: 2\n\n{}". */
  lemma PythonRejectsBareNewlines()
    ensures ReadFrame(BareNewlines()) == Err(IncompleteRead)
  {
    var input := BareNewlines();
    PrefixFacts(input);
    assert input[16] == 50 && input[17] == LF && input[18] == LF && input[19] == 123 && input[20] == 125;
    forall j | 0 <= j <= |input| ensures !OccursAt(input, [CR, LF, CR, LF], j) {
      if j + 4 <= |input| {
        assert input[j..j + 4][0] == input[j];
      }
    }
  }

  /**
   * The readers disagree on a bare "\n\n": the Java daemon takes
   * "Content-Length: 2\n\n{}" as a two-byte body, while the Python client
   * keeps waiting for "\r\n\r\n" and hits the end of the stream.
   */
  lemma BareNewlinesDivergence()
    ensures JavaHeaderEnd(BareNewlines(), 0) == Some(19)
    ensures JavaHeaderValue(BareNewlines()[..19]) == Length(2)
    ensures ReadFrame(BareNewlines()) == Err(IncompleteRead)
  {
    JavaEndsAtBareNewlines();
    JavaReadsBareNewlinesLength();
    PythonRejectsBareNewlines();
  }
}
