/**
 * The byte-order-mark sniffing of `UnicodeReader`: the reader reads up to
 * four bytes ahead, recognises a UTF-8, UTF-16 or UTF-32 byte order mark,
 * skips exactly the mark and pushes every other byte it read back onto the
 * stream. The stream is a sequence of bytes and the number of bytes the
 * single read-ahead delivers is an input; decoding the characters is not
 * modelled.
 */
module UnicodeReaders {
  import opened Text

  /** Size of the read-ahead buffer, and of the push-back buffer. */
  const BOM_SIZE: int := 4

  const UTF8_MARK: seq<bv8> := [0xEF, 0xBB, 0xBF]
  const UTF16BE_MARK: seq<bv8> := [0xFE, 0xFF]
  const UTF16LE_MARK: seq<bv8> := [0xFF, 0xFE]
  const UTF32BE_MARK: seq<bv8> := [0x00, 0x00, 0xFE, 0xFF]
  const UTF32LE_MARK: seq<bv8> := [0xFF, 0xFE, 0x00, 0x00]

  /** The mark the read-ahead buffer was classified as, in the order the tests are made. */
  datatype BomKind = Utf8 | Utf16BE | Utf16LE | Utf32BE | Utf32LE | NoBom

  /** The charset the reader decodes with: a named one or, for none given, the platform's. */
  datatype Charset = Named(name: string) | PlatformDefault

  function Mark(k: BomKind): seq<bv8>
  {
    match k
    case Utf8 => UTF8_MARK
    case Utf16BE => UTF16BE_MARK
    case Utf16LE => UTF16LE_MARK
    case Utf32BE => UTF32BE_MARK
    case Utf32LE => UTF32LE_MARK
    case NoBom => []
  }

  /** The encoding name each mark selects; without a mark the default encoding. */
  function EncodingFor(k: BomKind, defaultEnc: Option<string>): (r: Option<string>)
    ensures k == NoBom ==> r == defaultEnc
    ensures k != NoBom ==> r.Some?
  {
    match k
    case Utf8 => Some("UTF-8")
    case Utf16BE => Some("UTF-16BE")
    case Utf16LE => Some("UTF-16LE")
    case Utf32BE => Some("UTF-32BE")
    case Utf32LE => Some("UTF-32LE")
    case NoBom => defaultEnc
  }

  /** The buffer starts with the bytes of `mark`. */
  predicate HasMark(buf: seq<bv8>, mark: seq<bv8>)
  {
    |mark| <= |buf| && buf[..|mark|] == mark
  }

  /**
   * The tests `init` makes on the read-ahead buffer, in the source's
   * order: UTF-8, UTF-16BE, UTF-16LE, UTF-32BE, UTF-32LE.
   */
  function Classify(buf: seq<bv8>): BomKind
  {
    if HasMark(buf, UTF8_MARK) then Utf8
    else if HasMark(buf, UTF16BE_MARK) then Utf16BE
    else if HasMark(buf, UTF16LE_MARK) then Utf16LE
    else if HasMark(buf, UTF32BE_MARK) then Utf32BE
    else if HasMark(buf, UTF32LE_MARK) then Utf32LE
    else NoBom
  }

  /**
   * The read-ahead buffer after one read: the bytes the read delivered,
   * then the zeros a fresh array holds.
   */
  function Buffer(got: seq<bv8>): (r: seq<bv8>)
    requires |got| <= BOM_SIZE
    ensures |r| == BOM_SIZE && r[..|got|] == got
    ensures forall i :: |got| <= i < BOM_SIZE ==> r[i] == 0
  {
    got + seq(BOM_SIZE - |got|, _ => 0)
  }

  /** What `read(byte[], int, int)` returns: -1 at the end of the stream, else the count. */
  function ReadCount(got: seq<bv8>): int
  {
    if |got| == 0 then -1 else |got|
  }

  /** How many of the bytes read `init` pushes back: all of them without a mark. */
  function Unread(got: seq<bv8>): int
    requires |got| <= BOM_SIZE
  {
    var k := Classify(Buffer(got));
    if k == NoBom then ReadCount(got) else ReadCount(got) - |Mark(k)|
  }

  /** Each mark is recognised as itself whatever follows it, except the UTF-32LE mark. */
  lemma {:induction false} MarkRecognised(k: BomKind, tail: seq<bv8>)
    requires k != Utf32LE && k != NoBom
    ensures Classify(Mark(k) + tail) == k
  {
    var b := Mark(k) + tail;
    assert b[..|Mark(k)|] == Mark(k);
    match k
    case Utf8 =>
    case Utf16BE =>
      assert b[0] == 0xFE;
    case Utf16LE =>
      assert b[0] == 0xFF;
    case Utf32BE =>
      assert b[0] == 0x00 && b[2] == 0xFE;
  }

  /**
   * The UTF-16LE test comes before the UTF-32LE one and the UTF-32LE mark
   * begins with the UTF-16LE mark, so a UTF-32LE mark is taken for UTF-16LE
   * and the UTF-32LE branch is never taken.
   */
  lemma Utf32LEUnreachable(buf: seq<bv8>)
    ensures Classify(buf) != Utf32LE
    ensures HasMark(buf, UTF32LE_MARK) ==> Classify(buf) == Utf16LE
  {
    if HasMark(buf, UTF32LE_MARK) {
      assert buf[0] == buf[..4][0] == 0xFF && buf[1] == buf[..4][1] == 0xFE;
      assert buf[..2] == UTF16LE_MARK;
    }
  }

  /** A buffer is taken to hold no mark exactly when it starts with none of the five. */
  lemma NoMarkExactly(buf: seq<bv8>)
    ensures Classify(buf) == NoBom <==>
      !HasMark(buf, UTF8_MARK) && !HasMark(buf, UTF16BE_MARK) && !HasMark(buf, UTF16LE_MARK)
      && !HasMark(buf, UTF32BE_MARK) && !HasMark(buf, UTF32LE_MARK)
  {
  }

  /**
   * A mark is recognised only among the bytes the read delivered: each
   * recognised mark ends in a non-zero byte, and the padding is zero. So
   * the delivered bytes start with the mark.
   */
  lemma {:induction false} MarkWithinDelivered(got: seq<bv8>)
    requires |got| <= BOM_SIZE
    ensures Classify(Buffer(got)) != NoBom ==>
      |Mark(Classify(Buffer(got)))| <= |got| && got[..|Mark(Classify(Buffer(got)))|] == Mark(Classify(Buffer(got)))
  {
    var buf := Buffer(got);
    var k := Classify(buf);
    Utf32LEUnreachable(buf);
    if k != NoBom {
      var m := Mark(k);
      assert buf[..|m|] == m;
      assert buf[|m| - 1] == m[|m| - 1] != 0;
      assert got[..|m|] == buf[..|got|][..|m|];
    }
  }

  /**
   * How many bytes `init` pushes back is never below -1, so the source's
   * branch for fewer than -1 is never taken; with a mark it is the number
   * of bytes read after the mark.
   */
  lemma UnreadRange(got: seq<bv8>)
    requires |got| <= BOM_SIZE
    ensures Unread(got) >= -1
    ensures Classify(Buffer(got)) != NoBom ==> Unread(got) == |got| - |Mark(Classify(Buffer(got)))| >= 0
    ensures Classify(Buffer(got)) == NoBom ==> Unread(got) == ReadCount(got)
  {
    MarkWithinDelivered(got);
  }

  /**
   * The bytes left for the decoder after `init` read `delivered` bytes of
   * `input` ahead: everything but a recognised mark, in order.
   */
  function AfterMark(input: seq<bv8>, delivered: nat): (r: seq<bv8>)
    requires ReadDelivers(input, delivered)
    ensures Classify(Buffer(input[..delivered])) == NoBom ==> r == input
    ensures Classify(Buffer(input[..delivered])) != NoBom ==>
      input == Mark(Classify(Buffer(input[..delivered]))) + r
  {
    var got := input[..delivered];
    MarkWithinDelivered(got);
    var m := |Mark(Classify(Buffer(got)))|;
    assert input[..m] == got[..m];
    assert input == input[..m] + input[m..];
    input[m..]
  }

  /**
   * What `init` leaves on the stream is what follows the mark: the bytes
   * pushed back from the buffer, then the bytes not yet read.
   */
  lemma {:induction false} PushedBackIsAfterMark(input: seq<bv8>, delivered: nat)
    requires ReadDelivers(input, delivered)
    ensures var got := input[..delivered];
      Unread(got) > 0 ==>
        Unread(got) <= ReadCount(got) <= BOM_SIZE
        && Buffer(got)[ReadCount(got) - Unread(got)..ReadCount(got)] + input[delivered..] == AfterMark(input, delivered)
    ensures Unread(input[..delivered]) <= 0 ==> input[delivered..] == AfterMark(input, delivered)
  {
    var got := input[..delivered];
    var k := Classify(Buffer(got));
    UnreadRange(got);
    MarkWithinDelivered(got);
    assert input == got + input[delivered..];
    if Unread(got) > 0 {
      var n := ReadCount(got);
      assert Buffer(got)[n - Unread(got)..n] == got[|Mark(k)|..];
    }
  }

  class UnicodeReader {
    /** The bytes the decoder will read: the pushed-back bytes, then the rest of the stream. */
    var stream: seq<bv8>
    var defaultEnc: Option<string>
    var hasBom: bool
    /** The decoder's charset once `init` ran (`internalIn2` set), else none. */
    var charset: Option<Charset>

    /**
     * The constructor wraps the stream and runs `init`; the first read
     * delivers `delivered` bytes (none only at the end of the stream).
     */
    constructor(input: seq<bv8>, encoding: Option<string>, delivered: nat)
      requires ReadDelivers(input, delivered)
      ensures defaultEnc == encoding && charset.Some?
      ensures var k := Classify(Buffer(input[..delivered]));
        && stream == AfterMark(input, delivered)
        && hasBom == (k != NoBom)
        && charset == Some(CharsetOf(EncodingFor(k, encoding)))
    {
      stream := input;
      defaultEnc := encoding;
      hasBom := true;
      charset := None;
      new;
      Init(delivered);
    }

    /**
     * `init`: nothing once the decoder exists; otherwise read ahead, skip
     * the mark, push the other bytes read back, and pick the charset.
     */
    method Init(delivered: nat)
      requires ReadDelivers(stream, delivered)
      modifies this
      ensures defaultEnc == old(defaultEnc)
      ensures old(charset).Some? ==>
        stream == old(stream) && charset == old(charset) && hasBom == old(hasBom)
      ensures old(charset).None? ==>
        var k := Classify(Buffer(old(stream)[..delivered]));
        && stream == AfterMark(old(stream), delivered)
        && hasBom == (if k == NoBom then false else old(hasBom))
        && charset == Some(CharsetOf(EncodingFor(k, defaultEnc)))
    {
      if charset.Some? {
        return;
      }
      var got := stream[..delivered];
      var rest := stream[delivered..];
      var n := ReadCount(got);
      var buf := Buffer(got);
      var k := Classify(buf);
      var unread := Unread(got);
      if k == NoBom {
        hasBom := false;
      }
      PushedBackIsAfterMark(stream, delivered);
      if unread > 0 {
        PushBack(buf, n, unread, rest);
      } else {
        // Nothing to push back (the source's call for fewer than -1 bytes unreads none either).
        stream := rest;
      }
      charset := Some(CharsetOf(EncodingFor(k, defaultEnc)));
    }

    /** `PushbackInputStream.unread(bom, n - unread, unread)`. */
    method PushBack(buf: seq<bv8>, n: int, unread: int, rest: seq<bv8>)
      requires 0 < unread <= n <= |buf|
      modifies this
      ensures stream == buf[n - unread..n] + rest
      ensures hasBom == old(hasBom) && charset == old(charset) && defaultEnc == old(defaultEnc)
    {
      stream := buf[n - unread..n] + rest;
    }

    /** `getEncoding`: none before `init`, else the decoder's charset. */
    function GetEncoding(): (r: Option<Charset>)
      reads this
      ensures r.None? <==> charset.None?
    {
      charset
    }
  }

  /**
   * The contract of `InputStream.read(b, 0, 4)` on this stream: at the end
   * of the stream nothing, otherwise at least one and at most four bytes.
   */
  predicate ReadDelivers(input: seq<bv8>, delivered: nat)
  {
    if |input| == 0 then delivered == 0 else 1 <= delivered <= BOM_SIZE && delivered <= |input|
  }

  /** `new InputStreamReader(in)` for no encoding, `new InputStreamReader(in, enc)` otherwise. */
  function CharsetOf(encoding: Option<string>): (r: Charset)
    ensures encoding.None? <==> r == PlatformDefault
    ensures encoding.Some? ==> r == Named(encoding.value)
  {
    if encoding.None? then PlatformDefault else Named(encoding.value)
  }

  /**
   * Skipping the mark only: when the whole mark was delivered, a stream
   * that starts with a UTF-8, UTF-16 or UTF-32BE mark is read from the byte
   * after it, decoded with the mark's encoding.
   */
  lemma {:induction false} MarkedStreamSkipsMark(k: BomKind, body: seq<bv8>, delivered: nat)
    requires k != Utf32LE && k != NoBom
    requires ReadDelivers(Mark(k) + body, delivered) && |Mark(k)| <= delivered
    ensures Classify(Buffer((Mark(k) + body)[..delivered])) == k
    ensures AfterMark(Mark(k) + body, delivered) == body
  {
    var input := Mark(k) + body;
    var got := input[..delivered];
    assert got == Mark(k) + got[|Mark(k)|..];
    assert Buffer(got) == Mark(k) + (got[|Mark(k)|..] + seq(BOM_SIZE - |got|, _ => 0));
    MarkRecognised(k, got[|Mark(k)|..] + seq(BOM_SIZE - |got|, _ => 0));
  }
}
