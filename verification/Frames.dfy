/** The framed byte stream between host and guest: internal/guestagent/frame.go, and the reads it sits on. */
module Frames {

  import opened Common

  const MAX_PAYLOAD := 0x10_0000
  const STDOUT: Byte := 1
  const STDERR: Byte := 2
  const EXIT: Byte := 3

  datatype Frame = Frame(typ: Byte, payload: seq<Byte>)

  predicate Fits(f: Frame) {
    |f.payload| <= MAX_PAYLOAD
  }

  predicate AllFit(fs: seq<Frame>) {
    forall i :: 0 <= i < |fs| ==> Fits(fs[i])
  }

  // ----- Integers on the wire -----

  function Be32(n: nat): (b: seq<Byte>)
    requires n < 0x1_0000_0000
    ensures |b| == 4
  {
    [n / 0x100_0000, n / 0x1_0000 % 256, n / 256 % 256, n % 256]
  }

  function FromBe32(b: seq<Byte>): (n: nat)
    requires |b| >= 4
    ensures n < 0x1_0000_0000
  {
    (b[0] as int) * 0x100_0000 + (b[1] as int) * 0x1_0000 + (b[2] as int) * 256 + b[3]
  }

  lemma Be32RoundTrip(n: nat)
    requires n < 0x1_0000_0000
    ensures FromBe32(Be32(n)) == n
  {
    var a, b := n / 256, n / 0x1_0000;
    assert n / 0x1_0000 == a / 256 && n / 0x100_0000 == b / 256;
    assert a == b * 256 + a % 256;
  }

  function ExitCode(code: int): seq<Byte> {
    Be32(code % 0x1_0000_0000)
  }

  function DecodeExitCode(payload: seq<Byte>): int {
    if |payload| < 4 then 0
    else if FromBe32(payload) < 0x8000_0000 then FromBe32(payload)
    else FromBe32(payload) - 0x1_0000_0000
  }

  predicate IsInt32(code: int) {
    -0x8000_0000 <= code < 0x8000_0000
  }

  /** The code that arrives is the int32 the code wraps to: the code itself exactly when it is an int32. */
  lemma ExitCodeRoundTrip(code: int)
    ensures IsInt32(DecodeExitCode(ExitCode(code)))
    ensures (DecodeExitCode(ExitCode(code)) - code) % 0x1_0000_0000 == 0
    ensures DecodeExitCode(ExitCode(code)) == code <==> IsInt32(code)
  {
    Be32RoundTrip(code % 0x1_0000_0000);
  }

  function ResizePayload(rows: nat, cols: nat): seq<Byte>
    requires rows < 0x1_0000 && cols < 0x1_0000
  {
    [rows / 256, rows % 256, cols / 256, cols % 256]
  }

  function DecodeResize(payload: seq<Byte>): (nat, nat) {
    if |payload| < 4 then (0, 0)
    else ((payload[0] as int) * 256 + payload[1], (payload[2] as int) * 256 + payload[3])
  }

  lemma ResizeRoundTrip(rows: nat, cols: nat)
    requires rows < 0x1_0000 && cols < 0x1_0000
    ensures DecodeResize(ResizePayload(rows, cols)) == (rows, cols)
  {}

  // ----- Frames as bytes -----

  function Header(f: Frame): (h: seq<Byte>)
    ensures |h| == 5
  {
    [f.typ] + Be32(|f.payload| % 0x1_0000_0000)
  }

  function Encode(f: Frame): (s: seq<Byte>)
    ensures |s| == 5 + |f.payload|
  {
    Header(f) + f.payload
  }

  function EncodeAll(fs: seq<Frame>): seq<Byte> {
    if fs == [] then [] else Encode(fs[0]) + EncodeAll(fs[1..])
  }

  lemma {:induction false} EncodeAllConcat(a: seq<Frame>, b: seq<Frame>)
    ensures EncodeAll(a + b) == EncodeAll(a) + EncodeAll(b)
  {
    if a == [] {
      assert a + b == b;
    } else {
      assert (a + b)[1..] == a[1..] + b;
      EncodeAllConcat(a[1..], b);
    }
  }

  /** How a stream of frames ends for its reader. */
  datatype End = Eof | UnexpectedEof | TooLarge

  datatype Block = Whole(data: seq<Byte>) | Short(end: End)

  /** io.ReadFull: plain EOF when not one byte could be read, ErrUnexpectedEOF when some but not all. */
  function FullBlock(s: seq<Byte>, n: nat): Block {
    if n <= |s| then Whole(s[..n]) else if s == [] then Short(Eof) else Short(UnexpectedEof)
  }

  datatype Parsed = Got(frame: Frame) | Failed(end: End)

  function Parse(s: seq<Byte>): Parsed {
    match FullBlock(s, 5)
    case Short(e) => Failed(e)
    case Whole(hdr) =>
      var n := FromBe32(hdr[1..]);
      if n > MAX_PAYLOAD then Failed(TooLarge)
      else if n == 0 then Got(Frame(hdr[0], []))
      else
        match FullBlock(s[5..], n)
        case Short(e) => Failed(e)
        case Whole(payload) => Got(Frame(hdr[0], payload))
  }

  /** The bytes are enough to tell: a whole frame, or a header that announces too much. */
  predicate Settled(s: seq<Byte>) {
    Parse(s).Got? || Parse(s) == Failed(TooLarge)
  }

  lemma ParsedFits(s: seq<Byte>)
    ensures Parse(s).Got? ==> Fits(Parse(s).frame) && |Encode(Parse(s).frame)| <= |s|
  {}

  /** Every frame of a stream, and how it ends. */
  function ParseAll(s: seq<Byte>): (seq<Frame>, End)
    decreases |s|
  {
    match Parse(s)
    case Failed(e) => ([], e)
    case Got(f) =>
      ParsedFits(s);
      var (fs, e) := ParseAll(s[5 + |f.payload|..]);
      ([f] + fs, e)
  }

  lemma Taken<T>(a: seq<T>, b: seq<T>, cut: nat)
    requires cut <= |a + b|
    ensures cut <= |a| ==> (a + b)[..cut] == a[..cut]
    ensures cut >= |a| ==> (a + b)[..cut] == a + b[..cut - |a|]
    ensures (a + b)[|a|..] == b
  {}

  lemma HeaderParts(typ: Byte, size: seq<Byte>)
    ensures ([typ] + size)[0] == typ && ([typ] + size)[1..] == size
  {}

  lemma HeaderReads(f: Frame)
    requires Fits(f)
    ensures Header(f)[0] == f.typ && FromBe32(Header(f)[1..]) == |f.payload|
  {
    HeaderParts(f.typ, Be32(|f.payload|));
    Be32RoundTrip(|f.payload|);
  }

  lemma HeaderOf(f: Frame, s: seq<Byte>)
    requires Fits(f) && Header(f) <= s
    ensures s[..5][0] == f.typ && FromBe32(s[..5][1..]) == |f.payload|
  {
    HeaderReads(f);
    assert s[..5] == Header(f);
  }

  lemma ParseEncoded(f: Frame, rest: seq<Byte>)
    requires Fits(f)
    ensures Parse(Encode(f) + rest) == Got(f)
    ensures (Encode(f) + rest)[5 + |f.payload|..] == rest
  {
    var s := Encode(f) + rest;
    assert s == Header(f) + (f.payload + rest);
    HeaderOf(f, s);
    Taken(Header(f), f.payload + rest, 5);
    Taken(f.payload, rest, |f.payload|);
    Taken(Encode(f), rest, 0);
  }

  lemma ParseAllCons(f: Frame, rest: seq<Byte>)
    requires Fits(f)
    ensures ParseAll(Encode(f) + rest).0 == [f] + ParseAll(rest).0
    ensures ParseAll(Encode(f) + rest).1 == ParseAll(rest).1
  {
    ParseEncoded(f, rest);
  }

  lemma HeadAndRest<T>(s: seq<T>, more: seq<T>)
    requires s != []
    ensures [s[0]] + (s[1..] + more) == s + more
  {}

  lemma HeadAndMore<T>(s: seq<T>, n: nat)
    requires n < |s|
    ensures [s[0]] + s[1..][..n] == s[..n + 1]
  {}

  lemma {:induction false} ParseAllEncoded(fs: seq<Frame>, rest: seq<Byte>)
    requires AllFit(fs)
    ensures ParseAll(EncodeAll(fs) + rest).0 == fs + ParseAll(rest).0
    ensures ParseAll(EncodeAll(fs) + rest).1 == ParseAll(rest).1
  {
    if fs == [] {
      assert EncodeAll(fs) + rest == rest;
    } else {
      var tail := EncodeAll(fs[1..]) + rest;
      assert EncodeAll(fs) + rest == Encode(fs[0]) + tail;
      ParseAllCons(fs[0], tail);
      ParseAllEncoded(fs[1..], rest);
      var more := ParseAll(rest).0;
      assert ParseAll(EncodeAll(fs) + rest).0 == [fs[0]] + (fs[1..] + more);
      HeadAndRest(fs, more);
    }
  }

  /** Reading recovers precisely the frames written. */
  lemma FramesRoundTrip(fs: seq<Frame>)
    requires AllFit(fs)
    ensures ParseAll(EncodeAll(fs)) == (fs, Eof)
  {
    ParseAllEncoded(fs, []);
    assert EncodeAll(fs) + [] == EncodeAll(fs);
    assert ParseAll([]) == ([], Eof);
    assert fs + [] == fs;
  }

  // ----- A stream cut short -----

  /** How many whole frames the first cut bytes hold. */
  function WholeFrames(fs: seq<Frame>, cut: nat): (n: nat)
    ensures n <= |fs|
  {
    if fs == [] || cut < |Encode(fs[0])| then 0 else 1 + WholeFrames(fs[1..], cut - |Encode(fs[0])|)
  }

  /** The cut lies on a frame boundary, or right behind a header that announces a payload. */
  predicate QuietCut(fs: seq<Frame>, cut: nat) {
    if fs == [] then cut == 0
    else if cut < |Encode(fs[0])| then cut == 0 || cut == 5
    else QuietCut(fs[1..], cut - |Encode(fs[0])|)
  }

  lemma ParseCutFrame(f: Frame, s: seq<Byte>)
    requires Fits(f) && s <= Encode(f) && |s| < |Encode(f)|
    ensures Parse(s) == Failed(if |s| == 0 || |s| == 5 then Eof else UnexpectedEof)
  {
    if |s| >= 5 {
      Taken(Header(f), f.payload, 5);
      assert s[..5] == Encode(f)[..5];
      HeaderOf(f, s);
    }
  }

  /** A cut stream yields exactly its whole frames, and then EOF precisely at a quiet cut: a stream that
      ends between a header and its payload is not told apart from one that ends on a boundary. */
  lemma {:induction false} CutStream(fs: seq<Frame>, cut: nat)
    requires AllFit(fs) && cut <= |EncodeAll(fs)|
    ensures ParseAll(EncodeAll(fs)[..cut]) ==
            (fs[..WholeFrames(fs, cut)], if QuietCut(fs, cut) then Eof else UnexpectedEof)
  {
    if fs != [] {
      var first, later := Encode(fs[0]), EncodeAll(fs[1..]);
      Taken(first, later, cut);
      if cut < |first| {
        ParseCutFrame(fs[0], first[..cut]);
      } else {
        ParseAllCons(fs[0], later[..cut - |first|]);
        CutStream(fs[1..], cut - |first|);
        HeadAndMore(fs, WholeFrames(fs[1..], cut - |first|));
      }
    }
  }
}
