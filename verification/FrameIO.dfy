/** Reading and writing frames over a connection that splits reads and shortens writes as it likes. */
module FrameIO {

  import opened Common
  import opened Frames

  const NEWLINE: Byte := 10
  const MAX_REQUEST := 0x1_0000
  const READ_CHUNK := 4096

  function Flat(segments: seq<seq<Byte>>): seq<Byte> {
    if segments == [] then [] else segments[0] + Flat(segments[1..])
  }

  /** The receiving end: bytes kept from the request line, then what the connection delivers, one segment
      at a time. */
  class Reader {
    var rest: seq<Byte>
    var incoming: seq<seq<Byte>>
    /** The end of the connection reads as io.EOF, as on the host. On the guest's raw descriptor it reads as no
        bytes and no error, and a caller that wants more asks again for ever. */
    const reportsEof: bool

    constructor (incoming: seq<seq<Byte>>, reportsEof: bool)
      ensures this.rest == [] && this.incoming == incoming && this.reportsEof == reportsEof
    {
      this.rest, this.incoming, this.reportsEof := [], incoming, reportsEof;
    }

    predicate Valid()
      reads this
    {
      forall i :: 0 <= i < |incoming| ==> incoming[i] != []
    }

    /** Everything still to be read. */
    function Contents(): seq<Byte>
      reads this
    {
      rest + Flat(incoming)
    }

    /** fdReadWriter.Read: kept bytes first, then the connection. An empty result is the end. */
    method Read(max: nat) returns (p: seq<Byte>)
      requires Valid() && max > 0
      modifies this
      ensures Valid() && |p| <= max
      ensures old(Contents()) == p + Contents()
      ensures p == [] <==> old(Contents()) == []
      ensures old(rest) == [] ==> rest == []
    {
      if |rest| > 0 {
        var n := if max < |rest| then max else |rest|;
        p := rest[..n];
        rest := rest[n..];
        assert p + rest == old(rest);
      } else if incoming == [] {
        p := [];
      } else {
        var seg := incoming[0];
        var n := if max < |seg| then max else |seg|;
        p := seg[..n];
        assert seg == p + seg[n..];
        ghost var later := Flat(incoming[1..]);
        assert p + (seg[n..] + later) == seg + later;
        if n == |seg| {
          incoming := incoming[1..];
          assert p == seg;
        } else {
          incoming := [seg[n..]] + incoming[1..];
          assert incoming[1..] == old(incoming)[1..];
        }
      }
    }

    /** io.ReadFull: reads again until n bytes are there or nothing more comes. */
    method ReadFull(n: nat) returns (b: Block)
      requires Valid() && (reportsEof || n <= |Contents()|)
      modifies this
      ensures Valid() && b == FullBlock(old(Contents()), n)
      ensures b.Whole? ==> old(Contents()) == b.data + Contents()
    {
      var data := [];
      while |data| < n
        invariant Valid() && |data| <= n
        invariant old(Contents()) == data + Contents()
        decreases n - |data|
      {
        var p := Read(n - |data|);
        if p == [] {
          assert old(Contents()) == data;
          return Short(if data == [] then Eof else UnexpectedEof);
        }
        ghost var tail := Contents();
        assert data + (p + tail) == (data + p) + tail;
        data := data + p;
      }
      return Whole(data);
    }

    /** ReadFrame: a header, then as many payload bytes as it announces. */
    method ReadFrame() returns (r: Parsed)
      requires Valid() && (reportsEof || Settled(Contents()))
      modifies this
      ensures Valid() && r == Parse(old(Contents()))
      ensures r.Got? ==> Fits(r.frame) && old(Contents())[5 + |r.frame.payload|..] == Contents()
    {
      var hdr := ReadFull(5);
      if hdr.Short? { return Failed(hdr.end); }
      var n := FromBe32(hdr.data[1..]);
      if n > MAX_PAYLOAD { return Failed(TooLarge); }
      if n == 0 { return Got(Frame(hdr.data[0], [])); }
      assert old(Contents())[5..] == Contents();
      var payload := ReadFull(n);
      if payload.Short? { return Failed(payload.end); }
      return Got(Frame(hdr.data[0], payload.data));
    }

    /** Whole frames are read back whatever the end of the connection looks like, and only their bytes are. */
    method ReadFrames(n: nat, ghost fs: seq<Frame>, ghost tail: seq<Byte>) returns (out: seq<Frame>)
      requires Valid() && n == |fs| && AllFit(fs) && Contents() == EncodeAll(fs) + tail
      modifies this
      ensures Valid() && out == fs && Contents() == tail
    {
      out := [];
      ghost var left := fs;
      for i := 0 to n
        invariant Valid() && i + |left| == n && AllFit(left) && out + left == fs
        invariant Contents() == EncodeAll(left) + tail
      {
        ghost var more := EncodeAll(left[1..]) + tail;
        JoinAgain(Encode(left[0]), EncodeAll(left[1..]), tail);
        ParseEncoded(left[0], more);
        var r := ReadFrame();
        out := out + [r.frame];
        left := left[1..];
      }
      assert EncodeAll([]) + tail == tail;
    }

    /** readRequestLine: the request up to its newline, and the bytes read past it; without a newline, all
        that was read. A newline within the limit is found however the reads split the stream. */
    method ReadRequestLine() returns (line: seq<Byte>, past: seq<Byte>)
      requires Valid() && rest == []
      modifies this
      ensures Valid() && rest == []
      ensures SplitAtNewline(old(Contents()), line, past + Contents())
              || (past == [] && NEWLINE !in line && old(Contents()) == line + Contents())
      ensures NEWLINE in WithinLimit(old(Contents())) ==> SplitAtNewline(old(Contents()), line, past + Contents())
    {
      var buf := [];
      while |buf| < MAX_REQUEST
        invariant Valid() && rest == []
        invariant old(Contents()) == buf + Contents()
        invariant NEWLINE !in buf
        decreases |Contents()|
      {
        var tmp := Read(READ_CHUNK);
        JoinAgain(buf, tmp, Contents());
        buf := buf + tmp;
        if NEWLINE in buf {
          var i := IndexOfNewline(buf);
          SplitKeeps(buf, i, Contents());
          return buf[..i], buf[i + 1..];
        }
        if tmp == [] { break; }
      }
      NotWithin(buf, Contents());
      line, past := buf, [];
    }

    /** serve's hand-over: the bytes read past the request line are replayed before the connection's own,
        so the frame stream starts exactly behind the newline. */
    method Serve() returns (line: seq<Byte>)
      requires Valid() && rest == []
      modifies this
      ensures Valid()
      ensures NEWLINE in WithinLimit(old(Contents())) ==> SplitAtNewline(old(Contents()), line, Contents())
    {
      var past;
      line, past := ReadRequestLine();
      rest := past;
    }
  }

  predicate SplitAtNewline(s: seq<Byte>, line: seq<Byte>, after: seq<Byte>) {
    NEWLINE !in line && s == line + [NEWLINE] + after
  }

  function WithinLimit(s: seq<Byte>): seq<Byte> {
    if |s| <= MAX_REQUEST then s else s[..MAX_REQUEST]
  }

  lemma JoinAgain(a: seq<Byte>, b: seq<Byte>, c: seq<Byte>)
    ensures a + (b + c) == (a + b) + c
  {}

  lemma SplitKeeps(buf: seq<Byte>, i: nat, tail: seq<Byte>)
    requires i < |buf| && buf[i] == NEWLINE && NEWLINE !in buf[..i]
    ensures SplitAtNewline(buf + tail, buf[..i], buf[i + 1..] + tail)
  {
    assert buf == buf[..i] + [NEWLINE] + buf[i + 1..];
  }

  lemma NotWithin(buf: seq<Byte>, tail: seq<Byte>)
    requires NEWLINE !in buf && (|buf| >= MAX_REQUEST || tail == [])
    ensures NEWLINE !in WithinLimit(buf + tail)
  {
    if |buf| >= MAX_REQUEST { assert WithinLimit(buf + tail) == buf[..MAX_REQUEST]; }
  }

  /** A request line followed by frames: the guest gets the line, and then exactly those frames. */
  lemma RequestThenFrames(line: seq<Byte>, fs: seq<Frame>, got: seq<Byte>, after: seq<Byte>)
    requires AllFit(fs) && NEWLINE !in line
    requires SplitAtNewline(line + [NEWLINE] + EncodeAll(fs), got, after)
    ensures got == line && ParseAll(after) == (fs, Eof)
  {
    var s := line + [NEWLINE] + EncodeAll(fs);
    assert s[|line|] == NEWLINE && s[|got|] == NEWLINE;
    assert s[..|line|] == line && s[..|got|] == got;
    assert |line| == |got|;
    assert s[|line| + 1..] == EncodeAll(fs) && s[|got| + 1..] == after;
    FramesRoundTrip(fs);
  }

  method IndexOfNewline(s: seq<Byte>) returns (i: nat)
    requires NEWLINE in s
    ensures i < |s| && s[i] == NEWLINE && NEWLINE !in s[..i]
  {
    i := 0;
    while s[i] != NEWLINE
      invariant i < |s| && NEWLINE in s[i..]
      invariant NEWLINE !in s[..i]
      decreases |s| - i
    {
      assert s[i..] == [s[i]] + s[i + 1..];
      assert s[..i + 1] == s[..i] + [s[i]];
      i := i + 1;
    }
  }

  /** Sending part of the first of two pieces keeps to their order; sending all of it leaves the second. */
  lemma PartSent(before: seq<Byte>, first: seq<Byte>, second: seq<Byte>, n: nat)
    requires n <= |first|
    ensures before <= before + first[..n] <= before + (first + second)
    ensures n == |first| ==> first[..n] == first
    ensures before + first + second == before + (first + second)
  {
    assert (before + (first + second))[..|before| + n] == before + first[..n];
  }

  /** The sending end over a raw descriptor that may accept only part of what it is given. */
  class Writer {
    var sent: seq<Byte>
    /** No write fails, though each may still be short. */
    const reliable: bool

    constructor (reliable: bool)
      ensures sent == [] && this.reliable == reliable
    {
      sent, this.reliable := [], reliable;
    }

    /** One write system call. */
    method SysWrite(p: seq<Byte>) returns (n: nat, failed: bool)
      modifies this
      ensures n <= |p| && sent == old(sent) + p[..n]
      ensures reliable ==> !failed && (p != [] ==> n > 0)
    {
      failed :| reliable ==> !failed;
      n := |p|;
      var short: bool :| true;
      if short && p != [] { n :| (if reliable then 1 else 0) <= n <= |p|; }
      sent := sent + p[..n];
    }

    /** fdWriter.Write: keeps writing what is left until all of it is out or a write fails. */
    method Write(p: seq<Byte>) returns (total: nat, failed: bool)
      modifies this
      ensures total <= |p| && sent == old(sent) + p[..total]
      ensures !failed ==> total == |p|
      ensures reliable ==> !failed
    {
      total := 0;
      while total < |p|
        invariant total <= |p| && sent == old(sent) + p[..total]
      {
        var n, err := SysWrite(p[total..]);
        assert p[..total] + p[total..][..n] == p[..total + n];
        total := total + n;
        if err { return total, true; }
        if n == 0 { return total, true; }
      }
      return total, false;
    }

    /** WriteFrame: the header, then the payload; an oversized payload is refused before any byte. */
    method WriteFrame(f: Frame) returns (failed: bool)
      modifies this
      ensures !Fits(f) ==> failed && sent == old(sent)
      ensures !failed ==> sent == old(sent) + Encode(f)
      ensures old(sent) <= sent <= old(sent) + Encode(f)
      ensures reliable && Fits(f) ==> !failed
    {
      if |f.payload| > MAX_PAYLOAD { return true; }
      var hdr := Header(f);
      var n, err := Write(hdr);
      PartSent(old(sent), hdr, f.payload, n);
      if err { return true; }
      if |f.payload| > 0 {
        var m, perr := Write(f.payload);
        PartSent(old(sent) + hdr, f.payload, [], m);
        if perr { return true; }
      }
      return false;
    }
  }
}
