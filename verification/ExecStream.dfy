/** A streamed command: two pumps and the exit step share one connection under a lock
    (cmd/kubeswift-guest-agent/stream.go), and the host takes the stream apart again (cmd/swiftctl/sandbox.go). */
module ExecStream {

  import opened Common
  import opened Frames
  import opened FrameIO

  const PUMP_BUFFER := 0x8000

  // ----- The host: splitting the stream -----

  datatype Verdict = Exited(code: int) | ReadError(end: End)

  datatype HostView = HostView(out: seq<Byte>, err: seq<Byte>, verdict: Verdict)

  function Shown(f: Frame, typ: Byte): seq<Byte> {
    if f.typ == typ then f.payload else []
  }

  /** The payloads of one frame type, joined in order. */
  function Bytes(fs: seq<Frame>, typ: Byte): seq<Byte> {
    if fs == [] then [] else Bytes(fs[..|fs| - 1], typ) + Shown(fs[|fs| - 1], typ)
  }

  predicate NoExit(fs: seq<Frame>) {
    forall i :: 0 <= i < |fs| ==> fs[i].typ != EXIT
  }

  function Prepend(out: seq<Byte>, err: seq<Byte>, v: HostView): HostView {
    HostView(out + v.out, err + v.err, v.verdict)
  }

  /** What the host shows for a sequence of frames: it stops at the first Exit frame, and takes a stream
      that just ends as exit code 0. */
  function Demux(fs: seq<Frame>, end: End): HostView {
    if fs == [] then HostView([], [], if end.Eof? then Exited(0) else ReadError(end))
    else if fs[0].typ == EXIT then HostView([], [], Exited(DecodeExitCode(fs[0].payload)))
    else Prepend(Shown(fs[0], STDOUT), Shown(fs[0], STDERR), Demux(fs[1..], end))
  }

  function DemuxStream(s: seq<Byte>): HostView {
    Demux(ParseAll(s).0, ParseAll(s).1)
  }

  lemma DemuxFrame(s: seq<Byte>, f: Frame)
    requires Parse(s) == Got(f)
    ensures 5 + |f.payload| <= |s|
    ensures DemuxStream(s) ==
            if f.typ == EXIT then HostView([], [], Exited(DecodeExitCode(f.payload)))
            else Prepend(Shown(f, STDOUT), Shown(f, STDERR), DemuxStream(s[5 + |f.payload|..]))
  {
    ParsedFits(s);
    var rest := ParseAll(s[5 + |f.payload|..]);
    assert ParseAll(s).0 == [f] + rest.0;
    assert ([f] + rest.0)[1..] == rest.0;
  }

  lemma PrependTwice(a: seq<Byte>, b: seq<Byte>, c: seq<Byte>, d: seq<Byte>, v: HostView)
    ensures Prepend(a, b, Prepend(c, d, v)) == Prepend(a + c, b + d, v)
  {
    JoinAgain(a, c, v.out);
    JoinAgain(b, d, v.err);
  }

  /** One frame moves its payload from the stream to one of the outputs, or to none. */
  lemma HostStep(out: seq<Byte>, err: seq<Byte>, s: seq<Byte>, f: Frame)
    requires Parse(s) == Got(f)
    ensures 5 + |f.payload| <= |s|
    ensures Prepend(out, err, DemuxStream(s)) ==
            if f.typ == EXIT then HostView(out, err, Exited(DecodeExitCode(f.payload)))
            else Prepend(if f.typ == STDOUT then out + f.payload else out,
                         if f.typ == STDERR then err + f.payload else err,
                         DemuxStream(s[5 + |f.payload|..]))
  {
    DemuxFrame(s, f);
    assert out + [] == out && err + [] == err;
    if f.typ != EXIT {
      PrependTwice(out, err, Shown(f, STDOUT), Shown(f, STDERR), DemuxStream(s[5 + |f.payload|..]));
    }
  }

  lemma HostEnds(out: seq<Byte>, err: seq<Byte>, s: seq<Byte>, end: End)
    requires Parse(s) == Failed(end)
    ensures Prepend(out, err, DemuxStream(s)) == HostView(out, err, if end.Eof? then Exited(0) else ReadError(end))
  {
    assert out + [] == out && err + [] == err;
  }

  /** agentExecStream's loop. */
  method HostLoop(r: Reader) returns (v: HostView)
    requires r.Valid() && r.reportsEof
    modifies r
    ensures v == DemuxStream(old(r.Contents()))
  {
    ghost var all := DemuxStream(r.Contents());
    var out, err: seq<Byte> := [], [];
    assert [] + all.out == all.out && [] + all.err == all.err;
    while true
      invariant r.Valid()
      invariant Prepend(out, err, DemuxStream(r.Contents())) == all
      decreases |r.Contents()|
    {
      ghost var before := r.Contents();
      var p := r.ReadFrame();
      if p.Failed? {
        HostEnds(out, err, before, p.end);
        return HostView(out, err, if p.end.Eof? then Exited(0) else ReadError(p.end));
      }
      var f := p.frame;
      HostStep(out, err, before, f);
      if f.typ == STDOUT {
        out := out + f.payload;
      } else if f.typ == STDERR {
        err := err + f.payload;
      } else if f.typ == EXIT {
        return HostView(out, err, Exited(DecodeExitCode(f.payload)));
      }
    }
  }

  /** A stream cut behind a header that announces five bytes of stdout: the host reports success. */
  lemma HeaderCutExample()
    ensures DemuxStream([STDOUT, 0, 0, 0, 5]) == HostView([], [], Exited(0))
  {
    var s: seq<Byte> := [STDOUT, 0, 0, 0, 5];
    assert s[..5] == s && s[1..] == [0, 0, 0, 5] && s[5..] == [];
    assert Parse(s) == Failed(Eof);
  }

  lemma {:induction false} BytesConcat(a: seq<Frame>, b: seq<Frame>, typ: Byte)
    ensures Bytes(a + b, typ) == Bytes(a, typ) + Bytes(b, typ)
  {
    if b == [] {
      assert a + b == a;
    } else {
      assert (a + b)[..|a + b| - 1] == a + b[..|b| - 1];
      BytesConcat(a, b[..|b| - 1], typ);
      JoinAgain(Bytes(a, typ), Bytes(b[..|b| - 1], typ), Shown(b[|b| - 1], typ));
    }
  }

  lemma BytesOne(f: Frame, typ: Byte)
    ensures Bytes([f], typ) == Shown(f, typ)
  {
    assert [f][..0] == [];
  }

  lemma {:induction false} DemuxBytes(fs: seq<Frame>, code: seq<Byte>, end: End)
    requires NoExit(fs)
    ensures Demux(fs + [Frame(EXIT, code)], end) ==
            HostView(Bytes(fs, STDOUT), Bytes(fs, STDERR), Exited(DecodeExitCode(code)))
  {
    var all := fs + [Frame(EXIT, code)];
    if fs != [] {
      assert all[1..] == fs[1..] + [Frame(EXIT, code)];
      DemuxBytes(fs[1..], code, end);
      BytesFirst(fs, STDOUT);
      BytesFirst(fs, STDERR);
    }
  }

  lemma BytesFirst(fs: seq<Frame>, typ: Byte)
    requires fs != []
    ensures Bytes(fs, typ) == Shown(fs[0], typ) + Bytes(fs[1..], typ)
  {
    assert fs == [fs[0]] + fs[1..];
    BytesConcat([fs[0]], fs[1..], typ);
    BytesOne(fs[0], typ);
  }

  // ----- The guest: pumps over a shared connection -----

  datatype Who = Out | Err | Main

  /** Waiting for the lock with a frame in hand; writing it under the lock, left being the part not out. */
  datatype Pc = Ready | Waiting(frame: Frame) | Writing(frame: Frame, left: seq<Byte>) | Finished

  /** A pump has source bytes to read; the main goroutine has frames to send once both pumps are done. */
  datatype Thread = Thread(source: seq<Byte>, epilogue: seq<Frame>, pc: Pc)

  datatype Mutex = Free | Held(holder: Who)

  /** wire is what reached the connection; frames is the history of completed frame writes. */
  datatype Guest = Guest(out: Thread, err: Thread, main: Thread, mutex: Mutex, wire: seq<Byte>, frames: seq<Frame>)
  {
    function Of(w: Who): Thread {
      match w case Out => out case Err => err case Main => main
    }

    function With(w: Who, t: Thread): Guest {
      match w case Out => this.(out := t) case Err => this.(err := t) case Main => this.(main := t)
    }

    predicate PumpsDone() {
      out.pc.Finished? && err.pc.Finished?
    }
  }

  datatype Act =
    | Take(who: Who, n: nat)   // a pump reads n bytes from its pipe, or main takes its next frame
    | Lock(who: Who)
    | Put(who: Who, n: nat)    // one short write of n bytes
    | Unlock(who: Who)
    | Finish(who: Who)

  /** How the command ended: cmd.Wait's exit code, or a wait failure reported on stderr with code 255. */
  datatype Outcome = Code(code: int) | WaitFailed(message: seq<Byte>)

  function Epilogue(o: Outcome): seq<Frame> {
    match o
    case Code(c) => [Frame(EXIT, ExitCode(c))]
    case WaitFailed(m) => [Frame(STDERR, m), Frame(EXIT, ExitCode(255))]
  }

  function Init(stdout: seq<Byte>, stderr: seq<Byte>, o: Outcome): Guest {
    Guest(Thread(stdout, [], Ready), Thread(stderr, [], Ready), Thread([], Epilogue(o), Ready), Free, [], [])
  }

  function TypeOf(w: Who): Byte {
    if w.Out? then STDOUT else STDERR
  }

  predicate Enabled(g: Guest, a: Act) {
    var t := g.Of(a.who);
    match a
    case Take(w, n) =>
      t.pc.Ready? && (if w.Main? then g.PumpsDone() && t.epilogue != [] else 0 < n <= |t.source| && n <= PUMP_BUFFER)
    case Lock(w) => t.pc.Waiting? && g.mutex.Free?
    case Put(w, n) => t.pc.Writing? && 0 < n <= |t.pc.left|
    case Unlock(w) => t.pc.Writing? && t.pc.left == []
    case Finish(w) => t.pc.Ready? && t.source == [] && t.epilogue == [] && (w.Main? ==> g.PumpsDone())
  }

  function Next(g: Guest, a: Act): Guest
    requires Enabled(g, a)
  {
    var w := a.who;
    var t := g.Of(w);
    match a
    case Take(_, n) =>
      if w.Main? then g.With(w, t.(epilogue := t.epilogue[1..], pc := Waiting(t.epilogue[0])))
      else g.With(w, t.(source := t.source[n..], pc := Waiting(Frame(TypeOf(w), t.source[..n]))))
    case Lock(_) => g.With(w, t.(pc := Writing(t.pc.frame, Encode(t.pc.frame)))).(mutex := Held(w))
    case Put(_, n) => g.With(w, t.(pc := Writing(t.pc.frame, t.pc.left[n..]))).(wire := g.wire + t.pc.left[..n])
    case Unlock(_) => g.With(w, t.(pc := Ready)).(mutex := Free, frames := g.frames + [t.pc.frame])
    case Finish(_) => g.With(w, t.(pc := Finished))
  }

  predicate IsRun(gs: seq<Guest>, acts: seq<Act>) {
    && |gs| == |acts| + 1
    && forall i :: 0 <= i < |acts| ==> Enabled(gs[i], acts[i]) && gs[i + 1] == Next(gs[i], acts[i])
  }

  predicate AllDone(g: Guest) {
    g.PumpsDone() && g.main.pc.Finished?
  }

  // ----- Invariant -----

  predicate InHand(t: Thread) {
    t.pc.Waiting? || t.pc.Writing?
  }

  /** The connection holds whole frames, and behind them the part already out of the frame under the lock. */
  predicate WireOk(g: Guest) {
    && (forall w :: g.Of(w).pc.Writing? <==> g.mutex == Held(w))
    && match g.mutex
       case Free => g.wire == EncodeAll(g.frames)
       case Held(w) => g.Of(w).pc.Writing? ==> PartlyOut(g.wire, g.frames, g.Of(w).pc.frame, g.Of(w).pc.left)
  }

  /** All of frame but left follows the frames on the wire. */
  predicate PartlyOut(wire: seq<Byte>, frames: seq<Frame>, frame: Frame, left: seq<Byte>) {
    |left| <= |Encode(frame)| && wire + left == EncodeAll(frames) + Encode(frame)
  }

  lemma PutOut(wire: seq<Byte>, frames: seq<Frame>, frame: Frame, left: seq<Byte>, n: nat)
    requires PartlyOut(wire, frames, frame, left) && n <= |left|
    ensures PartlyOut(wire + left[..n], frames, frame, left[n..])
  {
    assert left == left[..n] + left[n..];
    JoinAgain(wire, left[..n], left[n..]);
  }

  lemma AllOut(wire: seq<Byte>, frames: seq<Frame>, frame: Frame)
    requires PartlyOut(wire, frames, frame, [])
    ensures wire == EncodeAll(frames + [frame])
  {
    EncodeAllGrows(frames, frame);
    assert wire + [] == wire;
  }

  predicate FramesFit(g: Guest) {
    AllFit(g.frames) && AllFit(g.main.epilogue) && forall w :: InHand(g.Of(w)) ==> Fits(g.Of(w).pc.frame)
  }

  function Pending(t: Thread): seq<Byte> {
    (if InHand(t) then t.pc.frame.payload else []) + t.source
  }

  /** The frames written so far are body, from the pumps, and then the first `sent` closing frames. */
  datatype Split = Split(body: seq<Frame>, sent: nat)

  /** Each pump: what was framed, what is in hand and what is still in the pipe make up the command's output. */
  predicate PumpOk(t: Thread, typ: Byte, source: seq<Byte>, body: seq<Frame>) {
    && Bytes(body, typ) + Pending(t) == source
    && (InHand(t) ==> t.pc.frame.typ == typ)
    && (t.pc.Finished? ==> t.source == [])
    && t.epilogue == []
  }

  /** The closing frames go out in order, after both pumps. */
  predicate MainOk(g: Guest, closing: seq<Frame>, sp: Split) {
    var t := g.main;
    && sp.sent <= |closing| && t.source == []
    && (if InHand(t) then sp.sent < |closing| && t.pc.frame == closing[sp.sent] && t.epilogue == closing[sp.sent + 1..]
        else t.epilogue == closing[sp.sent..])
    && (sp.sent > 0 || InHand(t) || t.pc.Finished? ==> g.PumpsDone())
    && (t.pc.Finished? ==> t.epilogue == [])
  }

  predicate SplitOk(g: Guest, closing: seq<Frame>, sp: Split) {
    sp.sent <= |closing| && g.frames == sp.body + closing[..sp.sent] && NoExit(sp.body)
  }

  predicate Inv(g: Guest, stdout: seq<Byte>, stderr: seq<Byte>, closing: seq<Frame>, sp: Split) {
    && WireOk(g) && FramesFit(g) && MainOk(g, closing, sp) && SplitOk(g, closing, sp)
    && PumpOk(g.out, STDOUT, stdout, sp.body) && PumpOk(g.err, STDERR, stderr, sp.body)
  }

  function SplitAfter(g: Guest, a: Act, sp: Split): Split
    requires Enabled(g, a)
  {
    if !a.Unlock? then sp
    else if a.who.Main? then sp.(sent := sp.sent + 1)
    else sp.(body := sp.body + [g.Of(a.who).pc.frame])
  }

  lemma EncodeAllGrows(fs: seq<Frame>, f: Frame)
    ensures EncodeAll(fs + [f]) == EncodeAll(fs) + Encode(f)
  {
    EncodeAllConcat(fs, [f]);
    assert [f][1..] == [];
    assert EncodeAll([f]) == Encode(f);
  }

  lemma BytesGrows(fs: seq<Frame>, f: Frame, typ: Byte)
    ensures Bytes(fs + [f], typ) == Bytes(fs, typ) + Shown(f, typ)
  {
    BytesConcat(fs, [f], typ);
    BytesOne(f, typ);
  }

  lemma WireStep(g: Guest, a: Act)
    requires WireOk(g) && Enabled(g, a)
    ensures WireOk(Next(g, a))
  {
    var h, pc := Next(g, a), g.Of(a.who).pc;
    forall w ensures h.Of(w).pc.Writing? <==> h.mutex == Held(w) {
      assert g.Of(w).pc.Writing? <==> g.mutex == Held(w);
      assert w != a.who ==> h.Of(w) == g.Of(w);
    }
    if a.Put? {
      PutOut(g.wire, g.frames, pc.frame, pc.left, a.n);
    } else if a.Unlock? {
      AllOut(g.wire, g.frames, pc.frame);
    }
  }

  lemma FitStep(g: Guest, a: Act)
    requires FramesFit(g) && Enabled(g, a)
    ensures FramesFit(Next(g, a))
  {
    var h := Next(g, a);
    forall w | InHand(h.Of(w)) ensures Fits(h.Of(w).pc.frame) {
      if w != a.who { assert h.Of(w) == g.Of(w); }
    }
  }

  lemma PumpTakes(t: Thread, typ: Byte, source: seq<Byte>, body: seq<Frame>, n: nat)
    requires PumpOk(t, typ, source, body) && t.pc.Ready? && n <= |t.source|
    ensures PumpOk(t.(source := t.source[n..], pc := Waiting(Frame(typ, t.source[..n]))), typ, source, body)
  {
    assert t.source == t.source[..n] + t.source[n..];
    assert [] + t.source == t.source;
  }

  lemma PumpSends(t: Thread, typ: Byte, source: seq<Byte>, body: seq<Frame>)
    requires PumpOk(t, typ, source, body) && t.pc.Writing?
    ensures PumpOk(t.(pc := Ready), typ, source, body + [t.pc.frame])
  {
    BytesGrows(body, t.pc.frame, typ);
    JoinAgain(Bytes(body, typ), t.pc.frame.payload, t.source);
    assert [] + t.source == t.source;
  }

  lemma OtherPumpSends(t: Thread, typ: Byte, source: seq<Byte>, body: seq<Frame>, f: Frame)
    requires PumpOk(t, typ, source, body) && f.typ != typ
    ensures PumpOk(t, typ, source, body + [f])
  {
    BytesGrows(body, f, typ);
    assert Bytes(body, typ) + [] == Bytes(body, typ);
  }

  lemma PumpsStep(g: Guest, a: Act, stdout: seq<Byte>, stderr: seq<Byte>, sp: Split)
    requires PumpOk(g.out, STDOUT, stdout, sp.body) && PumpOk(g.err, STDERR, stderr, sp.body) && Enabled(g, a)
    ensures var h, sp' := Next(g, a), SplitAfter(g, a, sp);
            PumpOk(h.out, STDOUT, stdout, sp'.body) && PumpOk(h.err, STDERR, stderr, sp'.body)
  {
    match a {
      case Take(Out, n) => PumpTakes(g.out, STDOUT, stdout, sp.body, n);
      case Take(Err, n) => PumpTakes(g.err, STDERR, stderr, sp.body, n);
      case Unlock(Out) =>
        PumpSends(g.out, STDOUT, stdout, sp.body);
        OtherPumpSends(g.err, STDERR, stderr, sp.body, g.out.pc.frame);
      case Unlock(Err) =>
        PumpSends(g.err, STDERR, stderr, sp.body);
        OtherPumpSends(g.out, STDOUT, stdout, sp.body, g.err.pc.frame);
      case _ =>
    }
  }

  lemma MainStep(g: Guest, a: Act, closing: seq<Frame>, sp: Split)
    requires MainOk(g, closing, sp) && Enabled(g, a)
    ensures MainOk(Next(g, a), closing, SplitAfter(g, a, sp))
  {
    if a.Take? && a.who.Main? {
      assert closing[sp.sent..][1..] == closing[sp.sent + 1..];
    }
  }

  lemma SplitStep(g: Guest, a: Act, closing: seq<Frame>, sp: Split)
    requires MainOk(g, closing, sp) && SplitOk(g, closing, sp) && Enabled(g, a)
    requires !a.who.Main? && InHand(g.Of(a.who)) ==> g.Of(a.who).pc.frame.typ == TypeOf(a.who)
    ensures SplitOk(Next(g, a), closing, SplitAfter(g, a, sp))
  {
    if a.Unlock? {
      var f := g.Of(a.who).pc.frame;
      if a.who.Main? {
        assert closing[..sp.sent + 1] == closing[..sp.sent] + [f];
      } else {
        assert sp.sent == 0;
      }
    }
  }

  lemma InvStep(g: Guest, a: Act, stdout: seq<Byte>, stderr: seq<Byte>, closing: seq<Frame>, sp: Split)
    requires Inv(g, stdout, stderr, closing, sp) && Enabled(g, a)
    ensures Inv(Next(g, a), stdout, stderr, closing, SplitAfter(g, a, sp))
  {
    WireStep(g, a);
    FitStep(g, a);
    MainStep(g, a, closing, sp);
    SplitStep(g, a, closing, sp);
    PumpsStep(g, a, stdout, stderr, sp);
  }

  predicate Reportable(o: Outcome) {
    o.WaitFailed? ==> |o.message| <= MAX_PAYLOAD
  }

  lemma {:induction false} RunInv(gs: seq<Guest>, acts: seq<Act>, stdout: seq<Byte>, stderr: seq<Byte>, o: Outcome)
    returns (sp: Split)
    requires Reportable(o) && IsRun(gs, acts) && gs[0] == Init(stdout, stderr, o)
    ensures Inv(gs[|acts|], stdout, stderr, Epilogue(o), sp)
  {
    if acts == [] {
      sp := Split([], 0);
      InitInv(stdout, stderr, o);
    } else {
      var last := |acts| - 1;
      sp := RunInv(gs[..|acts|], acts[..last], stdout, stderr, o);
      InvStep(gs[last], acts[last], stdout, stderr, Epilogue(o), sp);
      sp := SplitAfter(gs[last], acts[last], sp);
    }
  }

  lemma InitInv(stdout: seq<Byte>, stderr: seq<Byte>, o: Outcome)
    requires Reportable(o)
    ensures Inv(Init(stdout, stderr, o), stdout, stderr, Epilogue(o), Split([], 0))
  {
    assert [] + ([] + stdout) == stdout && [] + ([] + stderr) == stderr;
  }

  // ----- Main results -----

  /** The body and the frames before the final Exit frame. */
  lemma ClosingFrames(o: Outcome) returns (before: seq<Frame>, exit: Frame)
    ensures Epilogue(o) == before + [exit] && NoExit(before) && exit.typ == EXIT
    ensures exit.payload == ExitCode(if o.Code? then o.code else 255)
    ensures Bytes(before, STDOUT) == [] && Bytes(before, STDERR) == if o.WaitFailed? then o.message else []
  {
    match o {
      case Code(c) =>
        before, exit := [], Frame(EXIT, ExitCode(c));
      case WaitFailed(m) =>
        before, exit := [Frame(STDERR, m)], Frame(EXIT, ExitCode(255));
        BytesOne(before[0], STDOUT);
        BytesOne(before[0], STDERR);
    }
  }

  function Expected(stdout: seq<Byte>, stderr: seq<Byte>, o: Outcome): HostView {
    HostView(stdout, stderr + (if o.WaitFailed? then o.message else []),
             Exited(DecodeExitCode(ExitCode(if o.Code? then o.code else 255))))
  }

  lemma DoneFrames(g: Guest, stdout: seq<Byte>, stderr: seq<Byte>, o: Outcome, sp: Split)
    requires Inv(g, stdout, stderr, Epilogue(o), sp) && AllDone(g)
    ensures g.wire == EncodeAll(g.frames) && AllFit(g.frames)
    ensures g.frames == sp.body + Epilogue(o) && NoExit(sp.body)
    ensures Bytes(sp.body, STDOUT) == stdout && Bytes(sp.body, STDERR) == stderr
  {
    assert g.mutex.Held? ==> g.Of(g.mutex.holder).pc.Writing?;
    assert Epilogue(o)[..sp.sent] == Epilogue(o);
    PumpDone(g.out, STDOUT, stdout, sp.body);
    PumpDone(g.err, STDERR, stderr, sp.body);
  }

  /** For every interleaving and every split into short writes, a finished run leaves the host with the
      command's output byte for byte and its int32 exit code, and one Exit frame follows all output. */
  lemma HostSeesTheCommand(gs: seq<Guest>, acts: seq<Act>, stdout: seq<Byte>, stderr: seq<Byte>, o: Outcome)
    requires Reportable(o) && IsRun(gs, acts) && gs[0] == Init(stdout, stderr, o) && AllDone(gs[|acts|])
    ensures ParseAll(gs[|acts|].wire) == (gs[|acts|].frames, Eof)
    ensures var fs := gs[|acts|].frames; fs != [] && fs[|fs| - 1].typ == EXIT && NoExit(fs[..|fs| - 1])
    ensures DemuxStream(gs[|acts|].wire) == Expected(stdout, stderr, o)
  {
    var sp := RunInv(gs, acts, stdout, stderr, o);
    DoneFrames(gs[|acts|], stdout, stderr, o, sp);
    FramesRoundTrip(gs[|acts|].frames);
    BodyThenClosing(sp.body, o);
  }

  lemma PumpDone(t: Thread, typ: Byte, source: seq<Byte>, body: seq<Frame>)
    requires PumpOk(t, typ, source, body) && t.pc.Finished?
    ensures Bytes(body, typ) == source
  {
    assert Pending(t) == [];
    assert Bytes(body, typ) + [] == Bytes(body, typ);
  }

  lemma BodyThenClosing(body: seq<Frame>, o: Outcome)
    requires NoExit(body)
    ensures var fs := body + Epilogue(o);
            && fs != [] && fs[|fs| - 1].typ == EXIT && NoExit(fs[..|fs| - 1])
            && Demux(fs, Eof) == Expected(Bytes(body, STDOUT), Bytes(body, STDERR), o)
  {
    var before, exit := ClosingFrames(o);
    JoinFrames(body, before, exit);
    BytesConcat(body, before, STDOUT);
    BytesConcat(body, before, STDERR);
    DemuxBytes(body + before, exit.payload, Eof);
    assert Bytes(body, STDOUT) + [] == Bytes(body, STDOUT);
  }

  lemma JoinFrames(body: seq<Frame>, before: seq<Frame>, exit: Frame)
    requires NoExit(body) && NoExit(before)
    ensures body + (before + [exit]) == (body + before) + [exit]
    ensures NoExit(body + before) && ((body + before) + [exit])[..|body + before|] == body + before
  {}

  lemma PartOnWire(g: Guest)
    requires WireOk(g) && FramesFit(g) && MidFrame(g)
    ensures ParseAll(g.wire).0 == g.frames
  {
    var part := [];
    if g.mutex.Held? {
      var pc := g.Of(g.mutex.holder).pc;
      var whole := EncodeAll(g.frames) + Encode(pc.frame);
      part := g.wire[|EncodeAll(g.frames)|..];
      assert g.wire == whole[..|g.wire|];
      assert part == Encode(pc.frame)[..|part|];
      ParseCutFrame(pc.frame, part);
    }
    assert g.wire == EncodeAll(g.frames) + part;
    ParseAllEncoded(g.frames, part);
    assert ParseAll(part).0 == [];
    assert g.frames + [] == g.frames;
  }

  /** The closing frames show nothing on stdout and at most the failure message on stderr. */
  lemma ClosingShows(o: Outcome, k: nat)
    requires k <= |Epilogue(o)|
    ensures Bytes(Epilogue(o)[..k], STDOUT) == []
    ensures Bytes(Epilogue(o)[..k], STDERR) <= (if o.WaitFailed? then o.message else [])
  {
    var before, exit := ClosingFrames(o);
    var closing := Epilogue(o)[..k];
    if k <= |before| {
      assert before == closing + before[k..];
      BytesConcat(closing, before[k..], STDOUT);
      BytesConcat(closing, before[k..], STDERR);
    } else {
      assert closing == before + [exit];
      BytesGrows(before, exit, STDOUT);
      BytesGrows(before, exit, STDERR);
    }
  }

  lemma FramedIsPrefix(g: Guest, stdout: seq<Byte>, stderr: seq<Byte>, o: Outcome, sp: Split)
    requires Inv(g, stdout, stderr, Epilogue(o), sp)
    ensures Bytes(g.frames, STDOUT) <= stdout
    ensures Bytes(g.frames, STDERR) <= stderr + (if o.WaitFailed? then o.message else [])
  {
    var closing := Epilogue(o)[..sp.sent];
    BytesConcat(sp.body, closing, STDOUT);
    BytesConcat(sp.body, closing, STDERR);
    ClosingShows(o, sp.sent);
    if sp.sent > 0 {
      PumpDone(g.out, STDOUT, stdout, sp.body);
      PumpDone(g.err, STDERR, stderr, sp.body);
    }
  }

  predicate MidFrame(g: Guest) {
    g.mutex.Held? ==> g.Of(g.mutex.holder).pc.Writing? && g.Of(g.mutex.holder).pc.left != []
  }

  lemma LivePrefix(g: Guest, stdout: seq<Byte>, stderr: seq<Byte>, o: Outcome, sp: Split)
    requires Inv(g, stdout, stderr, Epilogue(o), sp) && MidFrame(g)
    ensures Bytes(ParseAll(g.wire).0, STDOUT) <= stdout
    ensures Bytes(ParseAll(g.wire).0, STDERR) <= stderr + (if o.WaitFailed? then o.message else [])
  {
    PartOnWire(g);
    FramedIsPrefix(g, stdout, stderr, o, sp);
  }

  lemma HolderWrites(g: Guest)
    requires WireOk(g) && !MidFrame(g)
    ensures g.mutex.Held? && Enabled(g, Unlock(g.mutex.holder))
    ensures Next(g, Unlock(g.mutex.holder)).wire == g.wire && MidFrame(Next(g, Unlock(g.mutex.holder)))
  {
    assert g.Of(g.mutex.holder).pc.Writing?;
  }

  /** Output is live and in order: at every point of every run, mid-frame or not, what the host can have
      shown is a prefix of the command's output. */
  lemma LiveOutputIsPrefix(gs: seq<Guest>, acts: seq<Act>, stdout: seq<Byte>, stderr: seq<Byte>, o: Outcome)
    requires Reportable(o) && IsRun(gs, acts) && gs[0] == Init(stdout, stderr, o)
    ensures Bytes(ParseAll(gs[|acts|].wire).0, STDOUT) <= stdout
    ensures Bytes(ParseAll(gs[|acts|].wire).0, STDERR) <= stderr + (if o.WaitFailed? then o.message else [])
  {
    var g := gs[|acts|];
    var sp := RunInv(gs, acts, stdout, stderr, o);
    if MidFrame(g) {
      LivePrefix(g, stdout, stderr, o, sp);
    } else {
      HolderWrites(g);
      InvStep(g, Unlock(g.mutex.holder), stdout, stderr, Epilogue(o), sp);
      LivePrefix(Next(g, Unlock(g.mutex.holder)), stdout, stderr, o, SplitAfter(g, Unlock(g.mutex.holder), sp));
    }
  }

  // ----- No run gets stuck, and none goes on forever -----

  function FramesCost(fs: seq<Frame>): nat {
    if fs == [] then 0 else |fs[0].payload| + 9 + FramesCost(fs[1..])
  }

  function Cost(t: Thread): nat {
    10 * |t.source| + FramesCost(t.epilogue) +
    match t.pc
    case Ready => 1
    case Waiting(f) => |f.payload| + 8
    case Writing(_, left) => |left| + 2
    case Finished => 0
  }

  function Work(g: Guest): nat {
    Cost(g.out) + Cost(g.err) + Cost(g.main)
  }

  lemma EveryStepIsProgress(g: Guest, a: Act)
    requires Enabled(g, a)
    ensures Work(Next(g, a)) < Work(g)
  {}

  /** As long as the exit step is not done, some goroutine can move: the lock is never lost. */
  lemma NeverStuck(g: Guest, stdout: seq<Byte>, stderr: seq<Byte>, closing: seq<Frame>, sp: Split) returns (a: Act)
    requires Inv(g, stdout, stderr, closing, sp) && !AllDone(g)
    ensures Enabled(g, a)
  {
    if g.mutex.Held? {
      var w := g.mutex.holder;
      assert g.Of(w).pc.Writing?;
      a := if g.Of(w).pc.left == [] then Unlock(w) else Put(w, 1);
    } else {
      var w := if !g.out.pc.Finished? then Out else if !g.err.pc.Finished? then Err else Main;
      var t := g.Of(w);
      assert !t.pc.Writing?;
      a := if t.pc.Waiting? then Lock(w)
           else if w.Main? then (if t.epilogue == [] then Finish(w) else Take(w, 0))
           else if t.source == [] then Finish(w)
           else Take(w, 1);
    }
  }

  lemma {:induction false} StepsAreBounded(gs: seq<Guest>, acts: seq<Act>)
    requires IsRun(gs, acts)
    ensures |acts| + Work(gs[|acts|]) <= Work(gs[0])
  {
    if acts != [] {
      var last := |acts| - 1;
      StepsAreBounded(gs[..|acts|], acts[..last]);
      EveryStepIsProgress(gs[last], acts[last]);
    }
  }

  /** Every run is bounded, and one that can go no further has delivered everything: the host then has the
      command's output and exit code. */
  lemma EveryRunDelivers(gs: seq<Guest>, acts: seq<Act>, stdout: seq<Byte>, stderr: seq<Byte>, o: Outcome)
    requires Reportable(o) && IsRun(gs, acts) && gs[0] == Init(stdout, stderr, o)
    ensures |acts| <= Work(Init(stdout, stderr, o))
    ensures (forall a :: !Enabled(gs[|acts|], a)) ==> DemuxStream(gs[|acts|].wire) == Expected(stdout, stderr, o)
  {
    StepsAreBounded(gs, acts);
    if AllDone(gs[|acts|]) {
      HostSeesTheCommand(gs, acts, stdout, stderr, o);
    } else {
      var sp := RunInv(gs, acts, stdout, stderr, o);
      var a := NeverStuck(gs[|acts|], stdout, stderr, Epilogue(o), sp);
    }
  }
}
