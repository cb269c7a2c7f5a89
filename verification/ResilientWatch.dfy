/** The client of a member watch, against any behaviour of its environment: internal/gateway/watch_resilient.go. */
module ResilientWatch {

  import opened Common
  import opened WatchLog

  // ----- The client -----

  datatype ErrKind = Gone | Permanent | Transient

  /** What a watch delivers. ADDED and MODIFIED carry a Put, DELETED a Delete. */
  datatype WatchEvent =
    | Change(entry: Entry, version: Option<nat>)
    | Bookmark(version: Option<nat>)
    | ErrorEvent(kind: ErrKind)

  /** What the environment does at the client's next blocking point. more is onEvent's answer. An
      action that does not fit the point where the client waits stands for the context ending. */
  datatype Action =
    | StartOk
    | StartErr(kind: ErrKind)
    | Recv(event: WatchEvent, more: bool)
    | Closed
    | Woke
    | CtxDone

  /** What can be seen of the client: the calls it makes, in order. */
  datatype Output =
    | Start(rv: Option<nat>)
    | Forward(entry: Entry, version: Option<nat>)
    | Report(kind: ErrKind)
    | Sleep(seconds: nat)

  datatype Mode = Starting | Draining(gotEvent: bool) | Sleeping | Stopped

  datatype Client = Client(rv: Option<nat>, backoff: nat, mode: Mode, out: seq<Output>)

  const RETRY_INITIAL: nat := 1
  const RETRY_MAX: nat := 30
  const INIT_CLIENT := Client(None, RETRY_INITIAL, Starting, [])

  function NextBackoff(d: nat): (r: nat)
    ensures RETRY_INITIAL <= d <= RETRY_MAX ==> RETRY_INITIAL <= r <= RETRY_MAX
  {
    if 2 * d > RETRY_MAX then RETRY_MAX else 2 * d
  }

  /** An event without a readable version leaves the stored one alone. */
  function Advance(rv: Option<nat>, version: Option<nat>): Option<nat> {
    if version.Some? then version else rv
  }

  function Step(c: Client, a: Action): Client {
    match (c.mode, a)
    case (Starting, StartOk) => c.(mode := Draining(false), out := c.out + [Start(c.rv)])
    case (Starting, StartErr(k)) =>
      c.(rv := if k.Gone? then None else c.rv,
         mode := if k.Permanent? then Stopped else Sleeping,
         out := c.out + [Start(c.rv), Report(k)])
    case (Draining(got), Closed) =>
      if got then c.(backoff := RETRY_INITIAL, mode := Starting) else c.(mode := Sleeping)
    case (Draining(_), Recv(ErrorEvent(k), _)) =>
      Client(if k.Gone? then None else c.rv, RETRY_INITIAL, Starting, c.out + [Report(k)])
    case (Draining(_), Recv(Bookmark(v), _)) => c.(rv := Advance(c.rv, v), mode := Draining(true))
    case (Draining(_), Recv(Change(e, v), more)) =>
      Client(Advance(c.rv, v), c.backoff, if more then Draining(true) else Stopped, c.out + [Forward(e, v)])
    case (Sleeping, Woke) =>
      Client(c.rv, NextBackoff(c.backoff), Starting, c.out + [Sleep(c.backoff)])
    case _ => c.(mode := Stopped)
  }

  function Run(c: Client, script: seq<Action>): Client {
    if script == [] then c else Step(Run(c, script[..|script| - 1]), script[|script| - 1])
  }

  lemma {:induction false} StoppedStays(c: Client, script: seq<Action>)
    requires c.mode.Stopped?
    ensures Run(c, script) == c
  {
    if script != [] { StoppedStays(c, script[..|script| - 1]); }
  }

  lemma {:induction false} RunConcat(c: Client, a: seq<Action>, b: seq<Action>)
    ensures Run(c, a + b) == Run(Run(c, a), b)
  {
    if b == [] {
      assert a + b == a;
    } else {
      assert (a + b)[..|a + b| - 1] == a + b[..|b| - 1];
      RunConcat(c, a, b[..|b| - 1]);
    }
  }

  lemma RunStep(c: Client, script: seq<Action>, i: nat)
    requires i < |script|
    ensures Run(c, script[..i + 1]) == Step(Run(c, script[..i]), script[i])
  {
    assert script[..i + 1][..i] == script[..i];
  }

  /** The context's end stops the client wherever it waits. */
  lemma StillRunning(c: Client, script: seq<Action>, i: nat)
    requires script != [] && script[|script| - 1].CtxDone? && i <= |script|
    requires !Run(c, script[..i]).mode.Stopped?
    ensures i < |script|
  {
    assert script[..|script|] == script;
  }

  lemma StoppedForGood(c: Client, script: seq<Action>, i: nat)
    requires i <= |script| && Run(c, script[..i]).mode.Stopped?
    ensures Run(c, script) == Run(c, script[..i])
  {
    assert script == script[..i] + script[i..];
    RunConcat(c, script[..i], script[i..]);
    StoppedStays(Run(c, script[..i]), script[i..]);
  }

  // ----- What the client promises, read off the environment's answers -----

  /** What the client waits for: a start's answer, the next event, or the end of a sleep. */
  datatype Wait = ForStart | ForEvent | ForWake

  /** What a client that is still running waits for after these answers. */
  function Due(s: seq<Action>): Wait {
    if s == [] then ForStart
    else match s[|s| - 1]
      case StartOk => ForEvent
      case StartErr(_) => ForWake
      case Recv(ErrorEvent(_), _) => ForStart
      case Recv(_, _) => ForEvent
      case Closed => if |s| >= 2 && s[|s| - 2].Recv? then ForStart else ForWake
      case Woke => ForStart
      case CtxDone => ForStart
  }

  predicate Answers(w: Wait, a: Action) {
    match w
    case ForStart => a.StartOk? || a.StartErr?
    case ForEvent => a.Recv? || a.Closed?
    case ForWake => a.Woke?
  }

  /** The last answer ends the watch: the context is over, the error cannot heal, or onEvent declined. */
  predicate Ends(s: seq<Action>) {
    s != [] && var a := s[|s| - 1];
    || !Answers(Due(s[..|s| - 1]), a)
    || a == StartErr(Permanent)
    || (a.Recv? && a.event.Change? && !a.more)
  }

  /** Nothing has ended the watch yet. */
  predicate Alive(s: seq<Action>) {
    forall i :: 0 < i <= |s| ==> !Ends(s[..i])
  }

  /** The version of the last event that carried one; none after a 410. */
  function LastSeen(s: seq<Action>): Option<nat> {
    if s == [] then None
    else match s[|s| - 1]
      case StartErr(Gone) => None
      case Recv(ErrorEvent(Gone), _) => None
      case Recv(Change(_, Some(v)), _) => Some(v)
      case Recv(Bookmark(Some(v)), _) => Some(v)
      case _ => LastSeen(s[..|s| - 1])
  }

  /** How often the client has slept since the last event. */
  function Wakes(s: seq<Action>): nat {
    if s == [] || s[|s| - 1].Recv? then 0
    else Wakes(s[..|s| - 1]) + if s[|s| - 1].Woke? then 1 else 0
  }

  /** The n-th sleep in a row, in seconds. */
  function Delay(n: nat): nat {
    if n < 5 then [1, 2, 4, 8, 16][n] else 30
  }

  /** What the client does on the last answer. */
  function Says(s: seq<Action>): seq<Output>
    requires s != []
  {
    var before := s[..|s| - 1];
    match (Due(before), s[|s| - 1])
    case (ForStart, StartOk) => [Start(LastSeen(before))]
    case (ForStart, StartErr(k)) => [Start(LastSeen(before)), Report(k)]
    case (ForEvent, Recv(ErrorEvent(k), _)) => [Report(k)]
    case (ForEvent, Recv(Change(e, v), _)) => [Forward(e, v)]
    case (ForWake, Woke) => [Sleep(Delay(Wakes(before)))]
    case _ => []
  }

  function Story(s: seq<Action>): seq<Output> {
    if s == [] then [] else Story(s[..|s| - 1]) + Says(s)
  }

  function ModeOf(s: seq<Action>): Mode {
    match Due(s)
    case ForStart => Starting
    case ForEvent => Draining(s != [] && s[|s| - 1].Recv?)
    case ForWake => Sleeping
  }

  lemma AliveInit(s: seq<Action>)
    requires s != [] && Alive(s)
    ensures Alive(s[..|s| - 1]) && !Ends(s)
  {
    assert s[..|s|] == s;
    var before := s[..|s| - 1];
    forall i | 0 < i <= |before| ensures !Ends(before[..i]) { assert before[..i] == s[..i]; }
  }

  lemma AliveGrows(s: seq<Action>)
    requires s != [] && Alive(s[..|s| - 1]) && !Ends(s)
    ensures Alive(s)
  {
    assert s[..|s|] == s;
    forall i | 0 < i <= |s| ensures !Ends(s[..i]) {
      if i < |s| { assert s[..|s| - 1][..i] == s[..i]; }
    }
  }

  /** As long as nothing ends it, the client is where its answers say, and has told their story. */
  lemma {:induction false} AliveRuns(s: seq<Action>)
    requires Alive(s)
    ensures var c := Run(INIT_CLIENT, s);
            && c.mode == ModeOf(s) && c.rv == LastSeen(s) && c.out == Story(s)
            && (c.mode != Draining(true) ==> c.backoff == Delay(Wakes(s)))
  {
    if s != [] {
      AliveInit(s);
      AliveRuns(s[..|s| - 1]);
      StepIsSaid(s);
    }
  }

  lemma StepIsSaid(s: seq<Action>)
    requires s != [] && !Ends(s)
    requires var before := s[..|s| - 1];
             var c := Run(INIT_CLIENT, before);
             && c.mode == ModeOf(before) && c.rv == LastSeen(before) && c.out == Story(before)
             && (c.mode != Draining(true) ==> c.backoff == Delay(Wakes(before)))
    ensures var c := Run(INIT_CLIENT, s);
            && c.mode == ModeOf(s) && c.rv == LastSeen(s) && c.out == Story(s)
            && (c.mode != Draining(true) ==> c.backoff == Delay(Wakes(s)))
  {
    FitsStory(Run(INIT_CLIENT, s[..|s| - 1]), s[..|s| - 1], s[|s| - 1], s);
  }

  lemma FitsStory(c: Client, before: seq<Action>, a: Action, s: seq<Action>)
    requires s != [] && !Ends(s) && before == s[..|s| - 1] && a == s[|s| - 1]
    requires c.mode == ModeOf(before) && c.rv == LastSeen(before)
    requires c.mode != Draining(true) ==> c.backoff == Delay(Wakes(before))
    ensures var d := Step(c, a);
            && d.mode == ModeOf(s) && d.rv == LastSeen(s) && d.out == c.out + Says(s)
            && (d.mode != Draining(true) ==> d.backoff == Delay(Wakes(s)))
  {
    assert c.out + [] == c.out;
    assert |s| >= 2 ==> before[|before| - 1] == s[|s| - 2];
  }

  /** The step that stops says no more than the last answer asks for. */
  lemma LastStep(c: Client, s: seq<Action>)
    requires s != [] && Ends(s) && c.mode == ModeOf(s[..|s| - 1]) && c.rv == LastSeen(s[..|s| - 1])
    ensures Step(c, s[|s| - 1]).mode.Stopped? && Step(c, s[|s| - 1]).out == c.out + Says(s)
  {
    assert c.out + [] == c.out;
  }

  /** What ends it stops the client for good, after a last word. */
  lemma EndStops(s: seq<Action>)
    requires s != [] && Alive(s[..|s| - 1]) && Ends(s)
    ensures Run(INIT_CLIENT, s).mode.Stopped? && Run(INIT_CLIENT, s).out == Story(s)
  {
    AliveRuns(s[..|s| - 1]);
    LastStep(Run(INIT_CLIENT, s[..|s| - 1]), s);
  }

  /** The client gives up for the reasons Ends lists, and for no other. */
  lemma {:induction false} StoppedIff(s: seq<Action>)
    ensures Run(INIT_CLIENT, s).mode.Stopped? <==> !Alive(s)
  {
    if Alive(s) {
      AliveRuns(s);
    } else {
      var before := s[..|s| - 1];
      StoppedIff(before);
      if Alive(before) {
        if !Ends(s) { AliveGrows(s); }
        EndStops(s);
      }
    }
  }

  /** Where a run stops is where the watch ended, and nothing is said after that. */
  lemma EndsHere(script: seq<Action>, i: nat)
    requires 0 < i <= |script| && !Run(INIT_CLIENT, script[..i - 1]).mode.Stopped?
    requires Run(INIT_CLIENT, script[..i]).mode.Stopped?
    ensures Alive(script[..i - 1]) && Ends(script[..i])
    ensures Run(INIT_CLIENT, script) == Run(INIT_CLIENT, script[..i])
    ensures Run(INIT_CLIENT, script).out == Story(script[..i])
  {
    var s := script[..i];
    assert s[..|s| - 1] == script[..i - 1];
    StoppedIff(script[..i - 1]);
    StoppedIff(s);
    if !Ends(s) { AliveGrows(s); }
    EndStops(s);
    StoppedForGood(INIT_CLIENT, script, i);
  }

  /** One turn of drainWatch's loop: what is received ends the watch, or moves rv and goes on. */
  method DrainOne(a: Action, rv0: Option<nat>, out0: seq<Output>, gotEvent0: bool, ghost backoff: nat)
    returns (more: bool, rv: Option<nat>, out: seq<Output>, gotEvent: bool, stop: bool)
    ensures Step(Client(rv0, backoff, Draining(gotEvent0), out0), a) ==
            if more then Client(rv, backoff, Draining(gotEvent), out)
            else if stop then Client(rv, backoff, Stopped, out)
            else if gotEvent then Client(rv, RETRY_INITIAL, Starting, out)
            else Client(rv, backoff, Sleeping, out)
  {
    more, rv, out, gotEvent, stop := false, rv0, out0, gotEvent0, false;
    match a {
      case Closed =>
      case Recv(ErrorEvent(k), _) =>
        gotEvent := true;
        if k.Gone? { rv := None; }
        out := out + [Report(k)];
      case Recv(Bookmark(v), _) =>
        more, gotEvent := true, true;
        if v.Some? { rv := v; }
      case Recv(Change(e, v), wanted) =>
        gotEvent := true;
        if v.Some? { rv := v; }
        out := out + [Forward(e, v)];
        more, stop := wanted, !wanted;
      case _ =>
        stop := true;
    }
  }

  /** drainWatch: forwards events until the watch ends, moving rv, which is passed by reference. */
  method DrainWatch(script: seq<Action>, i0: nat, rv0: Option<nat>, out0: seq<Output>, ghost backoff: nat)
    returns (i: nat, rv: Option<nat>, out: seq<Output>, gotEvent: bool, stop: bool)
    requires i0 <= |script| && script != [] && script[|script| - 1].CtxDone?
    requires Run(INIT_CLIENT, script[..i0]) == Client(rv0, backoff, Draining(false), out0)
    ensures i0 < i <= |script|
    ensures Run(INIT_CLIENT, script[..i]) ==
            if stop then Client(rv, backoff, Stopped, out)
            else if gotEvent then Client(rv, RETRY_INITIAL, Starting, out)
            else Client(rv, backoff, Sleeping, out)
    ensures !Run(INIT_CLIENT, script[..i - 1]).mode.Stopped?
  {
    i, rv, out, gotEvent, stop := i0, rv0, out0, false, false;
    var more := true;
    while more
      invariant i0 <= i <= |script| && (!more ==> i0 < i && !Run(INIT_CLIENT, script[..i - 1]).mode.Stopped?)
      invariant Run(INIT_CLIENT, script[..i]) ==
                if more then Client(rv, backoff, Draining(gotEvent), out)
                else if stop then Client(rv, backoff, Stopped, out)
                else if gotEvent then Client(rv, RETRY_INITIAL, Starting, out)
                else Client(rv, backoff, Sleeping, out)
      decreases |script| - i
    {
      StillRunning(INIT_CLIENT, script, i);
      RunStep(INIT_CLIENT, script, i);
      more, rv, out, gotEvent, stop := DrainOne(script[i], rv, out, gotEvent, backoff);
      i := i + 1;
    }
  }

  /** The wait before a retry; the context's end cuts it short for good. */
  method SleepBackoff(script: seq<Action>, i0: nat, ghost rv: Option<nat>, backoff0: nat, out0: seq<Output>)
    returns (woke: bool, i: nat, backoff: nat, out: seq<Output>)
    requires i0 <= |script| && script != [] && script[|script| - 1].CtxDone?
    requires Run(INIT_CLIENT, script[..i0]) == Client(rv, backoff0, Sleeping, out0)
    ensures i0 < i <= |script|
    ensures Run(INIT_CLIENT, script[..i]) == Client(rv, backoff, if woke then Starting else Stopped, out)
    ensures !Run(INIT_CLIENT, script[..i - 1]).mode.Stopped?
  {
    StillRunning(INIT_CLIENT, script, i0);
    RunStep(INIT_CLIENT, script, i0);
    i, backoff, out := i0 + 1, backoff0, out0;
    woke := script[i0].Woke?;
    if !woke { return; }
    out := out + [Sleep(backoff)];
    backoff := NextBackoff(backoff);
  }

  /** One turn of resilientWatch's loop: a start, its watch, and the wait if it brought nothing. */
  method WatchOnce(script: seq<Action>, i0: nat, rv0: Option<nat>, backoff0: nat, out0: seq<Output>)
    returns (again: bool, i: nat, rv: Option<nat>, backoff: nat, out: seq<Output>)
    requires i0 <= |script| && script != [] && script[|script| - 1].CtxDone?
    requires Run(INIT_CLIENT, script[..i0]) == Client(rv0, backoff0, Starting, out0)
    ensures i0 < i <= |script|
    ensures Run(INIT_CLIENT, script[..i]) == Client(rv, backoff, if again then Starting else Stopped, out)
    ensures !Run(INIT_CLIENT, script[..i - 1]).mode.Stopped?
  {
    StillRunning(INIT_CLIENT, script, i0);
    RunStep(INIT_CLIENT, script, i0);
    again, i, rv, backoff, out := false, i0 + 1, rv0, backoff0, out0;
    match script[i0] {
      case StartErr(k) =>
        out := out + [Start(rv), Report(k)];
        if k.Gone? { rv := None; }
        if k.Permanent? { return; }
      case StartOk =>
        out := out + [Start(rv)];
        var gotEvent, stop;
        i, rv, out, gotEvent, stop := DrainWatch(script, i, rv, out, backoff);
        if stop { return; }
        if gotEvent {
          again, backoff := true, RETRY_INITIAL;
          return;
        }
      case _ =>
        return;
    }
    again, i, backoff, out := SleepBackoff(script, i, rv, backoff, out);
  }

  /** resilientWatch: runs until the context ends, onEvent declines, or an error cannot heal. The i-th answer
      is the first of these, and what the client did is the story of the answers up to it. */
  method Watch(actions: seq<Action>)
    returns (rv: Option<nat>, backoff: nat, out: seq<Output>, i: nat)
    ensures Client(rv, backoff, Stopped, out) == Run(INIT_CLIENT, actions + [CtxDone])
    ensures var script := actions + [CtxDone];
            && 0 < i <= |script| && Alive(script[..i - 1]) && Ends(script[..i])
            && out == Story(script[..i])
  {
    var script := actions + [CtxDone];
    rv, backoff, out, i := None, RETRY_INITIAL, [], 0;
    var again := true;
    while again
      invariant i <= |script| && (!again ==> 0 < i && !Run(INIT_CLIENT, script[..i - 1]).mode.Stopped?)
      invariant Run(INIT_CLIENT, script[..i]) == Client(rv, backoff, if again then Starting else Stopped, out)
      decreases |script| - i
    {
      again, i, rv, backoff, out := WatchOnce(script, i, rv, backoff, out);
    }
    EndsHere(script, i);
  }

  // ----- What that story says -----

  predicate Carries(a: Action) {
    a.Recv? && !a.event.ErrorEvent? && a.event.version.Some?
  }

  predicate IsGone(a: Action) {
    a == StartErr(Gone) || (a.Recv? && a.event == ErrorEvent(Gone))
  }

  /** The version to start from is that of the last event that carried one, and none if a 410 came after it. */
  lemma {:induction false} LastSeenIs(s: seq<Action>, i: nat)
    requires i < |s| && forall j :: i < j < |s| ==> !Carries(s[j]) && !IsGone(s[j])
    ensures Carries(s[i]) ==> LastSeen(s) == s[i].event.version
    ensures IsGone(s[i]) ==> LastSeen(s) == None
  {
    if i < |s| - 1 {
      LastSeenIs(s[..|s| - 1], i);
      assert !Carries(s[|s| - 1]) && !IsGone(s[|s| - 1]);
    }
  }

  lemma {:induction false} NothingSeen(s: seq<Action>)
    requires forall a :: a in s ==> !Carries(a)
    ensures LastSeen(s) == None
  {
    if s != [] {
      NothingSeen(s[..|s| - 1]);
      assert !Carries(s[|s| - 1]);
    }
  }

  lemma StorySnoc(s: seq<Action>, a: Action)
    ensures (s + [a])[..|s|] == s
    ensures Story(s + [a]) == Story(s) + Says(s + [a])
    ensures Alive(s + [a]) <==> Alive(s) && !Ends(s + [a])
  {
    assert (s + [a])[..|s + [a]| - 1] == s;
    if Alive(s + [a]) { AliveInit(s + [a]); }
    if Alive(s) && !Ends(s + [a]) { AliveGrows(s + [a]); }
  }

  lemma StartIsTold(t: seq<Action>)
    requires Alive(t) && Due(t) == ForStart
    ensures Alive(t + [StartOk]) && Story(t + [StartOk]) == Story(t) + [Start(LastSeen(t))]
  {
    StorySnoc(t, StartOk);
  }

  lemma WakeIsTold(t: seq<Action>)
    requires Alive(t) && Due(t) == ForWake
    ensures Alive(t + [Woke]) && Story(t + [Woke]) == Story(t) + [Sleep(Delay(Wakes(t)))]
    ensures Due(t + [Woke]) == ForStart && LastSeen(t + [Woke]) == LastSeen(t)
  {
    StorySnoc(t, Woke);
  }

  lemma DueAgain(s: seq<Action>, a: Action)
    requires a.Closed? || a.StartErr? || (a.Recv? && a.event.ErrorEvent?)
    ensures var quiet := a.StartErr? || (a.Closed? && (s == [] || !s[|s| - 1].Recv?));
            && Due(s + [a]) == (if quiet then ForWake else ForStart)
            && (quiet ==> Wakes(s + [a]) == Wakes(s))
  {
    assert (s + [a])[..|s + [a]| - 1] == s;
  }

  /** A watch that failed or was closed is started again: at once if it brought an event, else after a sleep. */
  lemma StartsAgain(s: seq<Action>, a: Action)
    requires a.Closed? || a.StartErr? || (a.Recv? && a.event.ErrorEvent?)
    requires Alive(s + [a])
    ensures var quiet := a.StartErr? || (a.Closed? && (s == [] || !s[|s| - 1].Recv?));
            var wait := if quiet then [Woke] else [];
            && Alive(s + [a] + wait + [StartOk])
            && Story(s + [a] + wait + [StartOk]) ==
               Story(s + [a]) + (if quiet then [Sleep(Delay(Wakes(s)))] else []) + [Start(LastSeen(s + [a]))]
  {
    DueAgain(s, a);
    var t := s + [a];
    if Due(t) == ForWake {
      WakeIsTold(t);
      StartIsTold(t + [Woke]);
    } else {
      assert t + [] == t && Story(t) + [] == Story(t);
      StartIsTold(t);
    }
  }

  function ErrorOf(a: Action): seq<ErrKind> {
    match a
    case StartErr(k) => [k]
    case Recv(ErrorEvent(k), _) => [k]
    case _ => []
  }

  function Errors(s: seq<Action>): seq<ErrKind> {
    if s == [] then [] else Errors(s[..|s| - 1]) + ErrorOf(s[|s| - 1])
  }

  function Reported(out: seq<Output>): seq<ErrKind> {
    if out == [] then []
    else Reported(out[..|out| - 1]) + if out[|out| - 1].Report? then [out[|out| - 1].kind] else []
  }

  function ChangeOf(a: Action): seq<(Entry, Option<nat>)> {
    if a.Recv? && a.event.Change? then [(a.event.entry, a.event.version)] else []
  }

  function Changes(s: seq<Action>): seq<(Entry, Option<nat>)> {
    if s == [] then [] else Changes(s[..|s| - 1]) + ChangeOf(s[|s| - 1])
  }

  function Forwarded(out: seq<Output>): seq<(Entry, Option<nat>)> {
    if out == [] then []
    else Forwarded(out[..|out| - 1]) +
         if out[|out| - 1].Forward? then [(out[|out| - 1].entry, out[|out| - 1].version)] else []
  }

  lemma {:induction false} ToldConcat(out: seq<Output>, more: seq<Output>)
    ensures Reported(out + more) == Reported(out) + Reported(more)
    ensures Forwarded(out + more) == Forwarded(out) + Forwarded(more)
  {
    if more == [] {
      assert out + more == out;
    } else {
      ToldConcat(out, more[..|more| - 1]);
      assert (out + more)[..|out + more| - 1] == out + more[..|more| - 1];
    }
  }

  lemma SaysTells(s: seq<Action>)
    requires s != [] && !Ends(s)
    ensures Reported(Says(s)) == ErrorOf(s[|s| - 1])
    ensures Forwarded(Says(s)) == ChangeOf(s[|s| - 1])
  {
    var said := Says(s);
    if |said| == 2 {
      ToldConcat([said[0]], [said[1]]);
      assert said == [said[0]] + [said[1]];
    }
  }

  /** Every start error and error event is reported and every change forwarded, once each and in order. */
  lemma {:induction false} NothingDropped(s: seq<Action>)
    requires Alive(s)
    ensures Reported(Story(s)) == Errors(s)
    ensures Forwarded(Story(s)) == Changes(s)
  {
    if s != [] {
      AliveInit(s);
      NothingDropped(s[..|s| - 1]);
      SaysTells(s);
      ToldConcat(Story(s[..|s| - 1]), Says(s));
    }
  }

  lemma {:induction false} WakesKept(s: seq<Action>, i: nat)
    requires i <= |s| && forall j :: i <= j < |s| ==> !s[j].Woke? && !s[j].Recv?
    ensures Wakes(s) == Wakes(s[..i])
  {
    if i < |s| {
      WakesKept(s[..|s| - 1], i);
      assert s[..|s| - 1][..i] == s[..i];
      assert !s[|s| - 1].Woke? && !s[|s| - 1].Recv?;
    } else {
      assert s[..i] == s;
    }
  }

  /** The first sleep after an event lasts a second; each one after it twice the last, up to thirty. */
  lemma SleepsDouble(s: seq<Action>, i: nat)
    requires Alive(s + [Woke]) && i <= |s|
    requires forall j :: i <= j < |s| ==> !s[j].Woke? && !s[j].Recv?
    ensures i == 0 || s[i - 1].Recv? ==> Says(s + [Woke]) == [Sleep(1)]
    ensures i > 0 && s[i - 1].Woke? ==>
      exists d: nat :: Says(s[..i]) == [Sleep(d)] && Says(s + [Woke]) == [Sleep(if 2 * d > 30 then 30 else 2 * d)]
  {
    StorySnoc(s, Woke);
    WakesKept(s, i);
    if i > 0 && s[i - 1].Woke? {
      assert s[..i][..i - 1] == s[..i - 1];
      assert !Ends(s[..i]) by { assert (s + [Woke])[..i] == s[..i]; }
      assert Says(s[..i]) == [Sleep(Delay(Wakes(s[..i - 1])))];
    }
  }

  lemma RunSnoc(c: Client, s: seq<Action>, a: Action)
    ensures Run(c, s + [a]) == Step(Run(c, s), a)
  {
    assert (s + [a])[..|s + [a]| - 1] == s;
  }

  /** A running client gives up on a permanent start error, a declined event or the context's end, and on nothing
      else: any answer the client is not waiting for stands for the context's end. */
  lemma GivesUpIff(s: seq<Action>, a: Action)
    requires !Run(INIT_CLIENT, s).mode.Stopped?
    ensures Run(INIT_CLIENT, s + [a]).mode.Stopped? <==>
            || a == StartErr(Permanent)
            || (a.Recv? && a.event.Change? && !a.more)
            || (Run(INIT_CLIENT, s).mode.Starting? && !a.StartOk? && !a.StartErr?)
            || (Run(INIT_CLIENT, s).mode.Draining? && !a.Recv? && !a.Closed?)
            || (Run(INIT_CLIENT, s).mode.Sleeping? && !a.Woke?)
  {
    RunSnoc(INIT_CLIENT, s, a);
  }

  lemma RunTwo(c: Client, a: Action, b: Action)
    ensures Run(c, [a, b]) == Step(Step(c, a), b)
  {
    assert [a, b] == [] + [a] + [b];
    RunSnoc(c, [], a);
    RunSnoc(c, [] + [a], b);
  }

  /** A closed watch is reopened at the last version. */
  lemma ReopensExample(e: Entry, v: nat)
    ensures Run(INIT_CLIENT, [StartOk, Recv(Change(e, Some(v)), true)] + [Closed, StartOk]) ==
            Client(Some(v), 1, Draining(false), [Start(None), Forward(e, Some(v)), Start(Some(v))])
  {
    var got := Recv(Change(e, Some(v)), true);
    RunConcat(INIT_CLIENT, [StartOk, got], [Closed, StartOk]);
    RunTwo(INIT_CLIENT, StartOk, got);
    assert [] + [Start(None)] + [Forward(e, Some(v))] == [Start(None), Forward(e, Some(v))];
    RunTwo(Run(INIT_CLIENT, [StartOk, got]), Closed, StartOk);
  }

  /** After a 410 the next start asks for everything. */
  lemma StartsOverExample(c: Client, more: bool)
    requires c.mode.Draining?
    ensures Run(c, [Recv(ErrorEvent(Gone), more), StartErr(Transient)]) ==
            Client(None, 1, Sleeping, c.out + [Report(Gone), Start(None), Report(Transient)])
  {
    RunTwo(c, Recv(ErrorEvent(Gone), more), StartErr(Transient));
  }

  // ----- What any environment sees of the client -----

  predicate Versioned(o: Output) {
    o.Forward? && o.version.Some?
  }

  /** A Gone report stands strictly between positions i and j. */
  ghost predicate GoneBetween(out: seq<Output>, i: int, j: int) {
    exists m :: i < m < j && 0 <= m < |out| && out[m] == Report(Gone)
  }

  /** Once an event with a version was forwarded, a start from scratch comes only after a Gone report. */
  ghost predicate RestartsAnnounced(out: seq<Output>) {
    forall i, j :: 0 <= i < j < |out| && Versioned(out[i]) && out[j] == Start(None) ==> GoneBetween(out, i, j)
  }

  /** The last output that is not a sleep. */
  function LastWord(out: seq<Output>): Option<Output> {
    if out == [] then None
    else if out[|out| - 1].Sleep? then LastWord(out[..|out| - 1])
    else Some(out[|out| - 1])
  }

  /** From a Gone report on, through any sleeps, no version is stored: the next start is from scratch. */
  ghost predicate GoneStartsOver(c: Client) {
    LastWord(c.out) == Some(Report(Gone)) ==> c.rv.None? && !c.mode.Draining?
  }

  /** With no version stored, every versioned event lies before a Gone report. */
  ghost predicate EmptyMeansGone(c: Client) {
    c.rv.None? ==> forall i :: 0 <= i < |c.out| && Versioned(c.out[i]) ==> GoneBetween(c.out, i, |c.out|)
  }

  ghost predicate TraceOk(c: Client) {
    && RestartsAnnounced(c.out)
    && EmptyMeansGone(c)
    && GoneStartsOver(c)
    && RETRY_INITIAL <= c.backoff <= RETRY_MAX
  }

  lemma GoneBetweenGrows(out: seq<Output>, more: seq<Output>, i: int, j: int)
    requires GoneBetween(out, i, j) && j <= |out|
    ensures GoneBetween(out + more, i, j)
  {
    var m :| i < m < j && 0 <= m < |out| && out[m] == Report(Gone);
    assert (out + more)[m] == Report(Gone);
  }

  /** What one step appends to the trace, and how it goes with the stored version. */
  ghost predicate Emits(c: Client, d: Client, more: seq<Output>) {
    && d.out == c.out + more
    && (forall i :: 0 <= i < |more| && Versioned(more[i]) ==> d.rv.Some?)
    && (forall i :: 0 <= i < |more| && more[i] == Start(None) ==> i == 0 && c.rv.None?)
    && (c.rv.Some? && d.rv.None? ==> more != [] && more[|more| - 1] == Report(Gone))
  }

  lemma StepEmits(c: Client, a: Action) returns (more: seq<Output>)
    ensures Emits(c, Step(c, a), more)
  {
    more := Step(c, a).out[|c.out|..];
  }

  lemma AnnouncedStep(c: Client, d: Client, more: seq<Output>)
    requires RestartsAnnounced(c.out) && EmptyMeansGone(c) && Emits(c, d, more)
    ensures RestartsAnnounced(d.out)
  {
    forall i, j | 0 <= i < j < |d.out| && Versioned(d.out[i]) && d.out[j] == Start(None)
      ensures GoneBetween(d.out, i, j)
    {
      if j < |c.out| {
        GoneBetweenGrows(c.out, more, i, j);
      } else {
        assert more[j - |c.out|] == Start(None);
        GoneBetweenGrows(c.out, more, i, |c.out|);
      }
    }
  }

  lemma EmptyStep(c: Client, d: Client, more: seq<Output>)
    requires EmptyMeansGone(c) && Emits(c, d, more)
    ensures EmptyMeansGone(d)
  {
    if d.rv.None? {
      forall i | 0 <= i < |d.out| && Versioned(d.out[i]) ensures GoneBetween(d.out, i, |d.out|) {
        assert i < |c.out|;
        if c.rv.None? {
          GoneBetweenGrows(c.out, more, i, |c.out|);
        } else {
          assert d.out[|d.out| - 1] == Report(Gone);
        }
      }
    }
  }

  lemma LastWordGrows(out: seq<Output>, o: Output)
    ensures LastWord(out + [o]) == if o.Sleep? then LastWord(out) else Some(o)
  {
    assert (out + [o])[..|out|] == out;
  }

  lemma StartsOverStep(c: Client, a: Action)
    requires GoneStartsOver(c)
    ensures GoneStartsOver(Step(c, a))
  {
    if a.StartErr? && c.mode.Starting? {
      assert c.out + [Start(c.rv), Report(a.kind)] == c.out + [Start(c.rv)] + [Report(a.kind)];
      LastWordGrows(c.out + [Start(c.rv)], Report(a.kind));
    } else if |Step(c, a).out| > |c.out| {
      var o := Step(c, a).out[|c.out|];
      assert Step(c, a).out == c.out + [o];
      LastWordGrows(c.out, o);
    }
  }

  lemma TraceStep(c: Client, a: Action)
    requires TraceOk(c)
    ensures TraceOk(Step(c, a))
  {
    var more := StepEmits(c, a);
    AnnouncedStep(c, Step(c, a), more);
    EmptyStep(c, Step(c, a), more);
    StartsOverStep(c, a);
  }

  /** For every environment: an error is reported before any event of a restarted watch is forwarded. */
  lemma {:induction false} RestartIsReported(script: seq<Action>)
    ensures TraceOk(Run(INIT_CLIENT, script))
  {
    if script != [] {
      RestartIsReported(script[..|script| - 1]);
      TraceStep(Run(INIT_CLIENT, script[..|script| - 1]), script[|script| - 1]);
    }
  }
}
