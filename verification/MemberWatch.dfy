/** The watch client run against a member's log: what the forwarded events fold to, over every run. */
module MemberWatch {

  import opened Common
  import opened WatchLog
  import opened ResilientWatch

  /** The server's side of one watch. A watch opened without a resourceVersion first replays the objects
      of the state at n, in any order and each with its own version, and then follows the log from n; one
      opened at v follows it from v. */
  datatype Session = Idle | Replay(n: nat, done: set<Key>) | Live(pos: nat)

  /** from, stale and gaps are history variables: a version the view is known to continue from, the keys that
      were deleted while a 410 kept the client from seeing it, and the stretches of the log that were passed
      over by starting from scratch. */
  datatype World = World(log: seq<Entry>, client: Client, session: Session,
                         from: nat, stale: set<Key>, gaps: set<(nat, nat)>)

  datatype WorldAction = Append(entry: Entry) | Do(action: Action)

  const INIT_WORLD := World([], INIT_CLIENT, Idle, 0, {}, {})

  /** The UI's picture: the forwarded events folded in order. */
  function Folded(out: seq<Output>): View {
    if out == [] then map[]
    else
      var before := Folded(out[..|out| - 1]);
      if out[|out| - 1].Forward? then ApplyOne(before, out[|out| - 1].entry) else before
  }

  function ViewOf(w: World): View {
    Folded(w.client.out)
  }

  predicate SawGone(out: seq<Output>) {
    Report(Gone) in out
  }

  function Snapshot(w: World): View
    requires w.session.Replay? && w.session.n <= |w.log|
  {
    State(w.log[..w.session.n])
  }

  /** The replay of the object at k, with the object's own version. */
  ghost predicate Replays(w: World, e: Entry, version: Option<nat>)
    requires w.session.Replay? && w.session.n <= |w.log|
  {
    && e.Put? && e.key in Snapshot(w) && e.key !in w.session.done
    && e.val == Snapshot(w)[e.key]
    && version == Some(Version(w.log[..w.session.n], e.key))
  }

  /** The next selected change at or after the watch's position. */
  ghost predicate Follows(w: World, e: Entry, version: Option<nat>)
    requires w.session.Live?
  {
    && version.Some? && w.session.pos < version.value <= |w.log|
    && w.log[version.value - 1] == e && !e.Other?
    && Quiet(w.log[w.session.pos..version.value - 1])
  }

  ghost predicate BookmarkOk(w: World, version: Option<nat>) {
    version.None? || (w.session.Live? && w.session.pos <= version.value <= |w.log|
                      && Quiet(w.log[w.session.pos..version.value]))
  }

  /** A replay is under way, and the client could not resume from the version it has stored: an object still
      to come has not changed since, and is not shown as it is. */
  ghost predicate MidReplay(w: World) {
    && w.session.Replay? && w.client.rv.Some?
    && !(w.client.rv.value <= w.session.n <= |w.log|
         && CutOk(ViewOf(w), w.log, w.session.n, w.session.done, w.client.rv.value))
  }

  /** The server's half of the contract. A 410, a cancelled context and a declined event may come at any
      time. A replay is cut by anything else only where that is safe, which ReplayCutIff shows is needed. */
  ghost predicate ServerAllows(w: World, a: Action) {
    match (w.client.mode, a)
    case (Draining(_), Recv(Change(e, v), _)) =>
      if w.session.Replay? then w.session.n <= |w.log| && Replays(w, e, v)
      else w.session.Live? && Follows(w, e, v)
    case (Draining(_), Recv(Bookmark(v), _)) => BookmarkOk(w, v)
    case (Draining(_), Recv(ErrorEvent(Gone), _)) => true
    case (Draining(_), Recv(ErrorEvent(_), _)) => !MidReplay(w)
    case (Draining(_), Closed) => !MidReplay(w)
    case _ => true
  }

  ghost function KeysDeletedSince(w: World): set<Key> {
    set k | k in ViewOf(w) && w.from <= |w.log| && Deletes(w.log[w.from..], k)
  }

  ghost function OpenWatch(w: World): World {
    if w.client.rv.Some? then w.(client := Step(w.client, StartOk), session := Live(w.client.rv.value))
    else
      w.(client := Step(w.client, StartOk),
         session := if State(w.log) == map[] then Live(|w.log|) else Replay(|w.log|, {}),
         stale := w.stale + KeysDeletedSince(w), gaps := w.gaps + {(w.from, |w.log|)})
  }

  ghost function Deliver(w: World, a: Action): World
    requires a.Recv? && a.event.Change? && a.event.version.Some?
    requires w.session.Replay? ==> w.session.n <= |w.log|
    requires w.session.Replay? ==> !a.event.entry.Other?
  {
    var c, v := Step(w.client, a), a.event.version.value;
    match w.session
    case Replay(n, done) =>
      var done' := done + {a.event.entry.key};
      if done' == Snapshot(w).Keys then w.(client := c, session := Live(n), from := v)
      else w.(client := c, session := Replay(n, done'))
    case _ => w.(client := c, session := Live(v), from := v)
  }

  /** The watch is over; a version the client keeps is where it will resume. */
  function EndWatch(w: World, c: Client): World {
    w.(client := c, session := Idle, from := if c.rv.Some? then c.rv.value else w.from)
  }

  ghost predicate Next(w: World, a: WorldAction, w': World) {
    match a
    case Append(e) => w' == w.(log := w.log + [e])
    case Do(act) =>
      && ServerAllows(w, act)
      && w' == match (w.client.mode, act)
               case (Starting, StartOk) => OpenWatch(w)
               case (Draining(_), Recv(Change(_, _), _)) => Deliver(w, act)
               case (Draining(_), Recv(Bookmark(Some(b)), _)) =>
                 w.(client := Step(w.client, act), session := Live(b), from := b)
               case (Draining(_), Recv(Bookmark(None), _)) => w.(client := Step(w.client, act))
               case (Draining(_), Recv(ErrorEvent(_), _)) => EndWatch(w, Step(w.client, act))
               case (Draining(_), Closed) => EndWatch(w, Step(w.client, act))
               case _ => w.(client := Step(w.client, act))
  }

  ghost predicate IsRun(ws: seq<World>, acts: seq<WorldAction>) {
    && |ws| == |acts| + 1 && ws[0] == INIT_WORLD
    && forall i :: 0 <= i < |acts| ==> Next(ws[i], acts[i], ws[i + 1])
  }

  // ----- The invariant -----

  ghost predicate SessionOk(w: World) {
    match w.session
    case Idle => !w.client.mode.Draining?
    case Live(pos) => Agrees(ViewOf(w), w.log, pos, w.stale)
    case Replay(n, done) =>
      && w.from <= n <= |w.log| && done < Snapshot(w).Keys
      && (w.client.rv.Some? ==> w.client.rv.value <= n)
      && ViewOf(w).Keys - Snapshot(w).Keys <= w.stale
      && forall k :: k in done ==> Look(ViewOf(w), k) == Look(Snapshot(w), k)
  }

  /** How much of the log the view accounts for, but for deletions a start from scratch passed over. */
  function Known(w: World): nat {
    match w.session
    case Idle => w.from
    case Replay(n, _) => n
    case Live(pos) => pos
  }

  /** k's last change lies in a stretch of the log that was passed over. */
  ghost predicate InGap(w: World, k: Key) {
    exists a, b :: (a, b) in w.gaps && a < Version(w.log, k) <= b
  }

  ghost predicate GapsOk(w: World) {
    && w.from <= Known(w) <= |w.log|
    && forall k :: k in ViewOf(w) && k !in State(w.log) && Version(w.log, k) <= Known(w) ==> InGap(w, k)
  }

  ghost predicate Inv(w: World) {
    && Agrees(ViewOf(w), w.log, w.from, w.stale)
    && SessionOk(w)
    && (w.client.rv.Some? && !w.session.Replay? ==> w.client.rv.value == w.from)
    && GapsOk(w)
    && (w.client.mode.Starting? || w.client.mode.Sleeping? ==> w.session.Idle?)
    && (!SawGone(w.client.out) ==> w.stale == {} && (w.client.rv.None? ==> ViewOf(w) == map[]))
  }

  lemma FoldedGrows(out: seq<Output>, o: Output)
    ensures Folded(out + [o]) == if o.Forward? then ApplyOne(Folded(out), o.entry) else Folded(out)
  {
    assert (out + [o])[..|out|] == out;
  }

  /** Only forwarding an event changes the view. */
  lemma StepView(c: Client, a: Action)
    ensures Folded(Step(c, a).out) ==
            if c.mode.Draining? && a.Recv? && a.event.Change? then ApplyOne(Folded(c.out), a.event.entry)
            else Folded(c.out)
    ensures SawGone(c.out) ==> SawGone(Step(c, a).out)
    ensures c.rv.Some? && Step(c, a).rv.None? ==> SawGone(Step(c, a).out)
  {
    if a.StartErr? && c.mode.Starting? {
      assert c.out + [Start(c.rv), Report(a.kind)] == c.out + [Start(c.rv)] + [Report(a.kind)];
      FoldedGrows(c.out, Start(c.rv));
      FoldedGrows(c.out + [Start(c.rv)], Report(a.kind));
    } else if |Step(c, a).out| > |c.out| {
      var o := Step(c, a).out[|c.out|];
      assert Step(c, a).out == c.out + [o];
      FoldedGrows(c.out, o);
    }
  }

  lemma AppendKeeps(w: World, e: Entry)
    requires Inv(w)
    ensures Inv(w.(log := w.log + [e]))
  {
    AgreesGrows(ViewOf(w), w.log, w.from, w.stale, e);
    if w.session.Live? { AgreesGrows(ViewOf(w), w.log, w.session.pos, w.stale, e); }
    if w.session.Replay? { assert (w.log + [e])[..w.session.n] == w.log[..w.session.n]; }
    AppendGaps(w, e);
  }

  lemma AppendGaps(w: World, e: Entry)
    requires GapsOk(w)
    ensures GapsOk(w.(log := w.log + [e]))
  {
    var w' := w.(log := w.log + [e]);
    assert w'.log[..|w.log|] == w.log;
    forall k | k in ViewOf(w') && k !in State(w'.log) && Version(w'.log, k) <= Known(w') ensures InGap(w', k) {
      assert !Touches(e, k) && k !in State(w.log);
      assert InGap(w, k);
    }
  }

  /** After a restart from scratch the client shows nothing the server lacks but keys deleted in the gap. */
  lemma OnlyDeletedKeysLeft(w: World)
    requires Inv(w)
    ensures ViewOf(w).Keys - State(w.log).Keys <= w.stale + KeysDeletedSince(w)
  {
    forall k | k in ViewOf(w) && k !in State(w.log) ensures k in w.stale + KeysDeletedSince(w) {
      LeftoverWasDeleted(ViewOf(w), w.log, w.from, w.stale, k);
    }
  }

  lemma OpenKeeps(w: World)
    requires Inv(w) && w.client.mode.Starting?
    ensures Inv(OpenWatch(w))
  {
    var w' := OpenWatch(w);
    StepView(w.client, StartOk);
    AgreesWiden(ViewOf(w), w.log, w.from, w.stale, w'.stale);
    OpenGaps(w);
    if w.client.rv.None? {
      OnlyDeletedKeysLeft(w);
      assert w.log[..|w.log|] == w.log;
      if State(w.log) == map[] {
        ResumeFrom(ViewOf(w), w.log, |w.log|, |w.log|, w'.stale);
      }
    }
  }

  lemma OpenGaps(w: World)
    requires Inv(w) && w.client.mode.Starting?
    ensures GapsOk(OpenWatch(w))
  {
    var w' := OpenWatch(w);
    StepView(w.client, StartOk);
    forall k | k in ViewOf(w') && k !in State(w'.log) && Version(w'.log, k) <= Known(w') ensures InGap(w', k) {
      if Version(w.log, k) <= w.from {
        assert InGap(w, k);
        var a, b :| (a, b) in w.gaps && a < Version(w.log, k) <= b;
        assert (a, b) in w'.gaps;
      } else {
        VersionIsLastChange(w.log, |w.log|, k);
        assert (w.from, |w.log|) in w'.gaps;
      }
    }
  }

  lemma ReplayKeeps(w: World, a: Action)
    requires Inv(w) && w.client.mode.Draining? && w.session.Replay?
    requires a.Recv? && a.event.Change? && ServerAllows(w, a)
    ensures Inv(Deliver(w, a))
  {
    var n, k, v := w.session.n, a.event.entry.key, a.event.version.value;
    var snap := w.log[..n];
    var w' := Deliver(w, a);
    StepView(w.client, a);
    VersionIsLastChange(snap, n, k);
    assert ViewOf(w') == ViewOf(w)[k := State(snap)[k]];
    ReceiveObject(ViewOf(w), w.log, w.from, n, w.stale, k);
    ReplayGaps(w, a);
    if w'.session.Live? {
      ResumeFrom(ViewOf(w'), w.log, n, v, w.stale);
      ResumeFrom(ViewOf(w'), w.log, n, n, w.stale);
    }
  }

  lemma ReplayGaps(w: World, a: Action)
    requires Inv(w) && w.client.mode.Draining? && w.session.Replay?
    requires a.Recv? && a.event.Change? && ServerAllows(w, a)
    ensures GapsOk(Deliver(w, a))
  {
    var n, key, w' := w.session.n, a.event.entry.key, Deliver(w, a);
    StepView(w.client, a);
    VersionIsLastChange(w.log[..n], n, key);
    forall k | k in ViewOf(w') && k !in State(w'.log) && Version(w'.log, k) <= Known(w') ensures InGap(w', k) {
      VersionIsLastChange(w.log, n, k);
      if k == key { UnchangedSince(w.log, n, n, k); }
      assert InGap(w, k);
    }
  }

  lemma FollowKeeps(w: World, a: Action)
    requires Inv(w) && w.client.mode.Draining? && w.session.Live?
    requires a.Recv? && a.event.Change? && ServerAllows(w, a)
    ensures Inv(Deliver(w, a))
  {
    StepView(w.client, a);
    ResumeAfter(ViewOf(w), w.log, w.session.pos, a.event.version.value - 1, w.stale);
    FollowGaps(w, a);
  }

  lemma FollowGaps(w: World, a: Action)
    requires Inv(w) && w.client.mode.Draining? && w.session.Live?
    requires a.Recv? && a.event.Change? && ServerAllows(w, a)
    ensures GapsOk(Deliver(w, a))
  {
    var pos, v, w' := w.session.pos, a.event.version.value, Deliver(w, a);
    StepView(w.client, a);
    forall k | k in ViewOf(w') && k !in State(w'.log) && Version(w'.log, k) <= v ensures InGap(w', k) {
      VersionIsLastChange(w.log, v, k);
      VersionIsLastChange(w.log, pos, k);
      FollowedVersion(w.log, pos, v, k);
      assert InGap(w, k);
    }
  }

  /** Over entries the watch does not select and one it does, no other key's version moves. */
  lemma FollowedVersion(log: seq<Entry>, pos: nat, v: nat, k: Key)
    requires pos < v <= |log| && Quiet(log[pos..v - 1]) && Version(log, k) <= v
    ensures !Touches(log[v - 1], k) ==> Version(log, k) <= pos
    ensures Touches(log[v - 1], k) ==> Look(State(log), k) == if log[v - 1].Put? then Some(log[v - 1].val) else None
  {
    VersionIsLastChange(log, v, k);
    VersionIsLastChange(log, pos, k);
    var between := log[pos..v - 1];
    assert log[pos..] == between + [log[v - 1]] + log[v..];
    LastChangeConcat(between + [log[v - 1]], log[v..], k);
    LastChangeConcat(between, [log[v - 1]], k);
    QuietChangesNothing(between, k);
    assert [log[v - 1]][..0] == [];
    LastChangeSplit(log, pos, k);
    LookApply(map[], log, k);
  }

  lemma BookmarkKeeps(w: World, a: Action, w': World)
    requires Inv(w) && Next(w, Do(a), w')
    requires w.client.mode.Draining? && a.Recv? && a.event.Bookmark?
    ensures Inv(w')
  {
    StepView(w.client, a);
    if a.event.version.Some? {
      ResumeOverQuiet(ViewOf(w), w.log, w.session.pos, a.event.version.value, w.stale);
      BookmarkGaps(w, a.event.version.value, w');
    } else {
      SameGaps(w, w');
    }
  }

  lemma BookmarkGaps(w: World, b: nat, w': World)
    requires GapsOk(w) && w.session.Live? && w.session.pos <= b <= |w.log| && Quiet(w.log[w.session.pos..b])
    requires w'.log == w.log && ViewOf(w') == ViewOf(w) && w'.gaps == w.gaps && w'.session == Live(b) && w'.from == b
    ensures GapsOk(w')
  {
    var pos := w.session.pos;
    forall k | k in ViewOf(w') && k !in State(w'.log) && Version(w'.log, k) <= b ensures InGap(w', k) {
      VersionIsLastChange(w.log, b, k);
      VersionIsLastChange(w.log, pos, k);
      assert w.log[pos..] == w.log[pos..b] + w.log[b..];
      LastChangeConcat(w.log[pos..b], w.log[b..], k);
      QuietChangesNothing(w.log[pos..b], k);
      assert InGap(w, k);
    }
  }

  /** Knowing no more than before is no harm. */
  lemma SameGaps(w: World, w': World)
    requires GapsOk(w) && w'.log == w.log && ViewOf(w') == ViewOf(w) && w'.gaps == w.gaps
    requires w'.from <= Known(w') <= Known(w)
    ensures GapsOk(w')
  {
    forall k | k in ViewOf(w') && k !in State(w'.log) && Version(w'.log, k) <= Known(w') ensures InGap(w', k) {
      assert InGap(w, k);
    }
  }

  /** The watch ends: it closes, or reports an error. */
  lemma EndKeeps(w: World, a: Action, w': World)
    requires Inv(w) && Next(w, Do(a), w')
    requires w.client.mode.Draining? && !(a.Recv? && !a.event.ErrorEvent?)
    ensures Inv(w')
  {
    StepView(w.client, a);
    SameGaps(w, w');
    if w.session.Replay? && w'.session.Idle? && w'.client.rv.Some? { SafeCutAgrees(w); }
  }

  lemma SafeCutAgrees(w: World)
    requires SessionOk(w) && w.session.Replay? && w.client.rv.Some? && !MidReplay(w)
    ensures Agrees(ViewOf(w), w.log, w.client.rv.value, w.stale)
  {
    CutAgrees(ViewOf(w), w.log, w.session.n, w.session.done, w.client.rv.value, w.stale);
  }

  /** The client starts, sleeps or has stopped. */
  lemma WaitKeeps(w: World, a: Action, w': World)
    requires Inv(w) && Next(w, Do(a), w')
    requires !w.client.mode.Draining? && !(w.client.mode.Starting? && a.StartOk?)
    ensures Inv(w')
  {
    StepView(w.client, a);
    SameGaps(w, w');
  }

  lemma NextKeeps(w: World, a: WorldAction, w': World)
    requires Inv(w) && Next(w, a, w')
    ensures Inv(w')
  {
    match a {
      case Append(e) => AppendKeeps(w, e);
      case Do(act) =>
        if w.client.mode.Draining? {
          if act.Recv? && act.event.Change? {
            if w.session.Replay? { ReplayKeeps(w, act); } else { FollowKeeps(w, act); }
          } else if act.Recv? && act.event.Bookmark? {
            BookmarkKeeps(w, act, w');
          } else {
            EndKeeps(w, act, w');
          }
        } else if w.client.mode.Starting? && act.StartOk? {
          OpenKeeps(w);
        } else {
          WaitKeeps(w, act, w');
        }
    }
  }

  lemma {:induction false} RunKeeps(ws: seq<World>, acts: seq<WorldAction>)
    requires IsRun(ws, acts)
    ensures Inv(ws[|acts|])
  {
    if acts == [] {
      forall k ensures AgreesAt(map[], [], 0, {}, k) {}
    } else {
      RunKeeps(ws[..|acts|], acts[..|acts| - 1]);
      NextKeeps(ws[|acts| - 1], acts[|acts| - 1], ws[|acts|]);
    }
  }

  // ----- Main results -----

  /** However often the watch closes, fails or reconnects, the log after the stored resourceVersion,
      applied to the folded view, gives the server's state, so no change is ever skipped. A 410 weakens
      this only by the keys that were deleted while it hid them. */
  lemma NothingSkipped(ws: seq<World>, acts: seq<WorldAction>)
    requires IsRun(ws, acts)
    requires ws[|acts|].client.rv.Some? && !MidReplay(ws[|acts|])
    ensures var w := ws[|acts|];
            && Agrees(ViewOf(w), w.log, w.client.rv.value, w.stale)
            && (!SawGone(w.client.out) ==> Apply(ViewOf(w), w.log[w.client.rv.value..]) == State(w.log))
  {
    var w := ws[|acts|];
    RunKeeps(ws, acts);
    if w.session.Replay? {
      CutAgrees(ViewOf(w), w.log, w.session.n, w.session.done, w.client.rv.value, w.stale);
    }
    if !SawGone(w.client.out) { AgreesExactly(ViewOf(w), w.log, w.client.rv.value); }
  }

  /** A replay in version order can be cut anywhere. */
  lemma InOrderIsSafe(w: World, a: Action)
    requires Inv(w) && w.client.mode.Draining? && w.session.Replay?
    requires a.Recv? && a.event.Change? && ServerAllows(w, a)
    requires forall k :: k in Snapshot(w) && k !in w.session.done ==>
               a.event.version.value <= Version(w.log[..w.session.n], k)
    ensures !MidReplay(Deliver(w, a))
  {
    var n, key, v, w' := w.session.n, a.event.entry.key, a.event.version.value, Deliver(w, a);
    var snap := w.log[..n];
    VersionIsLastChange(snap, n, key);
    forall k | k in State(snap) && k !in w.session.done + {key} ensures LastChange(w.log[v..], k).Some? {
      if Version(snap, k) == Version(snap, key) { VersionsDistinct(snap, k, key); }
      VersionIsLastChange(snap, v, k);
      assert w.log[v..] == snap[v..] + w.log[n..];
      LastChangeConcat(snap[v..], w.log[n..], k);
    }
  }

  /** In every run, at every point of every replay: the client could resume from the version it has stored if
      and only if every object still to come has changed after that version, or is shown as it is. Without a 410
      nothing is shown from before, and the log after the stored version then gives exactly the server's state. */
  lemma ReplayCutIff(ws: seq<World>, acts: seq<WorldAction>)
    requires IsRun(ws, acts)
    requires var w := ws[|acts|]; w.session.Replay? && w.client.rv.Some?
    ensures var w := ws[|acts|];
            && w.client.rv.value <= w.session.n <= |w.log|
            && (Agrees(ViewOf(w), w.log, w.client.rv.value, w.stale)
                <==> CutOk(ViewOf(w), w.log, w.session.n, w.session.done, w.client.rv.value))
            && (!SawGone(w.client.out) ==>
                  (Apply(ViewOf(w), w.log[w.client.rv.value..]) == State(w.log)
                   <==> CutOk(ViewOf(w), w.log, w.session.n, w.session.done, w.client.rv.value)))
  {
    var w := ws[|acts|];
    RunKeeps(ws, acts);
    CutReplayIff(ViewOf(w), w.log, w.session.n, w.session.done, w.client.rv.value, w.stale);
    AgreesIsEqual(ViewOf(w), w.log, w.client.rv.value);
  }

  /** A client whose watch has nothing left to deliver shows the server's state, up to the keys deleted
      while a 410 hid it; exactly that state when there was no 410. */
  lemma CaughtUp(ws: seq<World>, acts: seq<WorldAction>)
    requires IsRun(ws, acts)
    requires var w := ws[|acts|]; w.session.Live? && w.session.pos <= |w.log| && Quiet(w.log[w.session.pos..])
    ensures var w := ws[|acts|];
            && (forall k :: k in State(w.log) ==> Look(ViewOf(w), k) == Look(State(w.log), k))
            && ViewOf(w).Keys - State(w.log).Keys <= w.stale
            && (!SawGone(w.client.out) ==> ViewOf(w) == State(w.log))
  {
    var w := ws[|acts|];
    RunKeeps(ws, acts);
    var view, rest := ViewOf(w), w.log[w.session.pos..];
    forall k ensures Look(view, k) == Look(State(w.log), k) || (k !in State(w.log) && k in w.stale) {
      assert AgreesAt(view, w.log, w.session.pos, w.stale, k);
      LookApply(view, rest, k);
      QuietChangesNothing(rest, k);
    }
    forall k | k in view && k !in State(w.log) ensures k in w.stale {
      assert Look(view, k) != Look(State(w.log), k);
    }
    if !SawGone(w.client.out) {
      assert forall k :: k in view ==> Look(view, k) == Look(State(w.log), k);
      assert forall k :: k in State(w.log) ==> Look(view, k) == Look(State(w.log), k);
    }
  }

  /** The stale keys really were deleted: each has a Delete in the log. */
  lemma {:induction false} StaleWereDeleted(ws: seq<World>, acts: seq<WorldAction>, k: Key)
    requires IsRun(ws, acts) && k in ws[|acts|].stale
    ensures Deletes(ws[|acts|].log, k)
  {
    if acts != [] {
      var w := ws[|acts| - 1];
      assert Next(w, acts[|acts| - 1], ws[|acts|]);
      if k in w.stale {
        StaleWereDeleted(ws[..|acts|], acts[..|acts| - 1], k);
      } else {
        assert k in KeysDeletedSince(w);
      }
    }
  }

  /** A key a caught-up client still shows although the server has dropped it was changed last, by a delete, in
      a stretch of the log that a start from scratch passed over. */
  lemma LeftoverDiedInGap(ws: seq<World>, acts: seq<WorldAction>, k: Key)
    requires IsRun(ws, acts)
    requires var w := ws[|acts|]; w.session.Live? && w.session.pos <= |w.log| && Quiet(w.log[w.session.pos..])
    requires k in ViewOf(ws[|acts|]) && k !in State(ws[|acts|].log)
    ensures var w := ws[|acts|];
            exists a, b :: (a, b) in w.gaps && a < Version(w.log, k) <= b <= |w.log|
                        && w.log[Version(w.log, k) - 1] == Delete(k)
  {
    var w := ws[|acts|];
    RunKeeps(ws, acts);
    GapsAreInLog(ws, acts);
    VersionIsLastChange(w.log, w.session.pos, k);
    QuietChangesNothing(w.log[w.session.pos..], k);
    assert InGap(w, k);
    var a, b :| (a, b) in w.gaps && a < Version(w.log, k) <= b;
    LastIsDelete(w.log, k);
  }

  lemma {:induction false} LastIsDelete(log: seq<Entry>, k: Key)
    requires k !in State(log) && Version(log, k) > 0
    ensures Version(log, k) <= |log| && log[Version(log, k) - 1] == Delete(k)
  {
    var last := |log| - 1;
    if !Touches(log[last], k) { LastIsDelete(log[..last], k); }
  }

  /** Every gap runs from a version the client had to the end of the log when it started from scratch. */
  lemma {:induction false} GapsAreInLog(ws: seq<World>, acts: seq<WorldAction>)
    requires IsRun(ws, acts)
    ensures forall a, b :: (a, b) in ws[|acts|].gaps ==> a <= b <= |ws[|acts|].log|
  {
    if acts != [] {
      var w := ws[|acts| - 1];
      RunKeeps(ws[..|acts|], acts[..|acts| - 1]);
      GapsAreInLog(ws[..|acts|], acts[..|acts| - 1]);
      assert Next(w, acts[|acts| - 1], ws[|acts|]);
    }
  }

  const OLDER := Put("a", "x")
  const NEWER := Put("b", "y")

  lemma TwoObjects()
    ensures State([OLDER, NEWER]) == map["a" := "x", "b" := "y"] && Version([OLDER, NEWER], "b") == 2
  {
    var none: seq<Entry> := [];
    assert [OLDER, NEWER][..1] == [OLDER] && [OLDER][..0] == none && State(none) == map[];
    assert State([OLDER]) == map["a" := "x"];
  }

  /** The client opens its first watch on the two objects. */
  lemma OpenOnTwo() returns (w: World)
    ensures w == OpenWatch(INIT_WORLD.(log := [OLDER, NEWER]))
    ensures w.log == [OLDER, NEWER] && w.session == Replay(2, {})
    ensures w.client == Client(None, RETRY_INITIAL, Draining(false), [Start(None)]) && ViewOf(w) == map[]
  {
    TwoObjects();
    assert "a" in State([OLDER, NEWER]);
    w := OpenWatch(INIT_WORLD.(log := [OLDER, NEWER]));
    assert [] + [Start(None)] == [Start(None)];
    StepView(INIT_CLIENT, StartOk);
  }

  /** The newer object is replayed first. */
  lemma NewerFirst() returns (w: World, w': World)
    ensures w == OpenWatch(INIT_WORLD.(log := [OLDER, NEWER]))
    ensures w.client.mode.Draining? && Next(w, Do(Recv(Change(NEWER, Some(2)), true)), w')
    ensures w'.log == [OLDER, NEWER] && w'.session == Replay(2, {"b"}) && w'.client.rv == Some(2)
    ensures ViewOf(w') == map["b" := "y"]
  {
    w := OpenOnTwo();
    TwoObjects();
    var got := Recv(Change(NEWER, Some(2)), true);
    assert w.log[..2] == w.log;
    assert Snapshot(w) == map["a" := "x", "b" := "y"];
    assert "a" in Snapshot(w) && "a" !in {"b"};
    w' := Deliver(w, got);
    StepView(w.client, got);
  }

  /** A run that shows why the order matters: two objects, the newer one replayed first. If the watch closed now,
      the client would resume from version 2 and never hear of the older one. */
  lemma UnsafeCutExample() returns (ws: seq<World>, acts: seq<WorldAction>)
    ensures IsRun(ws, acts)
    ensures var w := ws[|acts|];
            && w.session.Replay? && w.client.rv == Some(2) && |w.log| == 2 && MidReplay(w)
            && Apply(ViewOf(w), w.log[2..]) == map["b" := "y"] && State(w.log) == map["a" := "x", "b" := "y"]
  {
    var w3, w4 := NewerFirst();
    var w1, w2 := INIT_WORLD.(log := [OLDER]), INIT_WORLD.(log := [OLDER, NEWER]);
    assert INIT_WORLD.log + [OLDER] == [OLDER] && [OLDER] + [NEWER] == [OLDER, NEWER];
    acts := [Append(OLDER), Append(NEWER), Do(StartOk), Do(Recv(Change(NEWER, Some(2)), true))];
    ws := [INIT_WORLD, w1, w2, w3, w4];
    assert Next(w2, acts[2], w3);
    TwoObjects();
    assert w4.log[2..] == [] && w4.log[..2] == w4.log;
    assert "a" in State(w4.log) && Look(ViewOf(w4), "a").None?;
  }
}
