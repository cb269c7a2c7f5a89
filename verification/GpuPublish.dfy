/** Publishing a node's GPU status with optimistic locking, next to a controller that writes at any time:
    cmd/gpu-discovery/main.go. */
module GpuPublish {

  import opened Common
  import opened GpuStatus

  /** A JSON merge patch (section 2 of RFC 7396) over the status: a member that is None is not sent. */
  datatype MergePatch = MergePatch(phase: Option<string>, host: Option<int>, gpus: Option<seq<Gpu>>,
                                   gpuCount: Option<nat>, freeGpus: Option<nat>, gpuModel: Option<string>,
                                   gpuVendor: Option<string>, fabric: Option<Option<Fabric>>)

  function Changed<T(==)>(from: T, to: T): Option<T> {
    if from == to then None else Some(to)
  }

  function Updated<T>(current: T, sent: Option<T>): T {
    if sent.Some? then sent.value else current
  }

  /** client.MergeFrom: the members that differ. */
  function Diff(from: Status, to: Status): MergePatch {
    MergePatch(Changed(from.phase, to.phase), Changed(from.host, to.host), Changed(from.gpus, to.gpus),
               Changed(from.gpuCount, to.gpuCount), Changed(from.freeGpus, to.freeGpus),
               Changed(from.gpuModel, to.gpuModel), Changed(from.gpuVendor, to.gpuVendor),
               Changed(from.fabric, to.fabric))
  }

  function ApplyPatch(s: Status, p: MergePatch): Status {
    Status(Updated(s.phase, p.phase), Updated(s.host, p.host), Updated(s.gpus, p.gpus),
           Updated(s.gpuCount, p.gpuCount), Updated(s.freeGpus, p.freeGpus),
           Updated(s.gpuModel, p.gpuModel), Updated(s.gpuVendor, p.gpuVendor), Updated(s.fabric, p.fabric))
  }

  datatype Writer = Discovery | PhasePatch | Controller

  datatype Write = Write(who: Writer, before: Option<Status>, after: Option<Status>)

  /** What each kind of write may do to the stored object. A controller may do anything, create and delete
      included, as long as it keeps FreeGPUs right. */
  ghost predicate WriteOk(w: Write) {
    && (w.after.Some? && w.before.Some? && FreeExact(w.before.value) ==> FreeExact(w.after.value))
    && (w.who == Discovery ==>
          w.before.Some? && w.after.Some?
          && FreeExact(w.after.value)
          && KeepsAllocations(w.before.value, w.after.value)
          && NewAreFree(w.before.value, w.after.value))
    && (w.who == PhasePatch ==>
          w.before.Some? && w.after.Some? && w.after.value == w.before.value.(phase := w.after.value.phase))
  }

  /** A merge of base: every allocation kept, new GPUs free, the free ones counted. */
  ghost predicate MergeOf(base: Status, s: Status) {
    FreeExact(s) && KeepsAllocations(base, s) && NewAreFree(base, s)
  }

  lemma MergeIsOk(base: Status, s: Status)
    requires MergeOf(base, s)
    ensures WriteOk(Write(Discovery, Some(base), Some(s)))
  {
  }

  lemma PatchOfBase(base: Status, s: Status)
    ensures ApplyPatch(base, Diff(base, s)) == s
  {
  }

  ghost predicate LogOk(log: seq<Write>) {
    forall i :: 0 <= i < |log| ==> WriteOk(log[i])
  }

  function Discoveries(log: seq<Write>): nat {
    if log == [] then 0
    else Discoveries(log[..|log| - 1]) + if log[|log| - 1].who == Discovery then 1 else 0
  }

  lemma Logged(log: seq<Write>, w: Write)
    requires LogOk(log) && WriteOk(w)
    ensures LogOk(log + [w])
    ensures Discoveries(log + [w]) == Discoveries(log) + if w.who == Discovery then 1 else 0
  {
    assert (log + [w])[..|log|] == log;
  }

  datatype Read = Found(status: Status, version: nat) | NotFound | Failed

  datatype Outcome = Done | Conflict | Refused

  /** The API server's SwiftGPUNode object. The controller may write before every request is served. */
  class ApiServer {
    var node: Option<Status>
    /** The resource version; every write takes a new one. */
    var version: nat
    ghost var log: seq<Write>
    /** What every read answered. */
    ghost var gets: seq<Read>
    /** Nobody else writes and no request fails. */
    const quiet: bool

    ghost predicate Valid()
      reads this
    {
      LogOk(log) && (node.Some? ==> FreeExact(node.value))
    }

    constructor (quiet: bool)
      ensures Valid() && node == None && log == [] && gets == [] && this.quiet == quiet
    {
      node, version, log, gets, this.quiet := None, 0, [], [], quiet;
    }

    method Store(who: Writer, after: Option<Status>)
      requires Valid() && WriteOk(Write(who, node, after)) && (after.Some? ==> FreeExact(after.value))
      modifies this
      ensures Valid() && node == after && version == old(version) + 1 && gets == old(gets)
      ensures log == old(log) + [Write(who, old(node), after)]
      ensures Discoveries(log) == old(Discoveries(log)) + if who == Discovery then 1 else 0
    {
      Logged(log, Write(who, node, after));
      log := log + [Write(who, node, after)];
      node, version := after, version + 1;
    }

    /** Any controller write, or none. */
    method Interfere()
      requires Valid()
      modifies this
      ensures Valid() && old(log) <= log && old(version) <= version && gets == old(gets)
      ensures version == old(version) ==> node == old(node)
      ensures Discoveries(log) == old(Discoveries(log))
      ensures quiet ==> node == old(node) && version == old(version)
    {
      var writes: bool :| quiet ==> !writes;
      if writes {
        var free: bool :| true;
        assert FreeExact(EMPTY_STATUS);
        var s: Status :| FreeExact(s);
        var after := if free then None else Some(s);
        Store(Controller, after);
      }
    }

    method Get() returns (r: Read)
      requires Valid()
      modifies this
      ensures Valid() && old(log) <= log && Discoveries(log) == old(Discoveries(log))
      ensures r.Found? ==> node == Some(r.status) && version == r.version
      ensures r.NotFound? ==> node == None
      ensures gets == old(gets) + [r]
      ensures quiet ==> !r.Failed? && node == old(node)
    {
      Interfere();
      var reached: bool :| quiet ==> reached;
      r := if !reached then Failed else if node.None? then NotFound else Found(node.value, version);
      gets := gets + [r];
    }

    /** Creates the object with an empty status; an existing one is an error. */
    method Create() returns (ok: bool)
      requires Valid()
      modifies this
      ensures Valid() && old(log) <= log && Discoveries(log) == old(Discoveries(log))
      ensures gets == old(gets)
      ensures quiet && old(node) == None ==> ok && node == Some(EMPTY_STATUS)
    {
      Interfere();
      ok :| quiet ==> ok;
      if node.Some? { return false; }
      var applied: bool :| ok ==> applied;
      if applied { Store(Controller, Some(EMPTY_STATUS)); }
    }

    /** A status patch that carries the version it was computed from. A request may be lost after it was
        applied. */
    method PatchLocked(read: nat, base: Status, s: Status) returns (r: Outcome)
      requires Valid() && read <= version && (read == version ==> node == Some(base))
      requires MergeOf(base, s)
      modifies this
      ensures Valid() && old(log) <= log && gets == old(gets)
      ensures Discoveries(log) <= old(Discoveries(log)) + 1
      ensures r.Conflict? ==> Discoveries(log) == old(Discoveries(log))
      ensures r.Done? ==> node == Some(s) && log != [] && log[|log| - 1] == Write(Discovery, Some(base), Some(s))
      ensures quiet && read == old(version) ==> r.Done?
    {
      Interfere();
      var reached: bool :| quiet ==> reached;
      if !reached || node.None? { return Refused; }
      if version != read { return Conflict; }
      var after := ApplyPatch(node.value, Diff(base, s));
      PatchOfBase(base, s);
      MergeIsOk(base, s);
      Store(Discovery, Some(after));
      var answered: bool :| quiet ==> answered;
      r := if answered then Done else Refused;
    }

    /** A status patch without a version. */
    method PatchUnlocked(base: Status, s: Status)
      requires Valid() && s == base.(phase := s.phase)
      modifies this
      ensures Valid() && old(log) <= log && Discoveries(log) == old(Discoveries(log))
      ensures quiet && old(node) == Some(base) ==> node == Some(s)
    {
      Interfere();
      var reached: bool :| quiet ==> reached;
      if !reached || node.None? { return; }
      var after := ApplyPatch(node.value, Diff(base, s));
      Store(PhasePatch, Some(after));
    }
  }

  /** A partition after the merges of a cycle, one for each status read. */
  function RememberAll(p: Partition, seen: seq<seq<Partition>>): Partition {
    if seen == [] then p
    else Remember(RememberAll(p, seen[..|seen| - 1]), seen[|seen| - 1])
  }

  /** Whom the last read that lists the partition gives it to. */
  function LastHolder(seen: seq<seq<Partition>>, id: int): Option<string> {
    if seen == [] then None
    else if HolderOf(seen[|seen| - 1], id).Some? then HolderOf(seen[|seen| - 1], id)
    else LastHolder(seen[..|seen| - 1], id)
  }

  lemma {:induction false} RememberAllIs(p: Partition, seen: seq<seq<Partition>>)
    ensures RememberAll(p, seen) == p.(allocatedTo := Updated(p.allocatedTo, LastHolder(seen, p.id)))
  {
    if seen != [] { RememberAllIs(p, seen[..|seen| - 1]); }
  }

  /** The slice is shared between the merges of one cycle, so the partition written is the one a fresh merge
      with the last read would give exactly when that read lists the partition, or no earlier read gave it
      to someone else than discovery did. Otherwise a holder the controller has dropped comes back. */
  lemma FreshMergeIff(p: Partition, earlier: seq<seq<Partition>>, last: seq<Partition>)
    ensures RememberAll(p, earlier + [last]) == Remember(p, last)
       <==> HolderOf(last, p.id).Some? || LastHolder(earlier, p.id) in [None, Some(p.allocatedTo)]
  {
    assert (earlier + [last])[..|earlier|] == earlier;
    RememberAllIs(p, earlier);
    RememberAllIs(p, earlier + [last]);
  }

  /** How the shared slice stands after merging with each of the states seen. */
  ghost predicate Carried(was: seq<Partition>, now: seq<Partition>, seen: seq<seq<Partition>>) {
    |now| == |was| && forall i :: 0 <= i < |was| ==> now[i] == RememberAll(was[i], seen)
  }

  lemma CarriedStep(was: seq<Partition>, mid: seq<Partition>, now: seq<Partition>,
                    seen: seq<seq<Partition>>, last: seq<Partition>)
    requires Carried(was, mid, seen)
    requires |now| == |mid| && forall i :: 0 <= i < |mid| ==> now[i] == Remember(mid[i], last)
    ensures Carried(was, now, seen + [last])
  {
    assert (seen + [last])[..|seen|] == seen;
  }

  /** The partitions of every status read, in order. */
  function Listed(gets: seq<Read>): seq<seq<Partition>> {
    if gets == [] then []
    else
      var last := gets[|gets| - 1];
      Listed(gets[..|gets| - 1]) + if last.Found? then [Partitions(last.status)] else []
  }

  /** The reads a cycle merges with: all of them, but for the one that follows the creation of a missing
      object. */
  function MergedReads(gets: seq<Read>): seq<seq<Partition>> {
    if |gets| >= 2 && gets[0].NotFound? then Listed(gets[2..]) else Listed(gets)
  }

  /** The cycle has read the object, and has created it if it was missing. */
  predicate Opened(gets: seq<Read>) {
    |gets| >= 1 && (gets[0].NotFound? ==> |gets| >= 2)
  }

  lemma MergedReadsGrow(gets: seq<Read>, r: Read)
    requires Opened(gets)
    ensures MergedReads(gets + [r]) == MergedReads(gets) + if r.Found? then [Partitions(r.status)] else []
  {
    assert (gets + [r])[..|gets|] == gets;
    if gets[0].NotFound? {
      assert (gets + [r])[2..] == gets[2..] + [r];
      assert (gets[2..] + [r])[..|gets[2..]|] == gets[2..];
    }
  }

  /** The slice holds what the cycle's merges have left in it. */
  ghost predicate Slice(d: Discovered, was: seq<Partition>, gets: seq<Read>)
    reads d.partitions
  {
    if d.hasFabric then Carried(was, d.partitions[..], MergedReads(gets)) else d.partitions[..] == was
  }

  const RETRY_STEPS := 5

  /** The write puts s in place of a status it was merged with, whose allocations it keeps; s is in error
      exactly when that status gives away a GPU that is gone. */
  ghost predicate Merged(w: Write, s: Status, d: Discovered) {
    && w.who == Discovery && w.before.Some? && w.after == Some(s) && MergeOf(w.before.value, s)
    && s.phase == if LostAllocated(w.before.value, d.gpus) then "Error" else "Ready"
  }

  /** The status shows the slice. */
  predicate ShowsSlice(s: Status, d: Discovered)
    reads d.partitions
  {
    d.hasFabric ==> s.fabric == Some(Fabric(d.fabricInfo, d.partitions[..]))
  }

  /** For every partition: what was written is a fresh merge with the last read, exactly when that read lists
      it or no earlier read of the cycle gave it to someone else. */
  ghost predicate FreshExactly(was: seq<Partition>, now: seq<Partition>, seen: seq<seq<Partition>>)
    requires seen != []
  {
    var earlier, last := seen[..|seen| - 1], seen[|seen| - 1];
    |now| == |was| && forall i :: 0 <= i < |was| ==>
      (now[i] == Remember(was[i], last)
       <==> HolderOf(last, was[i].id).Some? || LastHolder(earlier, was[i].id) in [None, Some(was[i].allocatedTo)])
  }

  lemma CarriedIsFresh(was: seq<Partition>, now: seq<Partition>, seen: seq<seq<Partition>>)
    requires seen != [] && Carried(was, now, seen)
    ensures FreshExactly(was, now, seen)
  {
    var earlier, last := seen[..|seen| - 1], seen[|seen| - 1];
    assert seen == earlier + [last];
    forall i | 0 <= i < |was| ensures now[i] == Remember(was[i], last)
       <==> HolderOf(last, was[i].id).Some? || LastHolder(earlier, was[i].id) in [None, Some(was[i].allocatedTo)]
    {
      FreshMergeIff(was[i], earlier, last);
    }
  }

  /** What was written, against the reads of the cycle: the last one is what the write replaced, and the
      partitions are a fresh merge with it exactly as FreshExactly says. */
  ghost predicate FreshWrite(d: Discovered, was: seq<Partition>, gets: seq<Read>, before: Status, s: Status) {
    var seen := MergedReads(gets);
    && seen != [] && seen[|seen| - 1] == Partitions(before)
    && (d.hasFabric ==> FreshExactly(was, Partitions(s), seen))
  }

  /** Reads the object and merges the hardware with it. from is where the cycle's reads begin. */
  method ReadAndMerge(api: ApiServer, d: Discovered, ghost was: seq<Partition>, ghost from: nat)
    returns (read: Read, s: Status)
    requires api.Valid() && from <= |api.gets| && Opened(api.gets[from..]) && Slice(d, was, api.gets[from..])
    modifies api, d.partitions
    ensures api.Valid() && old(api.log) <= api.log && Discoveries(api.log) == old(Discoveries(api.log))
    ensures read.Found? ==> api.node == Some(read.status) && api.version == read.version
    ensures read.Found? ==> MergeOf(read.status, s) && ShowsHardware(s, d) && ShowsSlice(s, d)
    ensures read.Found? ==> s.phase == if LostAllocated(read.status, d.gpus) then "Error" else "Ready"
    ensures api.quiet ==> !read.Failed? && api.node == old(api.node) && (read.NotFound? ==> api.node == None)
    ensures api.gets == old(api.gets) + [read] && Opened(api.gets[from..]) && Slice(d, was, api.gets[from..])
    ensures read.Found? ==> FreshWrite(d, was, api.gets[from..], read.status, s)
  {
    s := EMPTY_STATUS;
    ghost var gets, mid := api.gets[from..], d.partitions[..];
    read := api.Get();
    assert api.gets[from..] == gets + [read];
    MergedReadsGrow(gets, read);
    if !read.Found? {
      assert MergedReads(gets) + [] == MergedReads(gets);
      return;
    }
    s := MergeStatus(d, read.status);
    if d.hasFabric {
      CarriedStep(was, mid, d.partitions[..], MergedReads(gets), Partitions(read.status));
      CarriedIsFresh(was, d.partitions[..], MergedReads(gets + [read]));
    }
  }

  /** One turn of the retry loop: read, merge, patch. */
  method TryPublish(api: ApiServer, d: Discovered, ghost was: seq<Partition>, ghost from: nat)
    returns (s: Status, r: Outcome)
    requires api.Valid() && from <= |api.gets| && Opened(api.gets[from..]) && Slice(d, was, api.gets[from..])
    modifies api, d.partitions
    ensures api.Valid() && old(api.log) <= api.log
    ensures Discoveries(api.log) <= old(Discoveries(api.log)) + 1
    ensures r.Conflict? ==> Discoveries(api.log) == old(Discoveries(api.log))
    ensures r.Done? ==> api.node == Some(s) && ShowsHardware(s, d) && FreeExact(s) && ShowsSlice(s, d)
    ensures |api.gets| == |old(api.gets)| + 1 && old(api.gets) <= api.gets
    ensures r.Done? ==> api.log != [] && Merged(api.log[|api.log| - 1], s, d)
    ensures r.Done? ==> FreshWrite(d, was, api.gets[from..], api.log[|api.log| - 1].before.value, s)
    ensures api.quiet && old(api.node).Some? ==> r.Done? && api.log[|api.log| - 1].before == old(api.node)
    ensures Opened(api.gets[from..]) && Slice(d, was, api.gets[from..])
  {
    var read;
    read, s := ReadAndMerge(api, d, was, from);
    if !read.Found? { return s, Refused; }
    ghost var gets, parts := api.gets, d.partitions[..];
    r := api.PatchLocked(read.version, read.status, s);
    assert api.gets == gets && d.partitions[..] == parts;
  }

  /** The first read and merge; a missing object counts as an empty one. */
  method ReadFirst(api: ApiServer, d: Discovered) returns (r: Read)
    requires api.Valid()
    modifies api, d.partitions
    ensures api.Valid() && old(api.log) <= api.log && Discoveries(api.log) == old(Discoveries(api.log))
    ensures r.NotFound? ==> api.node == None
    ensures api.quiet ==> !r.Failed? && api.node == old(api.node) && (r.Found? ==> api.node.Some?)
    ensures api.gets == old(api.gets) + [r] && Slice(d, old(d.partitions[..]), [r])
    ensures !r.Found? ==> d.partitions[..] == old(d.partitions[..])
  {
    ghost var was := d.partitions[..];
    r := api.Get();
    NothingMerged(was, r);
    if r.Failed? { return; }
    var existing := if r.Found? then r.status else EMPTY_STATUS;
    var merged := MergeStatus(d, existing);
    if d.hasFabric { FirstMerge(was, d.partitions[..], r, Partitions(existing)); }
    if r.NotFound? { assert d.partitions[..] == was; }
  }

  /** Reads the object, creating it when it is missing, and merges once. */
  method Prepare(api: ApiServer, d: Discovered) returns (ok: bool)
    requires api.Valid()
    modifies api, d.partitions
    ensures api.Valid() && old(api.log) <= api.log && Discoveries(api.log) == old(Discoveries(api.log))
    ensures api.quiet ==> ok && api.node.Some? && (old(api.node).Some? ==> api.node == old(api.node))
    ensures old(api.gets) <= api.gets && |api.gets| <= |old(api.gets)| + 2
    ensures ok ==> Opened(api.gets[|old(api.gets)|..])
    ensures Slice(d, old(d.partitions[..]), api.gets[|old(api.gets)|..])
  {
    ghost var from, was := |api.gets|, d.partitions[..];
    var r := ReadFirst(api, d);
    assert api.gets[from..] == [r];
    ok := r.Found?;
    if r.NotFound? {
      ok := api.Create();
      if !ok { return; }
      var again := api.Get();
      assert api.gets[from..] == [r, again];
      assert [r, again][2..] == [];
      NothingMerged(was, r);
      ok := again.Found?;
    }
  }

  lemma NothingMerged(was: seq<Partition>, r: Read)
    ensures !r.Found? ==> Carried(was, was, MergedReads([r]))
    ensures Carried(was, was, [])
  {
    assert [r][..0] == [];
    assert !r.Found? ==> |Listed([r])| == 0;
  }

  lemma FirstMerge(was: seq<Partition>, now: seq<Partition>, r: Read, stored: seq<Partition>)
    requires stored == if r.Found? then Partitions(r.status) else []
    requires |now| == |was| && forall i :: 0 <= i < |was| ==> now[i] == Remember(was[i], stored)
    ensures Carried(was, now, MergedReads([r]))
  {
    assert [r][..0] == [];
    if r.Found? {
      CarriedStep(was, was, now, [], stored);
      assert Listed([r]) == [] + [stored];
    } else {
      NothingMerged(was, r);
      assert now == was;
    }
  }

  /** The retry loop. */
  method PublishRetrying(api: ApiServer, d: Discovered, ghost was: seq<Partition>, ghost from: nat)
    returns (s: Status, ok: bool)
    requires api.Valid() && from <= |api.gets| && Opened(api.gets[from..]) && Slice(d, was, api.gets[from..])
    modifies api, d.partitions
    ensures api.Valid() && old(api.log) <= api.log
    ensures Discoveries(api.log) <= old(Discoveries(api.log)) + 1
    ensures ok ==> api.node == Some(s) && ShowsHardware(s, d) && FreeExact(s) && ShowsSlice(s, d)
    ensures ok ==> api.log != [] && Merged(api.log[|api.log| - 1], s, d)
    ensures api.quiet && old(api.node).Some? ==> ok && api.log[|api.log| - 1].before == old(api.node)
    ensures old(api.gets) <= api.gets && |api.gets| <= |old(api.gets)| + RETRY_STEPS
    ensures Slice(d, was, api.gets[from..])
    ensures ok ==> FreshWrite(d, was, api.gets[from..], api.log[|api.log| - 1].before.value, s)
  {
    s, ok := EMPTY_STATUS, false;
    for step := 0 to RETRY_STEPS
      invariant old(api.gets) <= api.gets && |api.gets| == |old(api.gets)| + step
      invariant Opened(api.gets[from..]) && Slice(d, was, api.gets[from..])
      invariant api.Valid() && old(api.log) <= api.log
      invariant !ok && Discoveries(api.log) == old(Discoveries(api.log))
      invariant api.quiet && old(api.node).Some? ==> step == 0 && api.node == old(api.node)
    {
      var r;
      s, r := TryPublish(api, d, was, from);
      if !r.Conflict? { return s, r.Done?; }
    }
  }

  /** publishStatus. A conflict makes it read and merge again, with the same discovered hardware. */
  method PublishStatus(api: ApiServer, d: Discovered) returns (s: Status, ok: bool)
    requires api.Valid()
    modifies api, d.partitions
    ensures api.Valid() && old(api.log) <= api.log
    ensures Discoveries(api.log) <= old(Discoveries(api.log)) + 1
    ensures ok ==> api.node == Some(s) && ShowsHardware(s, d) && FreeExact(s) && ShowsSlice(s, d)
    ensures ok ==> api.log != [] && Merged(api.log[|api.log| - 1], s, d)
    ensures api.quiet ==> ok
    ensures api.quiet && old(api.node).Some? ==> api.log[|api.log| - 1].before == old(api.node)
    // The slice, and with it what was written, against the reads of this cycle.
    ensures old(api.gets) <= api.gets && |api.gets| <= |old(api.gets)| + RETRY_STEPS + 2
    ensures Slice(d, old(d.partitions[..]), api.gets[|old(api.gets)|..])
    ensures ok ==> FreshWrite(d, old(d.partitions[..]), api.gets[|old(api.gets)|..],
                              api.log[|api.log| - 1].before.value, s)
  {
    ghost var from, was := |api.gets|, d.partitions[..];
    s := EMPTY_STATUS;
    ok := Prepare(api, d);
    if ok { s, ok := PublishRetrying(api, d, was, from); }
  }

  /** Two reads that bring a dropped holder back: the first gives partition 1 to a guest, and before the
      second, after a conflict, the controller has removed the partition from the status. */
  lemma DroppedHolderExample()
    ensures var p := Partition(1, 0, "");
            var gets := [Found(EMPTY_STATUS.(fabric := Some(Fabric(0, [Partition(1, 0, "default/vm")]))), 1),
                         Found(EMPTY_STATUS, 2)];
            && MergedReads(gets) == [[Partition(1, 0, "default/vm")], []]
            && RememberAll(p, MergedReads(gets)) == Partition(1, 0, "default/vm")
            && Remember(p, []) == p
  {
    var held := [Partition(1, 0, "default/vm")];
    var first := Found(EMPTY_STATUS.(fabric := Some(Fabric(0, held))), 1);
    assert [first, Found(EMPTY_STATUS, 2)][..1] == [first] && [first][..0] == [];
    assert Listed([first]) == [held];
    var none: seq<Partition> := [];
    assert [held, none][..1] == [held];
    assert RememberAll(Partition(1, 0, ""), [held]) == held[0];
  }

  /** patchPhase. */
  method PatchPhase(api: ApiServer, phase: string)
    requires api.Valid()
    modifies api
    ensures api.Valid() && old(api.log) <= api.log && Discoveries(api.log) == old(Discoveries(api.log))
    ensures api.quiet && old(api.node).Some? ==> api.node == Some(old(api.node).value.(phase := phase))
  {
    var r := api.Get();
    if !r.Found? { return; }
    api.PatchUnlocked(r.status, r.status.(phase := phase));
  }

  /** One discovery cycle; the next one starts from the state this one ends in. Every write of the run is in
      the log, so no cycle ever changes the allocation of a GPU or partition in both the stored status and
      the hardware, and FreeGPUs is exact throughout. */
  method DiscoveryCycle(api: ApiServer, found: Discovered?) returns (ok: bool)
    requires api.Valid()
    modifies api, if found != null then {found.partitions} else {}
    ensures api.Valid() && old(api.log) <= api.log
    ensures Discoveries(api.log) <= old(Discoveries(api.log)) + 1
    ensures ok ==> found != null && api.node.Some? && ShowsHardware(api.node.value, found)
    ensures found == null ==> Discoveries(api.log) == old(Discoveries(api.log))
    ensures api.quiet && found != null ==> ok
    ensures api.quiet && found == null && old(api.node).Some? ==>
              api.node == Some(old(api.node).value.(phase := "Error"))
  {
    if found == null {
      PatchPhase(api, "Error");
      return false;
    }
    var s;
    s, ok := PublishStatus(api, found);
  }
}
