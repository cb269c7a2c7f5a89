/** Staging a snapshot into a writable copy, across crashes and restarts: cmd/snapshot-stager/main.go. */
module Stager {

  import opened Common

  /** The components below the root. */
  type Path = p: seq<string> | p != [] witness ["."]

  datatype Node = Folder | File(content: seq<Byte>) | Link(target: string)

  type Tree = map<Path, Node>

  const SENTINEL: Path := [".copy-complete"]
  const CONFIG: Path := ["config.json"]
  const OK_LINE: seq<Byte> := [111, 107, 10]

  /** One entry of the source walk, below the root. */
  datatype Entry = Entry(path: Path, node: Node)

  /** A JSON document has at least one byte. */
  type Document = b: seq<Byte> | b != [] witness [123, 125]

  /** config.json's edit: None when no patch is requested, otherwise the patched document, or None on error. */
  type Patch = Option<seq<Byte> -> Option<Document>>

  function TreeOf(entries: seq<Entry>): Tree {
    if entries == [] then map[]
    else TreeOf(entries[..|entries| - 1])[entries[|entries| - 1].path := entries[|entries| - 1].node]
  }

  /** The tree a completed run must leave: the source with config.json patched; None when it cannot be patched. */
  function Goal(entries: seq<Entry>, patch: Patch): Option<Tree> {
    PatchTree(TreeOf(entries), patch)
  }

  /** A tree with config.json patched, if it can be. */
  function PatchTree(t: Tree, patch: Patch): Option<Tree> {
    if patch.None? then Some(t)
    else if CONFIG in t && t[CONFIG].File? && patch.value(t[CONFIG].content).Some?
    then Some(t[CONFIG := File(patch.value(t[CONFIG].content).value)])
    else None
  }

  /** A sentinel stands only over the finished tree. */
  predicate SentinelOk(t: Tree, goal: Option<Tree>) {
    SENTINEL in t ==> goal.Some? && t - {SENTINEL} == goal.value - {SENTINEL}
  }

  ghost predicate AlwaysOk(seen: set<Tree>, goal: Option<Tree>) {
    forall t :: t in seen ==> SentinelOk(t, goal)
  }

  predicate Distinct(entries: seq<Entry>) {
    forall i, j :: 0 <= i < j < |entries| ==> entries[i].path != entries[j].path
  }

  /** No entry has the sentinel's name, or the walk's last one does and no patch follows it. */
  predicate NameKept(entries: seq<Entry>, patch: Patch) {
    forall j :: 0 <= j < |entries| && entries[j].path == SENTINEL ==> j == |entries| - 1 && patch.None?
  }

  /** The order os.ReadDir lists names in. */
  predicate Less(a: string, b: string) {
    b != "" && (a == "" || a[0] < b[0] || (a[0] == b[0] && Less(a[1..], b[1..])))
  }

  /** That is by bytes: at the first difference, or a name before its extensions. */
  lemma {:induction false} LessIff(a: string, b: string)
    ensures Less(a, b) <==> exists i :: DiffersAt(a, b, i)
  {
    if b != "" && a != "" && a[0] == b[0] {
      LessIff(a[1..], b[1..]);
      if Less(a[1..], b[1..]) {
        var i :| DiffersAt(a[1..], b[1..], i);
        assert a[..i + 1] == [a[0]] + a[1..][..i] && b[..i + 1] == [b[0]] + b[1..][..i];
        assert DiffersAt(a, b, i + 1);
      }
      if i :| DiffersAt(a, b, i) {
        assert i > 0 && a[1..][..i - 1] == a[..i][1..] && b[1..][..i - 1] == b[..i][1..];
        assert DiffersAt(a[1..], b[1..], i - 1);
      }
    } else if i :| DiffersAt(a, b, i) {
      SameStart(a, b, i);
    } else if Less(a, b) {
      assert DiffersAt(a, b, 0);
    }
  }

  predicate DiffersAt(a: string, b: string, i: int) {
    0 <= i < |b| && i <= |a| && a[..i] == b[..i] && (i == |a| || a[i] < b[i])
  }

  lemma SameStart(a: string, b: string, i: int)
    requires DiffersAt(a, b, i)
    ensures i > 0 ==> a != "" && b != "" && a[0] == b[0]
  {
    if i > 0 { assert a[..i][0] == a[0] && b[..i][0] == b[0]; }
  }

  /** A wipe removes this path before it removes the sentinel. */
  predicate Ahead(p: Path) {
    Less(p[0], SENTINEL[0]) || (p[0] == SENTINEL[0] && p != SENTINEL)
  }

  /** The sentinel is the first thing a wipe of this tree removes. */
  predicate NothingAhead(t: Tree) {
    forall p :: p in t ==> !Ahead(p)
  }

  // ----- What a sealed tree holds -----

  /** The paths of the source and no other, but for the sentinel. */
  ghost predicate SamePaths(t: Tree, entries: seq<Entry>) {
    forall p :: p != [".copy-complete"] ==> (p in t <==> exists i :: 0 <= i < |entries| && entries[i].path == p)
  }

  /** The source's nodes, with config.json patched if a patch was asked for. */
  ghost predicate SameNodes(t: Tree, entries: seq<Entry>, patch: Patch) {
    forall i :: 0 <= i < |entries| && entries[i].path != [".copy-complete"] ==>
      entries[i].path in t &&
      if entries[i].path == ["config.json"] && patch.Some? then
        && entries[i].node.File? && patch.value(entries[i].node.content).Some?
        && t[entries[i].path] == File(patch.value(entries[i].node.content).value)
      else t[entries[i].path] == entries[i].node
  }

  lemma {:induction false} TreeOfAt(entries: seq<Entry>, i: nat)
    requires Distinct(entries) && i < |entries|
    ensures entries[i].path in TreeOf(entries) && TreeOf(entries)[entries[i].path] == entries[i].node
  {
    if i < |entries| - 1 { TreeOfAt(entries[..|entries| - 1], i); }
  }

  /** Whatever stands under a sentinel in a sound state is the source, file by file, with its config patched. */
  lemma SealedIsCopy(entries: seq<Entry>, patch: Patch, t: Tree)
    requires Distinct(entries) && SENTINEL in t && SentinelOk(t, Goal(entries, patch))
    ensures SamePaths(t, entries) && SameNodes(t, entries, patch)
    ensures patch.Some? ==> exists i :: 0 <= i < |entries| && entries[i].path == ["config.json"]
  {
    var source, goal := TreeOf(entries), Goal(entries, patch).value;
    forall p | p != SENTINEL ensures (p in t <==> p in goal) && (p in t ==> t[p] == goal[p]) {
      assert p in t <==> p in t - {SENTINEL};
      assert p in goal <==> p in goal - {SENTINEL};
    }
    forall p | p != SENTINEL ensures p in t <==> exists i :: 0 <= i < |entries| && entries[i].path == p {
      TreeOfKeys(entries, p);
    }
    forall i | 0 <= i < |entries| ensures entries[i].path in source && source[entries[i].path] == entries[i].node {
      TreeOfAt(entries, i);
    }
    if patch.Some? { TreeOfKeys(entries, CONFIG); }
  }

  // ----- The states a run goes through -----

  /** The tree when the walk has copied its first k entries. */
  function After(entries: seq<Entry>, k: nat): Tree
    requires k <= |entries|
  {
    TreeOf(entries[..k])
  }

  /** The tree differs from before at p at most. */
  predicate OnlyAt(before: Tree, t: Tree, p: Path) {
    t - {p} == before - {p}
  }

  /** Some of start is gone; while a sentinel stands, only what is ahead of it. */
  predicate Wiping(start: Tree, t: Tree) {
    && t.Keys <= start.Keys && (forall p :: p in t ==> t[p] == start[p])
    && (SENTINEL in t ==> forall p :: p in start && !Ahead(p) ==> p in t)
  }

  /** One of the entries is being copied over those before it. */
  ghost predicate Copying(entries: seq<Entry>, t: Tree) {
    exists k :: 0 <= k < |entries| && OnlyAt(After(entries, k), t, entries[k].path)
  }

  /** The state behind every entry of the walk is among those seen. */
  ghost predicate Passed(seen: set<Tree>, entries: seq<Entry>, n: nat)
    requires n <= |entries|
  {
    forall k :: 0 <= k <= n ==> After(entries, k) in seen
  }

  /** What is left of a tree: the given top-level names. */
  function Kept(t: Tree, names: set<string>): Tree {
    map p | p in t && p[0] in names :: t[p]
  }

  /** A tree without what lies below one top-level name. */
  function Emptied(t: Tree, name: string): Tree {
    map p | p in t && !(p[0] == name && p != [name]) :: t[p]
  }

  /** What a wipe has left of a tree when the sentinel is next. */
  function Bare(t: Tree): Tree {
    map p | p in t && !Ahead(p) :: t[p]
  }

  /** Some of what is at or below name is gone, and nothing else. */
  predicate Removing(before: Tree, t: Tree, name: string) {
    && t.Keys <= before.Keys && (forall p :: p in t ==> t[p] == before[p])
    && (forall p :: p in before && p[0] != name ==> p in t)
  }

  /** The names a wipe may take next. */
  function NextNames(names: set<string>): (next: set<string>)
    ensures next <= names && (names != {} ==> next != {})
  {
    var early := set n | n in names && Less(n, SENTINEL[0]);
    if early != {} then early else if SENTINEL[0] in names then {SENTINEL[0]} else names
  }

  /** While the sentinel's name is left, only earlier ones are gone. */
  predicate InOrder(start: Tree, names: set<string>) {
    SENTINEL[0] in names ==> forall p :: p in start && p[0] !in names ==> Less(p[0], SENTINEL[0])
  }

  lemma WipingStep(start: Tree, names: set<string>, name: string, t: Tree)
    requires InOrder(start, names) && name in NextNames(names) && Removing(Kept(start, names), t, name)
    ensures Wiping(start, t)
  {
    if SENTINEL in t {
      assert SENTINEL[0] in names;
      forall p | p in start && !Ahead(p) ensures p in t {
        if p[0] == name { assert p[0] == SENTINEL[0]; }
      }
    }
  }

  lemma KeptStep(start: Tree, names: set<string>, name: string)
    requires InOrder(start, names) && name in NextNames(names)
    ensures InOrder(start, names - {name})
    ensures Kept(start, names - {name}) == map p | p in Kept(start, names) && p[0] != name :: Kept(start, names)[p]
  {
  }

  lemma SentinelIsNext(names: set<string>)
    requires SENTINEL[0] in NextNames(names)
    ensures forall n :: n in names ==> !Less(n, SENTINEL[0])
  {
    NotLessItself(SENTINEL[0]);
    var early := set n | n in names && Less(n, SENTINEL[0]);
    assert SENTINEL[0] !in early;
    forall n | n in names ensures !Less(n, SENTINEL[0]) { assert n !in early; }
  }

  lemma BareIsNext(start: Tree, names: set<string>)
    requires InOrder(start, names) && SENTINEL[0] in NextNames(names)
    ensures Emptied(Kept(start, names), SENTINEL[0]) == Bare(start)
  {
    SentinelIsNext(names);
    var left := Emptied(Kept(start, names), SENTINEL[0]);
    forall p | p in start ensures p in left <==> p in Bare(start) {
      assert p[0] !in names ==> Less(p[0], SENTINEL[0]);
    }
    assert left.Keys == Bare(start).Keys;
  }

  lemma {:induction false} NotLessItself(a: string)
    ensures !Less(a, a)
  {
    if a != "" { NotLessItself(a[1..]); }
  }

  /** The destination directory. Operations are not atomic: each may be cut off at any point. */
  class Destination {
    var tree: Tree
    /** Every state the directory has been in, any of which a crash can leave behind. */
    ghost var seen: set<Tree>
    /** No operation fails or is cut off. */
    const reliable: bool

    constructor (tree: Tree, reliable: bool)
      ensures this.tree == tree && seen == {tree} && this.reliable == reliable
    {
      this.tree, seen, this.reliable := tree, {tree}, reliable;
    }

    method SetTree(t: Tree)
      modifies this
      ensures tree == t && seen == old(seen) + {t}
    {
      tree := t;
      seen := seen + {t};
    }

    /** Creates or truncates a file and fills it; a crash or an error leaves part of the content. A folder in
        its place is an error. */
    method WriteFile(p: Path, content: seq<Byte>) returns (ok: bool)
      requires tree in seen
      modifies this
      ensures tree in seen && old(seen) <= seen
      ensures forall t :: t in seen && t !in old(seen) ==> OnlyAt(old(tree), t, p)
      ensures ok ==> tree == old(tree)[p := File(content)] && old(tree)[p := File([])] in seen
      ensures p in old(tree) && old(tree)[p].Folder? ==> !ok
      ensures reliable && !(p in old(tree) && old(tree)[p].Folder?) ==> ok
    {
      var opens: bool :| reliable ==> opens;
      if !opens || (p in tree && tree[p].Folder?) { return false; }
      var start := tree;
      SetTree(start[p := File([])]);
      var part: seq<Byte> :| part <= content;
      SetTree(start[p := File(part)]);
      ok :| reliable ==> ok;
      if ok { SetTree(start[p := File(content)]); }
    }

    /** os.RemoveAll of one top-level entry: what lies below it goes first. */
    method RemoveAll(name: string) returns (ok: bool)
      requires tree in seen
      modifies this
      ensures tree in seen && old(seen) <= seen
      ensures forall t :: t in seen && t !in old(seen) ==> Removing(old(tree), t, name)
      ensures ok ==> tree == map p | p in old(tree) && p[0] != name :: old(tree)[p]
      ensures ok ==> Emptied(old(tree), name) in seen
      ensures reliable ==> ok
    {
      var start := tree;
      var some: set<Path> :| some <= start.Keys;
      SetTree(map p | p in start && !(p in some && p[0] == name && p != [name]) :: start[p]);
      ok :| reliable ==> ok;
      if !ok { return; }
      SetTree(Emptied(start, name));
      ok :| reliable ==> ok;
      if !ok { return; }
      SetTree(map p | p in start && p[0] != name :: start[p]);
    }

    /** wipeContents, in the order of the listing: the names before the sentinel's, the sentinel, the rest. */
    method WipeContents() returns (ok: bool)
      requires tree in seen
      modifies this
      ensures tree in seen && old(seen) <= seen
      ensures forall t :: t in seen && t !in old(seen) ==> Wiping(old(tree), t)
      ensures ok ==> tree == map[]
      ensures ok && SENTINEL in old(tree) ==> Bare(old(tree)) in seen
      ensures reliable ==> ok
    {
      var start := tree;
      var names := set p | p in start :: p[0];
      assert tree == Kept(start, names);
      while names != {}
        invariant tree in seen && old(seen) <= seen
        invariant tree == Kept(start, names) && InOrder(start, names)
        invariant forall t :: t in seen && t !in old(seen) ==> Wiping(start, t)
        invariant SENTINEL in start && SENTINEL[0] !in names ==> Bare(start) in seen
        decreases |names|
      {
        var name :| name in NextNames(names);
        ok := RemoveAll(name);
        forall t | Removing(Kept(start, names), t, name) { WipingStep(start, names, name, t); }
        KeptStep(start, names, name);
        if name == SENTINEL[0] { BareIsNext(start, names); }
        if !ok { return; }
        names := names - {name};
      }
      assert tree == map[];
      ok := true;
    }

    /** One entry of copyTree. */
    method CopyEntry(e: Entry) returns (ok: bool)
      requires tree in seen && e.path !in tree
      modifies this
      ensures tree in seen && old(seen) <= seen
      ensures forall t :: t in seen && t !in old(seen) ==> OnlyAt(old(tree), t, e.path)
      ensures ok ==> tree == old(tree)[e.path := e.node]
      ensures reliable ==> ok
    {
      var start := tree;
      match e.node {
        case File(content) =>
          ok := WriteFile(e.path, content);
        case Folder =>
          ok :| reliable ==> ok;
          if ok { SetTree(start[e.path := Folder]); }
        case Link(target) =>
          SetTree(start - {e.path});
          ok :| reliable ==> ok;
          if ok { SetTree(start[e.path := Link(target)]); }
      }
    }

    /** copyTree into an emptied directory. */
    method CopyTree(entries: seq<Entry>) returns (ok: bool)
      requires Distinct(entries) && tree == map[] && tree in seen
      modifies this
      ensures tree in seen && old(seen) <= seen
      ensures forall t :: t in seen && t !in old(seen) ==> Copying(entries, t)
      ensures ok ==> tree == TreeOf(entries) && Passed(seen, entries, |entries|)
      ensures reliable ==> ok
    {
      for i := 0 to |entries|
        invariant tree == After(entries, i) && tree in seen && old(seen) <= seen
        invariant forall t :: t in seen && t !in old(seen) ==> Copying(entries, t)
        invariant Passed(seen, entries, i)
      {
        AfterStep(entries, i);
        AfterKeys(entries, i, i);
        ok := CopyEntry(entries[i]);
        forall t | OnlyAt(After(entries, i), t, entries[i].path) ensures Copying(entries, t) {}
        if !ok { return; }
      }
      AfterAll(entries);
      ok := true;
    }

    /** The config.json step. */
    method PatchConfig(patch: Patch) returns (ok: bool)
      requires tree in seen
      modifies this
      ensures tree in seen && old(seen) <= seen
      ensures forall t :: t in seen && t !in old(seen) ==> patch.Some? && OnlyAt(old(tree), t, CONFIG)
      ensures ok ==> PatchTree(old(tree), patch) == Some(tree)
      ensures ok && patch.Some? ==> old(tree)[CONFIG := File([])] in seen
      ensures reliable && PatchTree(old(tree), patch).Some? ==> ok
    {
      if patch.None? { return true; }
      if CONFIG !in tree || !tree[CONFIG].File? { return false; }
      var patched := patch.value(tree[CONFIG].content);
      if patched.None? { return false; }
      ok := WriteFile(CONFIG, patched.value);
    }

    /** Wipe, copy, patch, and the sentinel last. */
    method Stage(entries: seq<Entry>, patch: Patch) returns (ok: bool, ghost reached: bool)
      requires Distinct(entries) && tree in seen
      modifies this
      ensures tree in seen && old(seen) <= seen
      ensures forall t :: t in seen && t !in old(seen) ==> RunState(entries, patch, old(tree), t)
      ensures reached ==> WentThrough(seen, entries, patch, old(tree))
      ensures ok ==> reached && Goal(entries, patch).Some? && SENTINEL in tree
      ensures ok ==> OnlyAt(Goal(entries, patch).value, tree, SENTINEL)
      ensures reliable ==> reached && (ok <==> Sealable(entries, patch))
    {
      reached := false;
      ok := WipeContents();
      if ok { ok := CopyTree(entries); }
      if !ok { return; }
      ok := PatchConfig(patch);
      reached := ok || Goal(entries, patch).None?;
      AfterAll(entries);
      if !ok { return; }
      ok := WriteFile(SENTINEL, OK_LINE);
    }

    /** run: nothing when the sentinel is there; otherwise a new copy. It may be cut off anywhere and started
        again any number of times. misread says that the test for the sentinel failed, which the code takes for
        its absence; reached says that the tree was copied and, if it can be, patched. */
    method Run(entries: seq<Entry>, patch: Patch)
      returns (ok: bool, ghost ran: bool, ghost misread: bool, ghost reached: bool)
      requires Distinct(entries) && tree in seen
      modifies this
      ensures tree in seen && old(seen) <= seen
      // A finished directory is left alone.
      ensures SENTINEL in old(tree) && !misread ==> !ran
      ensures !ran ==> !reached && tree == old(tree) && seen == old(seen)
      // Every state stays sound under this condition, and when the run gets that far, only under it.
      ensures AlwaysOk(old(seen), Goal(entries, patch)) && (ran ==> Sound(entries, patch, old(tree))) ==>
                AlwaysOk(seen, Goal(entries, patch))
      ensures reached && AlwaysOk(seen, Goal(entries, patch)) ==> Sound(entries, patch, old(tree))
      // What success means, and when it is certain.
      ensures ok ==> SENTINEL in tree
      ensures ok && SentinelOk(old(tree), Goal(entries, patch)) ==>
                SentinelOk(tree, Goal(entries, patch)) && SamePaths(tree, entries) && SameNodes(tree, entries, patch)
      ensures reliable ==> !misread && (ran <==> SENTINEL !in old(tree)) && (ran ==> reached)
      ensures reliable ==> (ok <==> SENTINEL in old(tree) || Sealable(entries, patch))
    {
      ran, misread, reached := false, false, false;
      var srcOk: bool :| reliable ==> srcOk;
      if !srcOk { return false, ran, misread, reached; }
      var statOk: bool :| reliable ==> statOk;
      misread := !statOk;
      if statOk && SENTINEL in tree {
        if SentinelOk(tree, Goal(entries, patch)) { SealedIsCopy(entries, patch, tree); }
        return true, ran, misread, reached;
      }
      ran := true;
      ok, reached := Stage(entries, patch);
      if ok { SealedIsCopy(entries, patch, tree); }
      if AlwaysOk(old(seen), Goal(entries, patch)) && Sound(entries, patch, old(tree)) {
        forall t | t in seen ensures SentinelOk(t, Goal(entries, patch)) {
          if t !in old(seen) { StateIsOk(entries, patch, old(tree), t); }
        }
      }
      if reached && AlwaysOk(seen, Goal(entries, patch)) { SoundIsNeeded(seen, entries, patch, old(tree)); }
    }
  }

  // ----- When every state is sound -----

  /** The states a run of its own can leave, from the tree it starts with. */
  ghost predicate RunState(entries: seq<Entry>, patch: Patch, start: Tree, t: Tree) {
    || Wiping(start, t)
    || Copying(entries, t)
    || (patch.Some? && OnlyAt(TreeOf(entries), t, CONFIG))
    || (Goal(entries, patch).Some? && OnlyAt(Goal(entries, patch).value, t, SENTINEL))
  }

  /** States no run can avoid once it has copied and patched. */
  ghost predicate WentThrough(seen: set<Tree>, entries: seq<Entry>, patch: Patch, start: Tree) {
    && Passed(seen, entries, |entries|)
    && (SENTINEL in start ==> start in seen && Bare(start) in seen)
    && (patch.Some? && Goal(entries, patch).Some? ==> TreeOf(entries)[CONFIG := File([])] in seen)
  }

  /** The source keeps the sentinel's name free, or has it last with no patch to follow; and a finished tree
      that is staged again, because the test for its sentinel failed, loses the sentinel first. */
  predicate Sound(entries: seq<Entry>, patch: Patch, start: Tree) {
    NameKept(entries, patch) && (SENTINEL in start ==> NothingAhead(start))
  }

  lemma StateIsOk(entries: seq<Entry>, patch: Patch, start: Tree, t: Tree)
    requires Distinct(entries) && Sound(entries, patch, start)
    requires SentinelOk(start, Goal(entries, patch)) && RunState(entries, patch, start, t)
    ensures SentinelOk(t, Goal(entries, patch))
  {
    if SENTINEL in t {
      if Wiping(start, t) {
        assert t == start;
      } else if Copying(entries, t) {
        CopyIsOk(entries, patch, t);
      } else if patch.Some? && OnlyAt(TreeOf(entries), t, CONFIG) {
        assert SENTINEL in t - {CONFIG};
        TreeOfKeys(entries, SENTINEL);
      }
    }
  }

  lemma NoSentinelBefore(entries: seq<Entry>, patch: Patch, k: nat)
    requires NameKept(entries, patch) && k < |entries|
    ensures SENTINEL !in After(entries, k)
  {
    TreeOfKeys(entries[..k], SENTINEL);
    forall i | 0 <= i < k ensures entries[..k][i].path != SENTINEL {
      assert entries[..k][i] == entries[i];
    }
  }

  lemma LaidOver(t: Tree, p: Path, x: Node)
    ensures t[p := x] - {p} == t - {p}
  {
  }

  lemma LastIsOk(entries: seq<Entry>, patch: Patch, k: nat, t: Tree)
    requires k == |entries| - 1 && entries[k].path == SENTINEL && patch.None?
    requires OnlyAt(After(entries, k), t, SENTINEL)
    ensures SentinelOk(t, Goal(entries, patch))
  {
    AfterStep(entries, k);
    AfterAll(entries);
    LaidOver(After(entries, k), SENTINEL, entries[k].node);
  }

  lemma CopyIsOk(entries: seq<Entry>, patch: Patch, t: Tree)
    requires Distinct(entries) && NameKept(entries, patch) && Copying(entries, t)
    ensures SentinelOk(t, Goal(entries, patch))
  {
    var k :| 0 <= k < |entries| && OnlyAt(After(entries, k), t, entries[k].path);
    var p := entries[k].path;
    assert p != SENTINEL && SENTINEL in t ==> SENTINEL in t - {p};
    NoSentinelBefore(entries, patch, k);
    if p == SENTINEL { LastIsOk(entries, patch, k, t); }
  }

  /** A state that lacks a path of the goal, with the sentinel there, is not sound. */
  lemma Lacking(t: Tree, goal: Option<Tree>, p: Path)
    requires SENTINEL in t && p != SENTINEL && p !in t && (goal.Some? ==> p in goal.value)
    ensures !SentinelOk(t, goal)
  {
    if goal.Some? { assert p in goal.value - {SENTINEL}; }
  }

  lemma TooEarly(entries: seq<Entry>, patch: Patch, j: nat)
    requires Distinct(entries) && j < |entries| - 1 && entries[j].path == SENTINEL
    ensures !SentinelOk(After(entries, j + 1), Goal(entries, patch))
  {
    var last := |entries| - 1;
    AfterKeys(entries, j + 1, j);
    AfterKeys(entries, j + 1, last);
    AfterKeys(entries, |entries|, last);
    AfterAll(entries);
    Lacking(After(entries, j + 1), Goal(entries, patch), entries[last].path);
  }

  lemma TornConfig(entries: seq<Entry>, patch: Patch)
    requires patch.Some? && SENTINEL in TreeOf(entries)
    ensures Goal(entries, patch).None? ==> !SentinelOk(TreeOf(entries), Goal(entries, patch))
    ensures Goal(entries, patch).Some? ==>
              !SentinelOk(TreeOf(entries)[CONFIG := File([])], Goal(entries, patch))
  {
    var torn, goal := TreeOf(entries)[CONFIG := File([])], Goal(entries, patch);
    if goal.Some? {
      assert (torn - {SENTINEL})[CONFIG] == File([]);
      assert (goal.value - {SENTINEL})[CONFIG] != File([]);
    }
  }

  lemma AheadBreaks(start: Tree, goal: Option<Tree>, p: Path)
    requires SENTINEL in start && SentinelOk(start, goal) && p in start && Ahead(p)
    ensures !SentinelOk(Bare(start), goal)
  {
    NotLessItself(SENTINEL[0]);
    assert p in start - {SENTINEL};
    Lacking(Bare(start), goal, p);
  }

  lemma SoundIsNeeded(seen: set<Tree>, entries: seq<Entry>, patch: Patch, start: Tree)
    requires Distinct(entries) && WentThrough(seen, entries, patch, start)
    requires AlwaysOk(seen, Goal(entries, patch))
    ensures Sound(entries, patch, start)
  {
    var n := |entries|;
    AfterAll(entries);
    forall j | 0 <= j < n && entries[j].path == SENTINEL ensures j == n - 1 && patch.None? {
      assert After(entries, j + 1) in seen && After(entries, n) in seen;
      AfterKeys(entries, n, j);
      if j < n - 1 { TooEarly(entries, patch, j); }
      if patch.Some? { TornConfig(entries, patch); }
    }
    if SENTINEL in start {
      forall p | p in start ensures !Ahead(p) {
        if Ahead(p) { AheadBreaks(start, Goal(entries, patch), p); }
      }
    }
  }

  /** The sentinel can be written over the finished tree. */
  predicate Sealable(entries: seq<Entry>, patch: Patch) {
    var goal := Goal(entries, patch);
    goal.Some? && !(SENTINEL in goal.value && goal.value[SENTINEL].Folder?)
  }

  lemma {:induction false} TreeOfKeys(entries: seq<Entry>, p: Path)
    ensures p in TreeOf(entries) <==> exists i :: 0 <= i < |entries| && entries[i].path == p
  {
    if entries != [] {
      var last := |entries| - 1;
      TreeOfKeys(entries[..last], p);
      if exists i :: 0 <= i < |entries| && entries[i].path == p {
        var i :| 0 <= i < |entries| && entries[i].path == p;
        assert i < last ==> entries[..last][i].path == p;
      }
    }
  }

  lemma AfterKeys(entries: seq<Entry>, k: nat, i: nat)
    requires Distinct(entries) && k <= |entries| && i < |entries|
    ensures entries[i].path in After(entries, k) <==> i < k
  {
    TreeOfKeys(entries[..k], entries[i].path);
    assert i < k ==> entries[..k][i] == entries[i];
  }

  lemma AfterStep(entries: seq<Entry>, k: nat)
    requires k < |entries|
    ensures After(entries, k + 1) == After(entries, k)[entries[k].path := entries[k].node]
  {
    assert entries[..k + 1][..k] == entries[..k];
  }

  lemma AfterAll(entries: seq<Entry>)
    ensures After(entries, |entries|) == TreeOf(entries)
  {
    assert entries[..|entries|] == entries;
  }

  // ----- Inputs that break it -----

  /** A source with a file of the sentinel's name before another: the copy stands sealed over half the tree. */
  lemma NameTakenExample()
    ensures var entries := [Entry(SENTINEL, File([])), Entry(["state.json"], File([1]))];
            Distinct(entries) && !SentinelOk(After(entries, 1), Goal(entries, None))
  {
    var entries := [Entry(SENTINEL, File([])), Entry(["state.json"], File([1]))];
    TooEarly(entries, None, 0);
  }

  /** The same name last in the walk, and a patch that changes nothing: the truncated config.json is sealed. */
  lemma TornConfigExample()
    ensures var entries := [Entry(CONFIG, File([123, 125])), Entry(SENTINEL, File([]))];
            var same: Patch := Some((b: seq<Byte>) => if b == [] then None else Some(b));
            Distinct(entries) && Goal(entries, same) == Some(TreeOf(entries))
            && !SentinelOk(TreeOf(entries)[CONFIG := File([])], Goal(entries, same))
  {
    var entries := [Entry(CONFIG, File([123, 125])), Entry(SENTINEL, File([]))];
    var same: Patch := Some((b: seq<Byte>) => if b == [] then None else Some(b));
    assert entries[..1] == [entries[0]] && entries[..1][..0] == [];
    assert TreeOf(entries[..1]) == map[CONFIG := File([123, 125])];
    var tree := TreeOf(entries);
    assert tree == map[CONFIG := File([123, 125]), SENTINEL := File([])];
    assert tree[CONFIG := tree[CONFIG]] == tree;
    TornConfig(entries, same);
  }

  /** A finished tree with a name that sorts before the sentinel's, staged again after a failed test. */
  lemma RewipeExample()
    ensures var entries := [Entry(["+cache"], File([1]))];
            var done := TreeOf(entries)[SENTINEL := File(OK_LINE)];
            SentinelOk(done, Goal(entries, None)) && Wiping(done, Bare(done))
            && !SentinelOk(Bare(done), Goal(entries, None))
  {
    var entries := [Entry(["+cache"], File([1]))];
    var done := TreeOf(entries)[SENTINEL := File(OK_LINE)];
    LaidOver(TreeOf(entries), SENTINEL, File(OK_LINE));
    assert Less("+cache", ".copy-complete");
    assert Ahead(["+cache"]);
    AheadBreaks(done, Goal(entries, None), ["+cache"]);
  }
}
