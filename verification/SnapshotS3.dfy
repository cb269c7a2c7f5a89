/** Exporting a snapshot directory to an object store and restoring it: cmd/snapshot-s3. */
module SnapshotS3 {

  import opened Common
  import opened Paths
  import Strings

  const MANIFEST_NAME := "manifest.json"
  const ZSTD_SUFFIX := ".zst"
  const SCHEMA_VERSION := 1

  /** A collision-free digest is modelled by what it names. */
  datatype Digest = Sha256(content: seq<Byte>) | OfManifest(manifest: Manifest)

  datatype Artifact = Artifact(path: string, bytes: nat, sha: Digest, zstd: bool)

  datatype Manifest = Manifest(schemaVersion: nat, snapshot: string, includeMemory: bool,
                               artifacts: seq<Artifact>, totalBytes: nat)

  /** Stored bytes: Zstd(x) is the compressed form of x, which decompression turns back into x. */
  datatype Body = Raw(data: seq<Byte>) | Zstd(plain: seq<Byte>) | Document(manifest: Manifest)

  datatype Object = Object(body: Body, sha: Digest)

  type Objects = map<string, Object>

  datatype Stats = Stats(transferred: nat, skipped: nat, total: nat)

  ghost function AName(): (n: string)
    ensures GoodName(n)
  {
    Strings.SplitField("a", '/', "");
    "a"
  }

  /** A path below the directory, as the walk yields it. */
  type RelPath = n: string | GoodName(n) ghost witness AName()

  /** One entry of the directory walk. */
  datatype Entry = Entry(path: RelPath, content: seq<Byte>, regular: bool)

  // ----- Keys -----

  function ObjectKeyFor(a: Artifact): string {
    if a.zstd then a.path + ZSTD_SUFFIX else a.path
  }

  /** The keys of an upload, from its prefix's stem; JoinedKeys shows that they are what path.Join gives. */
  function KeyOf(stem: string, a: Artifact): string {
    stem + ObjectKeyFor(a)
  }

  function ManifestKey(stem: string): string {
    stem + MANIFEST_NAME
  }

  lemma ManifestNameIsGood()
    ensures GoodName(MANIFEST_NAME)
  {
    Strings.SplitField(MANIFEST_NAME, '/', "");
  }

  lemma SuffixIsGood(path: string)
    requires GoodName(path)
    ensures GoodName(path + ZSTD_SUFFIX)
  {
    Strings.SplitSuffix(path, '/', ZSTD_SUFFIX);
  }

  /** path.Join of the prefix and an object's name is the prefix's stem with the name behind it. */
  lemma JoinedKeys(prefix: string, a: Artifact)
    requires GoodName(a.path)
    ensures PathJoin(prefix, ObjectKeyFor(a)) == KeyOf(Stem(prefix), a) && GoodName(ObjectKeyFor(a))
    ensures PathJoin(prefix, MANIFEST_NAME) == ManifestKey(Stem(prefix)) && GoodName(MANIFEST_NAME)
  {
    SuffixIsGood(a.path);
    ManifestNameIsGood();
    JoinIsStem(prefix, ObjectKeyFor(a));
    JoinIsStem(prefix, MANIFEST_NAME);
  }

  lemma SameRest(stem: string, a: string, b: string)
    requires stem + a == stem + b
    ensures a == b
  {
    assert (stem + a)[|stem|..] == a && (stem + b)[|stem|..] == b;
  }

  /** Compressed artifacts have distinct keys, and none is the manifest's. */
  lemma KeysDistinct(stem: string, a: Artifact, b: Artifact)
    requires a.zstd && b.zstd
    ensures KeyOf(stem, a) == KeyOf(stem, b) ==> a.path == b.path
    ensures KeyOf(stem, a) != ManifestKey(stem)
  {
    if KeyOf(stem, a) == KeyOf(stem, b) {
      SameRest(stem, ObjectKeyFor(a), ObjectKeyFor(b));
      assert ObjectKeyFor(a)[..|a.path|] == a.path && ObjectKeyFor(b)[..|b.path|] == b.path;
    }
    assert ObjectKeyFor(a)[|ObjectKeyFor(a)| - 1] == 't' && MANIFEST_NAME[|MANIFEST_NAME| - 1] == 'n';
    if KeyOf(stem, a) == ManifestKey(stem) {
      SameRest(stem, ObjectKeyFor(a), MANIFEST_NAME);
    }
  }

  // ----- The manifest -----

  predicate Included(e: Entry) {
    e.regular && e.path != MANIFEST_NAME
  }

  function ArtifactOf(e: Entry, zstd: bool): Artifact {
    Artifact(e.path, |e.content|, Sha256(e.content), zstd)
  }

  function SumBytes(arts: seq<Artifact>): nat {
    if arts == [] then 0 else SumBytes(arts[..|arts| - 1]) + arts[|arts| - 1].bytes
  }

  /** The bytes of the artifacts at these places. */
  function BytesAt(arts: seq<Artifact>, places: set<int>): nat {
    if arts == [] then 0
    else
      var last := |arts| - 1;
      BytesAt(arts[..last], places) + if last in places then arts[last].bytes else 0
  }

  /** One more place adds that artifact's bytes; a place past the end adds nothing. */
  lemma {:induction false} BytesAtAdd(arts: seq<Artifact>, places: set<int>, i: nat)
    requires i !in places
    ensures BytesAt(arts, places + {i}) == BytesAt(arts, places) + if i < |arts| then arts[i].bytes else 0
  {
    if arts != [] { BytesAtAdd(arts[..|arts| - 1], places, i); }
  }

  /** The artifacts at the kept places were left alone, and all others sent. */
  predicate Tallied(arts: seq<Artifact>, kept: set<int>, transferred: nat, skipped: nat) {
    skipped == BytesAt(arts, kept) && transferred + skipped == SumBytes(arts)
  }

  lemma TallyTurn(arts: seq<Artifact>, n: nat, kept: set<int>, transferred: nat, skipped: nat)
    requires n < |arts| && n !in kept && Tallied(arts[..n], kept, transferred, skipped)
    ensures Tallied(arts[..n + 1], kept + {n}, transferred, skipped + arts[n].bytes)
    ensures Tallied(arts[..n + 1], kept, transferred + arts[n].bytes, skipped)
  {
    assert arts[..n + 1][..n] == arts[..n];
    BytesAtAdd(arts[..n], kept, n);
  }

  predicate DistinctPaths(entries: seq<Entry>) {
    forall i, j :: 0 <= i < j < |entries| ==> entries[i].path != entries[j].path
  }

  predicate DistinctArtifacts(arts: seq<Artifact>) {
    forall i, j :: 0 <= i < j < |arts| ==> arts[i].path != arts[j].path
  }

  /** The artifacts of a walk: its regular files but the manifest itself, with size and hash. */
  function ArtifactsOf(entries: seq<Entry>, zstd: bool): seq<Artifact> {
    if entries == [] then []
    else
      var e := entries[|entries| - 1];
      ArtifactsOf(entries[..|entries| - 1], zstd) + (if Included(e) then [ArtifactOf(e, zstd)] else [])
  }

  /** buildManifest's walk. */
  method BuildManifest(entries: seq<Entry>) returns (arts: seq<Artifact>, total: nat)
    ensures arts == ArtifactsOf(entries, false) && total == SumBytes(arts)
    ensures Describes(arts, entries, false)
  {
    arts, total := [], 0;
    for i := 0 to |entries|
      invariant arts == ArtifactsOf(entries[..i], false) && total == SumBytes(arts)
    {
      var e := entries[i];
      assert entries[..i + 1][..i] == entries[..i];
      if Included(e) {
        assert (arts + [ArtifactOf(e, false)])[..|arts|] == arts;
        arts, total := arts + [ArtifactOf(e, false)], total + |e.content|;
      }
    }
    assert entries[..|entries|] == entries;
    ArtifactsAreFiles(entries, false);
  }

  lemma {:induction false} ArtifactFrom(entries: seq<Entry>, zstd: bool, a: Artifact) returns (j: nat)
    requires a in ArtifactsOf(entries, zstd)
    ensures j < |entries| && Included(entries[j]) && a == ArtifactOf(entries[j], zstd)
  {
    var last := |entries| - 1;
    if a in ArtifactsOf(entries[..last], zstd) {
      j := ArtifactFrom(entries[..last], zstd, a);
    } else {
      j := last;
    }
  }

  lemma {:induction false} ArtifactFor(entries: seq<Entry>, zstd: bool, j: nat)
    requires j < |entries| && Included(entries[j])
    ensures ArtifactOf(entries[j], zstd) in ArtifactsOf(entries, zstd)
  {
    if j < |entries| - 1 { ArtifactFor(entries[..|entries| - 1], zstd, j); }
  }

  lemma {:induction false} ArtifactPathsDistinct(entries: seq<Entry>, zstd: bool)
    requires DistinctPaths(entries)
    ensures DistinctArtifacts(ArtifactsOf(entries, zstd))
  {
    if entries != [] {
      var init, e := entries[..|entries| - 1], entries[|entries| - 1];
      ArtifactPathsDistinct(init, zstd);
      var arts := ArtifactsOf(init, zstd);
      forall i | 0 <= i < |arts| ensures arts[i].path != e.path {
        var j := ArtifactFrom(init, zstd, arts[i]);
        assert entries[j] == init[j];
      }
    }
  }

  /** The artifacts are the regular files other than manifest.json, with their sizes and hashes, and no more. */
  ghost predicate Describes(arts: seq<Artifact>, entries: seq<Entry>, zstd: bool) {
    && (forall a :: a in arts ==>
          exists e :: e in entries && e.regular && e.path != "manifest.json"
                   && a == Artifact(e.path, |e.content|, Sha256(e.content), zstd))
    && (forall e :: e in entries && e.regular && e.path != "manifest.json" ==>
          Artifact(e.path, |e.content|, Sha256(e.content), zstd) in arts)
  }

  lemma ArtifactsAreFiles(entries: seq<Entry>, zstd: bool)
    ensures Describes(ArtifactsOf(entries, zstd), entries, zstd)
  {
    forall a | a in ArtifactsOf(entries, zstd)
      ensures exists e :: e in entries && e.regular && e.path != "manifest.json"
                       && a == Artifact(e.path, |e.content|, Sha256(e.content), zstd)
    {
      var j := ArtifactFrom(entries, zstd, a);
      assert entries[j] in entries;
    }
    forall e | e in entries && e.regular && e.path != "manifest.json"
      ensures Artifact(e.path, |e.content|, Sha256(e.content), zstd) in ArtifactsOf(entries, zstd)
    {
      var j :| 0 <= j < |entries| && entries[j] == e;
      ArtifactFor(entries, zstd, j);
    }
  }

  /** The bytes of a list of artifacts add up. */
  lemma {:induction false} SumBytesAdds(a: seq<Artifact>, b: seq<Artifact>)
    ensures SumBytes(a + b) == SumBytes(a) + SumBytes(b)
    ensures SumBytes([]) == 0 && forall x: Artifact :: SumBytes([x]) == x.bytes
  {
    forall x: Artifact ensures SumBytes([x]) == x.bytes { assert [x][..0] == []; }
    if b == [] {
      assert a + b == a;
    } else {
      assert (a + b)[..|a + b| - 1] == a + b[..|b| - 1];
      SumBytesAdds(a, b[..|b| - 1]);
    }
  }

  /** Every artifact is one of the files, and the paths are distinct when the files' are. */
  lemma ArtifactsDescribe(entries: seq<Entry>, zstd: bool)
    requires DistinctPaths(entries)
    ensures DistinctArtifacts(ArtifactsOf(entries, zstd))
    ensures Describes(ArtifactsOf(entries, zstd), entries, zstd)
  {
    ArtifactPathsDistinct(entries, zstd);
    ArtifactsAreFiles(entries, zstd);
  }

  function Marked(arts: seq<Artifact>): seq<Artifact> {
    seq(|arts|, i requires 0 <= i < |arts| => arts[i].(zstd := true))
  }

  lemma {:induction false} MarkedArtifacts(entries: seq<Entry>)
    ensures Marked(ArtifactsOf(entries, false)) == ArtifactsOf(entries, true)
    ensures forall i :: 0 <= i < |ArtifactsOf(entries, true)| ==>
              ArtifactsOf(entries, true)[i].zstd && ArtifactsOf(entries, true)[i].sha.Sha256?
    ensures SumBytes(ArtifactsOf(entries, false)) == SumBytes(ArtifactsOf(entries, true))
  {
    if entries != [] {
      var init, e := entries[..|entries| - 1], entries[|entries| - 1];
      MarkedArtifacts(init);
      var raw, arts := ArtifactsOf(init, false), ArtifactsOf(init, true);
      if Included(e) {
        assert (raw + [ArtifactOf(e, false)])[..|raw|] == raw;
        assert (arts + [ArtifactOf(e, true)])[..|arts|] == arts;
      } else {
        assert raw + [] == raw && arts + [] == arts;
      }
    }
  }

  // ----- The object store -----

  class Store {
    var objects: Objects
    /** Every content the store has had. */
    ghost var seen: set<Objects>
    /** No call fails. */
    const reliable: bool

    constructor (objects: Objects, reliable: bool)
      ensures this.objects == objects && seen == {objects} && this.reliable == reliable
    {
      this.objects, seen, this.reliable := objects, {objects}, reliable;
    }

    method Stat(key: string) returns (ok: bool, found: bool, sha: Digest)
      ensures ok && found ==> key in objects && sha == objects[key].sha
      ensures reliable ==> ok && (found <==> key in objects)
    {
      ok :| reliable ==> ok;
      found, sha := key in objects, if key in objects then objects[key].sha else Sha256([]);
    }

    /** An object appears whole or not at all; a put that reports failure may have taken effect. */
    method Put(key: string, o: Object) returns (ok: bool)
      modifies this
      ensures objects == old(objects) || objects == old(objects)[key := o]
      ensures ok ==> objects == old(objects)[key := o]
      ensures seen == old(seen) + {objects}
      ensures reliable ==> ok
    {
      ok :| reliable ==> ok;
      var stored: bool :| ok ==> stored;
      if stored { objects := objects[key := o]; }
      seen := seen + {objects};
    }

    method Get(key: string) returns (ok: bool, body: Body)
      ensures ok ==> key in objects && body == objects[key].body
      ensures reliable && key in objects ==> ok
    {
      var fails: bool :| reliable ==> !fails;
      ok := key in objects && !fails;
      body := if ok then objects[key].body else Raw([]);
    }

    method Remove(key: string) returns (ok: bool)
      modifies this
      ensures objects == old(objects) || objects == old(objects) - {key}
      ensures ok ==> objects == old(objects) - {key}
      ensures seen == old(seen) + {objects}
      ensures reliable ==> ok
    {
      ok :| reliable ==> ok;
      var removed: bool :| ok ==> removed;
      if removed { objects := objects - {key}; }
      seen := seen + {objects};
    }
  }

  // ----- Upload -----

  predicate Stored(objs: Objects, stem: string, a: Artifact) {
    var k := KeyOf(stem, a);
    k in objs && a.sha.Sha256? && objs[k].body == Zstd(a.sha.content)
  }

  /** An object whose recorded hash is the artifact's holds that artifact's content. */
  predicate Honest(objs: Objects, stem: string, a: Artifact) {
    var k := KeyOf(stem, a);
    k in objs && objs[k].sha == a.sha ==> Stored(objs, stem, a)
  }

  predicate AllStored(objs: Objects, stem: string, arts: seq<Artifact>, n: nat)
    requires n <= |arts|
  {
    forall i :: 0 <= i < n ==> Stored(objs, stem, arts[i])
  }

  /** The promise an export makes at every moment: a manifest only over a complete set of objects. */
  predicate Safe(objs: Objects, stem: string, m: Manifest) {
    && (forall i :: 0 <= i < |m.artifacts| ==> Honest(objs, stem, m.artifacts[i]))
    && (ManifestKey(stem) in objs ==>
          objs[ManifestKey(stem)].body == Document(m) && AllStored(objs, stem, m.artifacts, |m.artifacts|))
  }

  predicate GoodArtifacts(arts: seq<Artifact>) {
    forall i :: 0 <= i < |arts| ==> GoodName(arts[i].path)
  }

  predicate Zstded(arts: seq<Artifact>) {
    DistinctArtifacts(arts) && forall i :: 0 <= i < |arts| ==> arts[i].zstd && arts[i].sha.Sha256?
  }

  /** Putting artifact i keeps every promise and stores it. */
  lemma PutArtifact(objs: Objects, stem: string, m: Manifest, i: nat)
    requires Zstded(m.artifacts) && Safe(objs, stem, m) && i < |m.artifacts|
    requires AllStored(objs, stem, m.artifacts, i)
    ensures var a := m.artifacts[i];
            var after := objs[KeyOf(stem, a) := Object(Zstd(a.sha.content), a.sha)];
            Safe(after, stem, m) && AllStored(after, stem, m.artifacts, i + 1)
  {
    var a := m.artifacts[i];
    var after := objs[KeyOf(stem, a) := Object(Zstd(a.sha.content), a.sha)];
    forall j | 0 <= j < |m.artifacts|
      ensures j == i ==> Stored(after, stem, m.artifacts[j])
      ensures Stored(objs, stem, m.artifacts[j]) ==> Stored(after, stem, m.artifacts[j])
      ensures Honest(after, stem, m.artifacts[j])
    {
      KeysDistinct(stem, a, m.artifacts[j]);
      assert Honest(objs, stem, m.artifacts[j]);
    }
    assert ManifestKey(stem) in after ==> ManifestKey(stem) in objs by { KeysDistinct(stem, a, a); }
  }

  /** The manifest an upload of these entries ends with. */
  function ManifestFor(entries: seq<Entry>, snapshot: string, includeMemory: bool): Manifest {
    Manifest(SCHEMA_VERSION, snapshot, includeMemory, ArtifactsOf(entries, true), SumBytes(ArtifactsOf(entries, true)))
  }

  /** The manifest lists the regular files other than manifest.json and no others, and counts their bytes. */
  lemma ManifestDescribes(entries: seq<Entry>, snapshot: string, includeMemory: bool)
    ensures var m := ManifestFor(entries, snapshot, includeMemory);
            && m.schemaVersion == 1 && m.snapshot == snapshot && m.includeMemory == includeMemory
            && Describes(m.artifacts, entries, true) && m.totalBytes == SumBytes(m.artifacts)
            && (DistinctPaths(entries) ==> DistinctArtifacts(m.artifacts))
  {
    ArtifactsAreFiles(entries, true);
    if DistinctPaths(entries) { ArtifactPathsDistinct(entries, true); }
  }

  /** The keys an upload may write. */
  function UploadKeys(stem: string, m: Manifest): set<string> {
    {ManifestKey(stem)} + set i | 0 <= i < |m.artifacts| :: KeyOf(stem, m.artifacts[i])
  }

  /** Every state in between, which is what a crash can leave behind, keeps the promise. */
  ghost predicate AlwaysSafe(seen: set<Objects>, stem: string, m: Manifest) {
    forall objs :: objs in seen ==> Safe(objs, stem, m)
  }

  /** An object with the artifact's hash is there. */
  predicate Uploaded(objs: Objects, stem: string, a: Artifact) {
    KeyOf(stem, a) in objs && objs[KeyOf(stem, a)].sha == a.sha
  }

  /** One artifact: skipped when an object with its hash is there, put otherwise. */
  method UploadOne(store: Store, stem: string, ghost m: Manifest, ghost i: nat, a: Artifact)
    returns (ok: bool, skip: bool)
    requires Zstded(m.artifacts) && Safe(store.objects, stem, m)
    requires i < |m.artifacts| && a == m.artifacts[i] && AllStored(store.objects, stem, m.artifacts, i)
    modifies store
    ensures Safe(store.objects, stem, m)
    ensures store.objects - UploadKeys(stem, m) == old(store.objects) - UploadKeys(stem, m)
    ensures old(store.seen) <= store.seen <= old(store.seen) + {store.objects}
    ensures old(store.objects) in old(store.seen) ==> store.objects in store.seen
    ensures ok ==> AllStored(store.objects, stem, m.artifacts, i + 1)
    ensures ok && skip ==> Uploaded(old(store.objects), stem, a)
    ensures store.reliable ==> ok && (skip <==> Uploaded(old(store.objects), stem, a))
    ensures forall k :: k != KeyOf(stem, a) ==> (k in store.objects <==> k in old(store.objects))
    ensures forall k :: k != KeyOf(stem, a) && k in store.objects ==> store.objects[k] == old(store.objects)[k]
  {
    var key := KeyOf(stem, a);
    assert key in UploadKeys(stem, m);
    var statOk, found, sha := store.Stat(key);
    assert Honest(store.objects, stem, a);
    if statOk && found && sha == a.sha { return true, true; }
    PutArtifact(store.objects, stem, m, i);
    ok := store.Put(key, Object(Zstd(a.sha.content), a.sha));
    skip := false;
  }

  /** The artifacts from place n on are in the store just as they were. */
  ghost predicate StillAhead(was: Objects, now: Objects, stem: string, arts: seq<Artifact>, n: int) {
    forall i :: 0 <= n <= i < |arts| ==> (Uploaded(now, stem, arts[i]) <==> Uploaded(was, stem, arts[i]))
  }

  /** Of the first n artifacts, those left alone were there; without failures, all that were there. */
  ghost predicate KeptOf(was: Objects, stem: string, arts: seq<Artifact>, n: int, kept: set<int>, all: bool) {
    && (forall i :: i in kept ==> 0 <= i < n <= |arts| && Uploaded(was, stem, arts[i]))
    && (all ==> forall i :: 0 <= i < n <= |arts| && Uploaded(was, stem, arts[i]) ==> i in kept)
  }

  lemma AheadStep(was: Objects, mid: Objects, now: Objects, stem: string, arts: seq<Artifact>, n: nat)
    requires n < |arts| && Zstded(arts) && StillAhead(was, mid, stem, arts, n)
    requires forall k :: k != KeyOf(stem, arts[n]) ==> (k in now <==> k in mid)
    requires forall k :: k != KeyOf(stem, arts[n]) && k in now ==> now[k] == mid[k]
    ensures StillAhead(was, now, stem, arts, n + 1)
  {
    forall i | n < i < |arts| ensures Uploaded(now, stem, arts[i]) <==> Uploaded(was, stem, arts[i]) {
      KeysDistinct(stem, arts[i], arts[n]);
      assert Uploaded(mid, stem, arts[i]) <==> Uploaded(was, stem, arts[i]);
    }
  }

  /** Where the artifact loop stands before place i. */
  ghost predicate Resumed(was: Objects, now: Objects, stem: string, arts: seq<Artifact>, i: nat, kept: set<int>,
                          transferred: nat, skipped: nat, all: bool)
  {
    && i <= |arts| && StillAhead(was, now, stem, arts, i) && KeptOf(was, stem, arts, i, kept, all)
    && Tallied(arts[..i], kept, transferred, skipped)
  }

  lemma ResumeTurn(was: Objects, mid: Objects, now: Objects, stem: string, arts: seq<Artifact>, i: nat,
                   kept: set<int>, transferred: nat, skipped: nat, all: bool)
    requires i < |arts| && Zstded(arts) && Resumed(was, mid, stem, arts, i, kept, transferred, skipped, all)
    requires forall k :: k != KeyOf(stem, arts[i]) ==> (k in now <==> k in mid)
    requires forall k :: k != KeyOf(stem, arts[i]) && k in now ==> now[k] == mid[k]
    ensures Uploaded(mid, stem, arts[i]) ==>
              Resumed(was, now, stem, arts, i + 1, kept + {i}, transferred, skipped + arts[i].bytes, all)
    ensures !all || !Uploaded(mid, stem, arts[i]) ==>
              Resumed(was, now, stem, arts, i + 1, kept, transferred + arts[i].bytes, skipped, all)
  {
    AheadStep(was, mid, now, stem, arts, i);
    TallyTurn(arts, i, kept, transferred, skipped);
    assert Uploaded(mid, stem, arts[i]) <==> Uploaded(was, stem, arts[i]);
  }

  /** The artifact loop: resumes over objects whose hash matches, puts the others, and marks each entry. */
  method UploadArtifacts(store: Store, stem: string, ghost m: Manifest, raw: seq<Artifact>)
    returns (ok: bool, arts: seq<Artifact>, transferred: nat, skipped: nat, ghost kept: set<int>)
    requires m.artifacts == Marked(raw) && Zstded(m.artifacts)
    requires store.objects in store.seen && AlwaysSafe(store.seen, stem, m)
    modifies store
    ensures store.objects in store.seen && AlwaysSafe(store.seen, stem, m) && old(store.seen) <= store.seen
    ensures store.objects - UploadKeys(stem, m) == old(store.objects) - UploadKeys(stem, m)
    ensures ok ==> arts == m.artifacts && AllStored(store.objects, stem, arts, |arts|)
    ensures ok ==> Tallied(arts, kept, transferred, skipped)
    ensures ok ==> KeptOf(old(store.objects), stem, arts, |arts|, kept, store.reliable)
    ensures store.reliable ==> ok
  {
    arts, transferred, skipped, kept := [], 0, 0, {};
    for i := 0 to |raw|
      invariant arts == m.artifacts[..i]
      invariant store.objects in store.seen && AlwaysSafe(store.seen, stem, m) && old(store.seen) <= store.seen
      invariant Safe(store.objects, stem, m)
      invariant store.objects - UploadKeys(stem, m) == old(store.objects) - UploadKeys(stem, m)
      invariant AllStored(store.objects, stem, m.artifacts, i)
      invariant Resumed(old(store.objects), store.objects, stem, m.artifacts, i, kept, transferred, skipped,
                        store.reliable)
    {
      var a := raw[i].(zstd := true);
      assert m.artifacts[..i + 1] == m.artifacts[..i] + [a];
      var skip;
      ghost var objs := store.objects;
      ok, skip := UploadOne(store, stem, m, i, a);
      if !ok { return; }
      ResumeTurn(old(store.objects), objs, store.objects, stem, m.artifacts, i, kept, transferred, skipped,
                 store.reliable);
      arts := arts + [a];
      if skip {
        skipped := skipped + a.bytes;
        kept := kept + {i};
      } else {
        transferred := transferred + a.bytes;
      }
    }
    assert m.artifacts[..|m.artifacts|] == m.artifacts;
    ok := true;
  }

  lemma PutManifest(objs: Objects, stem: string, m: Manifest)
    requires Zstded(m.artifacts) && Safe(objs, stem, m)
    requires AllStored(objs, stem, m.artifacts, |m.artifacts|)
    ensures Safe(objs[ManifestKey(stem) := Object(Document(m), OfManifest(m))], stem, m)
  {
    var after := objs[ManifestKey(stem) := Object(Document(m), OfManifest(m))];
    forall j | 0 <= j < |m.artifacts| ensures Stored(after, stem, m.artifacts[j]) {
      KeysDistinct(stem, m.artifacts[j], m.artifacts[j]);
      assert Stored(objs, stem, m.artifacts[j]);
    }
  }

  /** The upload under a stem. */
  method UploadTo(store: Store, entries: seq<Entry>, stem: string, snapshot: string, includeMemory: bool)
    returns (ok: bool, stats: Stats, ghost kept: set<int>)
    requires DistinctPaths(entries)
    requires store.objects in store.seen
    requires AlwaysSafe(store.seen, stem, ManifestFor(entries, snapshot, includeMemory))
    modifies store
    ensures store.objects in store.seen && old(store.seen) <= store.seen
    ensures var m := ManifestFor(entries, snapshot, includeMemory);
            && AlwaysSafe(store.seen, stem, m)
            && store.objects - UploadKeys(stem, m) == old(store.objects) - UploadKeys(stem, m)
            && (ok ==> ManifestKey(stem) in store.objects)
            && (ok ==> stats.transferred + stats.skipped == stats.total == m.totalBytes)
            && (ok ==> Tallied(m.artifacts, kept, stats.transferred, stats.skipped))
            && (ok ==> KeptOf(old(store.objects), stem, m.artifacts, |m.artifacts|, kept, store.reliable))
    ensures store.reliable ==> ok
  {
    stats, kept := Stats(0, 0, 0), {};
    var raw, total := BuildManifest(entries);
    ghost var want := ManifestFor(entries, snapshot, includeMemory);
    ArtifactsDescribe(entries, true);
    MarkedArtifacts(entries);
    var arts, transferred, skipped;
    ok, arts, transferred, skipped, kept := UploadArtifacts(store, stem, want, raw);
    if !ok { return; }
    var m := Manifest(SCHEMA_VERSION, snapshot, includeMemory, arts, total);
    assert m == want;
    PutManifest(store.objects, stem, want);
    ok := store.Put(ManifestKey(stem), Object(Document(m), OfManifest(m)));
    if ok { stats := Stats(transferred, skipped, total); }
  }

  /** runUpload: artifacts first, manifest.json last. Its precondition is the promise every one of its
      intermediate states keeps, so it may be interrupted and run again any number of times. */
  method RunUpload(store: Store, entries: seq<Entry>, prefix: string, snapshot: string, includeMemory: bool)
    returns (ok: bool, stats: Stats, ghost kept: set<int>)
    requires DistinctPaths(entries)
    requires store.objects in store.seen
    requires AlwaysSafe(store.seen, Stem(prefix), ManifestFor(entries, snapshot, includeMemory))
    modifies store
    ensures store.objects in store.seen && old(store.seen) <= store.seen
    ensures var m := ManifestFor(entries, snapshot, includeMemory);
            && AlwaysSafe(store.seen, Stem(prefix), m)
            && store.objects - UploadKeys(Stem(prefix), m) == old(store.objects) - UploadKeys(Stem(prefix), m)
            && (ok ==> ManifestKey(Stem(prefix)) in store.objects)
            && (ok ==> stats.transferred + stats.skipped == stats.total == m.totalBytes)
            && (ok ==> Tallied(m.artifacts, kept, stats.transferred, stats.skipped))
            && (ok ==> KeptOf(old(store.objects), Stem(prefix), m.artifacts, |m.artifacts|, kept, store.reliable))
    ensures store.reliable ==> ok
  {
    ok, stats, kept := UploadTo(store, entries, Stem(prefix), snapshot, includeMemory);
  }

  /** A prefix without a manifest is a valid place to start from, as long as the hashes recorded on the
      upload's own keys are true. */
  lemma FreshPrefixIsSafe(objs: Objects, stem: string, m: Manifest)
    requires ManifestKey(stem) !in objs
    requires forall k, x ::
               k in objs && k in UploadKeys(stem, m) && objs[k].sha == Sha256(x) ==> objs[k].body == Zstd(x)
    requires forall i :: 0 <= i < |m.artifacts| ==> m.artifacts[i].sha.Sha256?
    ensures Safe(objs, stem, m)
  {
    forall i | 0 <= i < |m.artifacts| ensures Honest(objs, stem, m.artifacts[i]) {
      var a := m.artifacts[i];
      assert a.sha == Sha256(a.sha.content) && KeyOf(stem, a) in UploadKeys(stem, m);
    }
  }

  // ----- Download -----

  /** A directory on disk. A file being written may hold anything until the write is verified. */
  class Dir {
    var files: map<string, seq<Byte>>
    /** No file operation fails. */
    const reliable: bool

    constructor (files: map<string, seq<Byte>>, reliable: bool)
      ensures this.files == files && this.reliable == reliable
    {
      this.files, this.reliable := files, reliable;
    }

    /** verifyArtifact: size, then hash. */
    method Verify(a: Artifact) returns (ok: bool)
      ensures ok ==> Verified(files, a)
      ensures reliable ==> (ok <==> Verified(files, a))
    {
      var readable: bool :| reliable ==> readable;
      ok := readable && a.path in files && |files[a.path]| == a.bytes && Sha256(files[a.path]) == a.sha;
    }

    /** downloadOne: creates the file and streams the decoded object into it. */
    method DownloadOne(store: Store, key: string, a: Artifact) returns (ok: bool)
      modifies this
      ensures files.Keys <= old(files).Keys + {a.path}
      ensures forall p :: p in old(files) && p != a.path ==> p in files && files[p] == old(files)[p]
      ensures (reliable && store.reliable && key in store.objects && a.zstd && store.objects[key].body.Zstd?) ==>
                ok && a.path in files && files[a.path] == store.objects[key].body.plain
    {
      var body;
      ok, body := store.Get(key);
      if !ok { return; }
      var written: seq<Byte>;
      if a.zstd && body.Zstd? {
        written := body.plain;
      } else if !a.zstd && body.Raw? {
        written := body.data;
      } else {
        written, ok :| true;
      }
      var cut: bool :| reliable && store.reliable ==> !cut;
      if cut {
        var part: seq<Byte> :| part <= written;
        written, ok := part, false;
      }
      files := files[a.path := written];
    }
  }

  predicate Verified(files: map<string, seq<Byte>>, a: Artifact) {
    a.path in files && |files[a.path]| == a.bytes && Sha256(files[a.path]) == a.sha
  }

  /** One artifact: left alone when it already verifies, downloaded and verified otherwise. */
  method FetchArtifact(store: Store, dir: Dir, stem: string, a: Artifact) returns (ok: bool, skip: bool)
    modifies dir
    ensures dir.files.Keys <= old(dir.files).Keys + {a.path}
    ensures forall p :: p in old(dir.files) && p != a.path ==> p in dir.files && dir.files[p] == old(dir.files)[p]
    ensures ok ==> Verified(dir.files, a)
    ensures skip ==> Verified(old(dir.files), a) && dir.files == old(dir.files)
    ensures dir.reliable ==> (skip <==> Verified(old(dir.files), a))
    ensures (dir.reliable && store.reliable && a.zstd && Stored(store.objects, stem, a)
             && a.bytes == |a.sha.content|) ==> ok
  {
    skip := dir.Verify(a);
    if skip { return true, true; }
    var mkdirOk: bool :| dir.reliable ==> mkdirOk;
    if !mkdirOk { return false, false; }
    ok := dir.DownloadOne(store, KeyOf(stem, a), a);
    if ok { ok := dir.Verify(a); }
  }

  predicate AllVerified(files: map<string, seq<Byte>>, arts: seq<Artifact>, n: nat)
    requires n <= |arts|
  {
    forall i :: 0 <= i < n ==> Verified(files, arts[i])
  }

  predicate ListsPath(arts: seq<Artifact>, p: string) {
    exists i :: 0 <= i < |arts| && arts[i].path == p
  }

  /** The prefix holds a manifest of this version over artifacts that are stored as it says. */
  ghost predicate Complete(objs: Objects, stem: string) {
    ManifestKey(stem) in objs && objs[ManifestKey(stem)].body.Document? &&
    var m := objs[ManifestKey(stem)].body.manifest;
    m.schemaVersion == SCHEMA_VERSION && AllStored(objs, stem, m.artifacts, |m.artifacts|)
    && forall i :: 0 <= i < |m.artifacts| ==>
         m.artifacts[i].zstd && m.artifacts[i].bytes == |m.artifacts[i].sha.content|
  }

  /** The files of the artifacts from place n on are just as they were. */
  ghost predicate SameAhead(was: map<string, seq<Byte>>, now: map<string, seq<Byte>>, arts: seq<Artifact>, n: int) {
    forall i :: 0 <= n <= i < |arts| ==> (Verified(now, arts[i]) <==> Verified(was, arts[i]))
  }

  /** Of the first n artifacts, those left alone were there and verified; without failures, all that were. */
  ghost predicate HadOf(was: map<string, seq<Byte>>, arts: seq<Artifact>, n: int, kept: set<int>, all: bool) {
    && (forall i :: i in kept ==> 0 <= i < n <= |arts| && Verified(was, arts[i]))
    && (all ==> forall i :: 0 <= i < n <= |arts| && Verified(was, arts[i]) ==> i in kept)
  }

  lemma SameStep(was: map<string, seq<Byte>>, mid: map<string, seq<Byte>>, now: map<string, seq<Byte>>,
                 arts: seq<Artifact>, n: nat)
    requires n < |arts| && DistinctArtifacts(arts) && SameAhead(was, mid, arts, n)
    requires now.Keys <= mid.Keys + {arts[n].path}
    requires forall p :: p in mid && p != arts[n].path ==> p in now && now[p] == mid[p]
    ensures SameAhead(was, now, arts, n + 1)
  {
    forall i | n < i < |arts| ensures Verified(now, arts[i]) <==> Verified(was, arts[i]) {
      assert arts[i].path != arts[n].path;
      assert arts[i].path in now <==> arts[i].path in mid;
      assert Verified(mid, arts[i]) <==> Verified(was, arts[i]);
    }
  }

  /** The artifact loop: keeps the files that verify and fetches the others. */
  method FetchAll(store: Store, dir: Dir, stem: string, arts: seq<Artifact>)
    returns (ok: bool, transferred: nat, skipped: nat, ghost kept: set<int>)
    modifies dir
    ensures ok && DistinctArtifacts(arts) ==> AllVerified(dir.files, arts, |arts|)
    ensures ok ==> Tallied(arts, kept, transferred, skipped)
    ensures ok && DistinctArtifacts(arts) ==> HadOf(old(dir.files), arts, |arts|, kept, dir.reliable)
    ensures forall p :: p in old(dir.files) && !ListsPath(arts, p) ==>
              p in dir.files && dir.files[p] == old(dir.files)[p]
    ensures (dir.reliable && store.reliable && AllStored(store.objects, stem, arts, |arts|)
             && forall i :: 0 <= i < |arts| ==> arts[i].zstd && arts[i].bytes == |arts[i].sha.content|) ==> ok
  {
    transferred, skipped, kept := 0, 0, {};
    for i := 0 to |arts|
      invariant DistinctArtifacts(arts) ==>
                  AllVerified(dir.files, arts, i) && SameAhead(old(dir.files), dir.files, arts, i)
                  && HadOf(old(dir.files), arts, i, kept, dir.reliable)
      invariant Tallied(arts[..i], kept, transferred, skipped) && forall k :: k in kept ==> k < i
      invariant forall p :: p in old(dir.files) && !ListsPath(arts, p) ==>
                  p in dir.files && dir.files[p] == old(dir.files)[p]
    {
      var a := arts[i];
      assert ListsPath(arts, a.path);
      TallyTurn(arts, i, kept, transferred, skipped);
      assert AllStored(store.objects, stem, arts, |arts|) ==> Stored(store.objects, stem, a);
      ghost var files := dir.files;
      var skip;
      ok, skip := FetchArtifact(store, dir, stem, a);
      if !ok { return; }
      if DistinctArtifacts(arts) { SameStep(old(dir.files), files, dir.files, arts, i); }
      if skip {
        skipped := skipped + a.bytes;
        kept := kept + {i};
      } else {
        transferred := transferred + a.bytes;
      }
    }
    assert arts[..|arts|] == arts;
    ok := true;
  }

  /** The download of what stands under a stem. */
  method DownloadFrom(store: Store, dir: Dir, stem: string)
    returns (ok: bool, stats: Stats, ghost m: Manifest, ghost kept: set<int>)
    modifies dir
    ensures ok ==> ManifestKey(stem) in store.objects
    ensures ok ==> store.objects[ManifestKey(stem)].body == Document(m)
    ensures ok ==> m.schemaVersion == SCHEMA_VERSION
    ensures ok && DistinctArtifacts(m.artifacts) ==> AllVerified(dir.files, m.artifacts, |m.artifacts|)
    ensures ok ==> stats.transferred + stats.skipped == SumBytes(m.artifacts) && stats.total == m.totalBytes
    ensures ok ==> Tallied(m.artifacts, kept, stats.transferred, stats.skipped)
    ensures ok && DistinctArtifacts(m.artifacts) ==>
              HadOf(old(dir.files), m.artifacts, |m.artifacts|, kept, dir.reliable)
    ensures ok ==> forall p :: p in old(dir.files) && !ListsPath(m.artifacts, p) ==>
              p in dir.files && dir.files[p] == old(dir.files)[p]
    ensures (dir.reliable && store.reliable && Complete(store.objects, stem)) ==> ok
  {
    stats, m, kept := Stats(0, 0, 0), Manifest(0, "", false, [], 0), {};
    var body;
    ok, body := store.Get(ManifestKey(stem));
    if !ok { return; }
    if !body.Document? || body.manifest.schemaVersion != SCHEMA_VERSION {
      ok := false;
      return;
    }
    var doc := body.manifest;
    m := doc;
    var transferred, skipped;
    ok, transferred, skipped, kept := FetchAll(store, dir, stem, doc.artifacts);
    if ok { stats := Stats(transferred, skipped, doc.totalBytes); }
  }

  /** runDownload: whatever the directory held before, a successful run leaves every artifact verified. */
  method RunDownload(store: Store, dir: Dir, prefix: string)
    returns (ok: bool, stats: Stats, ghost m: Manifest, ghost kept: set<int>)
    modifies dir
    ensures ok ==> ManifestKey(Stem(prefix)) in store.objects
    ensures ok ==> store.objects[ManifestKey(Stem(prefix))].body == Document(m)
    ensures ok ==> m.schemaVersion == SCHEMA_VERSION
    ensures ok && DistinctArtifacts(m.artifacts) ==> AllVerified(dir.files, m.artifacts, |m.artifacts|)
    ensures ok ==> stats.transferred + stats.skipped == SumBytes(m.artifacts) && stats.total == m.totalBytes
    ensures ok ==> Tallied(m.artifacts, kept, stats.transferred, stats.skipped)
    ensures ok && DistinctArtifacts(m.artifacts) ==>
              HadOf(old(dir.files), m.artifacts, |m.artifacts|, kept, dir.reliable)
    ensures ok ==> forall p :: p in old(dir.files) && !ListsPath(m.artifacts, p) ==>
              p in dir.files && dir.files[p] == old(dir.files)[p]
    ensures (dir.reliable && store.reliable && Complete(store.objects, Stem(prefix))) ==> ok
  {
    ok, stats, m, kept := DownloadFrom(store, dir, Stem(prefix));
  }

  /** A verified artifact file is the source file. */
  lemma VerifiedIsSource(files: map<string, seq<Byte>>, entries: seq<Entry>, e: Entry)
    requires DistinctPaths(entries) && e in entries && e.regular && e.path != "manifest.json"
    requires AllVerified(files, ArtifactsOf(entries, true), |ArtifactsOf(entries, true)|)
    ensures e.path in files && files[e.path] == e.content
  {
    ArtifactsDescribe(entries, true);
    var i :| 0 <= i < |ArtifactsOf(entries, true)| && ArtifactsOf(entries, true)[i] == ArtifactOf(e, true);
    assert Verified(files, ArtifactsOf(entries, true)[i]);
  }

  lemma SafeIsComplete(objs: Objects, entries: seq<Entry>, stem: string, snapshot: string, includeMemory: bool)
    requires Safe(objs, stem, ManifestFor(entries, snapshot, includeMemory)) && ManifestKey(stem) in objs
    ensures Complete(objs, stem)
  {
    var arts := ArtifactsOf(entries, true);
    forall i | 0 <= i < |arts| ensures arts[i].zstd && arts[i].bytes == |arts[i].sha.content| {
      var j := ArtifactFrom(entries, true, arts[i]);
    }
  }

  /** Restoring an export: with the uploader's manifest in place, a successful download into any directory
      gives back every source file and accounts for every byte. */
  method RestoreExport(store: Store, dir: Dir, entries: seq<Entry>, prefix: string, snapshot: string,
                       includeMemory: bool)
    returns (ok: bool, stats: Stats)
    requires DistinctPaths(entries)
    requires Safe(store.objects, Stem(prefix), ManifestFor(entries, snapshot, includeMemory))
    modifies dir
    ensures ok ==> forall e :: e in entries && e.regular && e.path != "manifest.json" ==>
              e.path in dir.files && dir.files[e.path] == e.content
    ensures ok ==> stats.transferred + stats.skipped == stats.total
    ensures (store.reliable && dir.reliable && ManifestKey(Stem(prefix)) in store.objects) ==> ok
  {
    ghost var stem := Stem(prefix);
    ghost var m;
    if ManifestKey(stem) in store.objects { SafeIsComplete(store.objects, entries, stem, snapshot, includeMemory); }
    ghost var kept;
    ok, stats, m, kept := RunDownload(store, dir, prefix);
    if ok {
      ArtifactsDescribe(entries, true);
      forall e | e in entries && e.regular && e.path != "manifest.json"
        ensures e.path in dir.files && dir.files[e.path] == e.content
      {
        VerifiedIsSource(dir.files, entries, e);
      }
    }
  }

  // ----- Delete -----

  function Scope(prefix: string): string {
    TrimSlashes(prefix) + "/"
  }

  /** strings.Trim(s, "/ ") is empty. */
  predicate Blank(s: string) {
    forall i :: 0 <= i < |s| ==> s[i] == '/' || s[i] == ' '
  }

  /** runDelete: removes the objects under the prefix's own directory; a blank prefix is refused. */
  method RunDelete(store: Store, prefix: string) returns (ok: bool)
    modifies store
    ensures Blank(prefix) ==> !ok && store.objects == old(store.objects)
    ensures forall k :: k in store.objects ==> k in old(store.objects) && store.objects[k] == old(store.objects)[k]
    ensures forall k :: k in old(store.objects) && !(Scope(prefix) <= k) ==> k in store.objects
    ensures ok ==> forall k :: k in store.objects ==> !(Scope(prefix) <= k)
    ensures store.reliable && !Blank(prefix) ==> ok
  {
    if Blank(prefix) { return false; }
    var listOk: bool :| store.reliable ==> listOk;
    if !listOk { return false; }
    var keys := set k | k in store.objects && Scope(prefix) <= k;
    while keys != {}
      invariant forall k :: k in store.objects ==> k in old(store.objects) && store.objects[k] == old(store.objects)[k]
      invariant forall k :: k in old(store.objects) && !(Scope(prefix) <= k) ==> k in store.objects
      invariant forall k :: k in store.objects && Scope(prefix) <= k ==> k in keys
      invariant forall k :: k in keys ==> Scope(prefix) <= k
      decreases |keys|
    {
      var k :| k in keys;
      ok := store.Remove(k);
      if !ok { return; }
      keys := keys - {k};
    }
    ok := true;
  }

  /** The prefix, but for trailing slashes, is as path.Join writes it. */
  predicate Neat(prefix: string) {
    Scope(prefix) == Stem(prefix)
  }

  /** The directory of q's keys is p's or lies below it. */
  predicate Within(q: string, p: string) {
    Stem(p) <= Stem(q)
  }

  lemma PrefixSplit(a: string, b: string, n: string)
    ensures a <= b + n <==> a <= b || (b <= a && a[|b|..] <= n)
  {
    assert b <= a ==> a == b + a[|b|..];
    if a <= b + n {
      if |a| <= |b| {
        assert a == (b + n)[..|a|] == b[..|a|];
      } else {
        assert b == (b + n)[..|b|] == a[..|b|];
        assert a[|b|..] == (b + n)[|b|..|a|] == n[..|a| - |b|];
      }
    }
  }

  lemma NotBlank(p: string)
    requires !Blank(p)
    ensures TrimSlashes(p) != ""
  {
    if TrimSlashes(p) == "" { OnlySlashes(p); }
  }

  lemma {:induction false} OnlySlashes(p: string)
    requires TrimSlashes(p) == ""
    ensures Blank(p)
  {
    if p != "" { OnlySlashes(p[..|p| - 1]); }
  }

  /** A delete of p that would remove any object written under any prefix has a neat p. */
  lemma OnlyNeatDeletes(p: string, q: string, n: string)
    requires !Blank(p) && GoodName(n) && Scope(p) <= PathJoin(q, n)
    ensures Neat(p)
  {
    NotBlank(p);
    JoinIsStem(q, n);
    DirectoryIsClean(TrimSlashes(p), q, n);
    StemOfTrimmed(p);
  }

  /** Deleting a neat p removes an object named n under q exactly when q's directory is p's or below it, or p's
      is below q's and n reaches into it. So it removes everything written under p, and nothing written under a
      prefix whose directory is neither above nor below. */
  lemma DeleteIsExact(p: string, q: string, n: string)
    requires Neat(p) && GoodName(n)
    ensures Scope(p) <= PathJoin(q, n) <==> Within(q, p) || (Within(p, q) && Stem(p)[|Stem(q)|..] <= n)
    ensures Scope(p) <= PathJoin(p, n)
    ensures !Within(q, p) && !Within(p, q) ==> !(Scope(p) <= PathJoin(q, n))
  {
    JoinIsStem(q, n);
    JoinIsStem(p, n);
    PrefixSplit(Stem(p), Stem(q), n);
  }

  /** Everything an upload under p wrote is in a delete's scope if and only if p is neat. Otherwise nothing is,
      whatever prefix it was written under. */
  lemma DeletesUploadIff(p: string, m: Manifest)
    requires !Blank(p) && GoodArtifacts(m.artifacts)
    ensures (forall k :: k in UploadKeys(Stem(p), m) ==> Scope(p) <= k) <==> Neat(p)
    ensures !Neat(p) ==> forall q, k :: k in UploadKeys(Stem(q), m) ==> !(Scope(p) <= k)
  {
    forall q, k | k in UploadKeys(Stem(q), m) && Scope(p) <= k ensures Neat(p) { UploadKeyOf(q, m, k, p); }
    assert ManifestKey(Stem(p)) in UploadKeys(Stem(p), m);
    if Neat(p) {
      forall k | k in UploadKeys(Stem(p), m) ensures Scope(p) <= k { UploadKeyUnder(p, m, k); }
    }
  }

  /** Every key of an upload is the stem with a good name behind it. */
  lemma UploadKeyName(stem: string, m: Manifest, k: string) returns (n: string)
    requires GoodArtifacts(m.artifacts) && k in UploadKeys(stem, m)
    ensures k == stem + n && GoodName(n)
  {
    ManifestNameIsGood();
    if k == ManifestKey(stem) {
      n := MANIFEST_NAME;
    } else {
      var i :| 0 <= i < |m.artifacts| && k == KeyOf(stem, m.artifacts[i]);
      SuffixIsGood(m.artifacts[i].path);
      n := ObjectKeyFor(m.artifacts[i]);
    }
  }

  lemma UploadKeyOf(q: string, m: Manifest, k: string, p: string)
    requires !Blank(p) && GoodArtifacts(m.artifacts) && k in UploadKeys(Stem(q), m) && Scope(p) <= k
    ensures Neat(p)
  {
    var n := UploadKeyName(Stem(q), m, k);
    JoinIsStem(q, n);
    OnlyNeatDeletes(p, q, n);
  }

  lemma UploadKeyUnder(p: string, m: Manifest, k: string)
    requires Neat(p) && GoodArtifacts(m.artifacts) && k in UploadKeys(Stem(p), m)
    ensures Scope(p) <= k
  {
    var n := UploadKeyName(Stem(p), m, k);
  }

  lemma GoodManifest(entries: seq<Entry>, snapshot: string, includeMemory: bool)
    ensures GoodArtifacts(ManifestFor(entries, snapshot, includeMemory).artifacts)
  {
    var arts := ArtifactsOf(entries, true);
    forall i | 0 <= i < |arts| ensures GoodName(arts[i].path) {
      var j := ArtifactFrom(entries, true, arts[i]);
    }
  }

  /** Deleting an export: under a neat prefix nothing the upload wrote is left; under any other nothing it wrote,
      there or under another prefix, is removed. */
  method DeleteExport(store: Store, prefix: string, ghost entries: seq<Entry>, ghost snapshot: string,
                      ghost includeMemory: bool)
    returns (ok: bool)
    modifies store
    ensures ok && Neat(prefix) ==>
              store.objects.Keys !! UploadKeys(Stem(prefix), ManifestFor(entries, snapshot, includeMemory))
    ensures !Neat(prefix) ==>
              forall q, k :: (k in old(store.objects)
                && k in UploadKeys(Stem(q), ManifestFor(entries, snapshot, includeMemory))) ==> k in store.objects
    ensures store.reliable ==> (ok <==> !Blank(prefix))
  {
    GoodManifest(entries, snapshot, includeMemory);
    if !Blank(prefix) { DeletesUploadIff(prefix, ManifestFor(entries, snapshot, includeMemory)); }
    ok := RunDelete(store, prefix);
  }

  lemma UntidyParts()
    ensures CleanParts("a//b") == ["a", "b"]
  {
    Strings.SplitField("a", '/', "/b");
    Strings.SplitField("", '/', "b");
    Strings.SplitField("b", '/', "");
    assert "a" + "/" + "/b" == "a//b" && "" + "/" + "b" == "/b";
    var parts := ["a", "", "b"];
    assert Strings.Split("a//b", '/') == parts;
    assert parts[1..] == ["", "b"] && parts[1..][1..] == ["b"] && parts[1..][1..][1..] == [];
    assert Tidy(["b"], false, ["a"]) == ["a"] + ["b"];
    assert Tidy(parts[1..], false, ["a"]) == ["a"] + ["b"];
  }

  /** A prefix that an upload cleans and a delete does not: what was written under a//b stays. */
  lemma UntidyPrefixExample()
    ensures PathJoin("a//b", MANIFEST_NAME) == "a/b/manifest.json" && Scope("a//b") == "a//b/"
    ensures !Blank("a//b") && !Neat("a//b")
  {
    ManifestNameIsGood();
    JoinIsStem("a//b", MANIFEST_NAME);
    UntidyParts();
    assert ["a", "b"][1..] == ["b"];
    assert Stem("a//b") == "a/b/";
    assert Stem("a//b")[2] == 'b' && Scope("a//b")[2] == '/';
    assert "a//b"[0] == 'a';
  }
}
