/** Golden disk images, stored as content-addressed chunks: ChunkAndPush and PullAndReassemble in
    internal/oci/vmimage.go. */
module VmImage {

  import opened Common
  import opened SparseFile

  datatype Config = Config(totalSize: nat, chunkSize: nat, format: string, osType: string)

  datatype Blob = Chunk(data: seq<Byte>) | ConfigBlob(config: Config) | EmptyJson

  /** A digest names one content: the collision-free hash is modelled by what it names. */
  datatype Digest = Sha256(content: Blob)

  /** A layer descriptor; every other media type is a layer that holds no part of the disk. */
  datatype Layer = ChunkLayer(digest: Digest, size: nat, offset: nat) | OtherLayer(digest: Digest)

  datatype Manifest = Manifest(config: Digest, layers: seq<Layer>)

  datatype PushResult = PushResult(transferred: nat, skipped: nat, total: nat)

  datatype RegState = RegState(blobs: set<Blob>, manifests: set<Manifest>, tags: map<string, Manifest>)

  // ----- A registry whose every call may fail -----

  function Refs(m: Manifest): set<Blob> {
    {m.config.content} + (set l | l in m.layers :: l.digest.content)
  }

  /** Every manifest's config and layers are present, and every tag names a stored manifest. */
  ghost predicate Closed(s: RegState) {
    && (forall m :: m in s.manifests ==> Refs(m) <= s.blobs)
    && (forall t :: t in s.tags ==> s.tags[t] in s.manifests)
  }

  class Registry {
    var s: RegState
    /** Every state the registry has been in, and how often a tag was moved. */
    ghost var seen: set<RegState>
    ghost var moves: nat
    /** No call fails. */
    const reliable: bool

    constructor (reliable: bool)
      ensures Valid() && s == RegState({}, {}, map[]) && this.reliable == reliable
    {
      s, this.reliable := RegState({}, {}, map[]), reliable;
      seen, moves := {RegState({}, {}, map[])}, 0;
    }

    ghost predicate Valid()
      reads this
    {
      s in seen && forall st :: st in seen ==> Closed(st)
    }

    method Exists(d: Digest) returns (ok: bool, found: bool)
      ensures ok ==> found == (d.content in s.blobs)
      ensures reliable ==> ok
    {
      ok :| reliable ==> ok;
      found := ok && d.content in s.blobs;
    }

    /** A failed push may still have stored the blob. */
    method Push(b: Blob) returns (ok: bool)
      requires Valid()
      modifies this
      ensures Valid() && old(seen) <= seen
      ensures moves == old(moves) && s.tags == old(s.tags) && old(s.blobs) <= s.blobs <= old(s.blobs) + {b}
      ensures ok ==> b in s.blobs
      ensures reliable ==> ok
    {
      ok :| reliable ==> ok;
      var stored: bool :| ok ==> stored;
      if stored {
        s := s.(blobs := s.blobs + {b});
        seen := seen + {s};
      }
    }

    /** oras.PackManifest: an empty layer list gets the OCI placeholder layer, which it pushes itself. */
    method PackManifest(config: Digest, layers: seq<Layer>) returns (ok: bool, m: Manifest)
      requires Valid() && config.content in s.blobs
      requires forall i :: 0 <= i < |layers| ==> layers[i].digest.content in s.blobs
      modifies this
      ensures Valid() && old(seen) <= seen
      ensures moves == old(moves) && s.tags == old(s.tags) && old(s.blobs) <= s.blobs <= old(s.blobs) + {EmptyJson}
      ensures ok ==> m == Packed(config, layers) && m in s.manifests
      ensures reliable ==> ok
    {
      m := Packed(config, layers);
      if layers == [] {
        ok := Push(EmptyJson);
        if !ok { return; }
      }
      ok :| reliable ==> ok;
      var stored: bool :| ok ==> stored;
      if stored {
        s := s.(manifests := s.manifests + {m});
        seen := seen + {s};
      }
    }

    /** A failed call may have moved the tag. */
    method Tag(m: Manifest, tag: string) returns (ok: bool)
      requires Valid() && m in s.manifests
      modifies this
      ensures Valid() && old(seen) <= seen && s.blobs == old(s.blobs)
      ensures s.tags == old(s.tags)[tag := m] || (!ok && moves == old(moves) && s.tags == old(s.tags))
      ensures reliable ==> ok
    {
      ok :| reliable ==> ok;
      var moved: bool :| ok ==> moved;
      if moved {
        s := s.(tags := s.tags[tag := m]);
        seen, moves := seen + {s}, moves + 1;
      }
    }

    /** The tagged manifest; its bytes are verified against the digest the tag resolves to. */
    method Resolve(ref: string) returns (ok: bool, m: Manifest)
      ensures ok ==> ref in s.tags && m == s.tags[ref]
      ensures reliable && ref in s.tags ==> ok
    {
      var fails: bool :| reliable ==> !fails;
      ok := ref in s.tags && !fails;
      m := if ok then s.tags[ref] else Manifest(Sha256(EmptyJson), []);
    }

    /** The bytes a fetch streams back; a damaged store may return anything. */
    method Fetch(d: Digest) returns (ok: bool, b: Blob)
      ensures reliable && d.content in s.blobs ==> ok && b == d.content
    {
      ok, b := true, d.content;
      var intact: bool :| reliable && d.content in s.blobs ==> intact;
      if !intact { ok, b :| true; }
    }
  }

  function Packed(config: Digest, layers: seq<Layer>): Manifest {
    Manifest(config, if layers == [] then [OtherLayer(Sha256(EmptyJson))] else layers)
  }

  // ----- Cutting a disk into windows -----

  /** The window of at most cs bytes at off. */
  function Window(disk: seq<Byte>, cs: nat, off: nat): (w: seq<Byte>)
    requires cs > 0 && off < |disk|
    ensures |w| == Min(cs, |disk| - off) > 0
  {
    disk[off..Min(off + cs, |disk|)]
  }

  /** The windows ChunkAndPush reads, from off on. */
  function Windows(disk: seq<Byte>, cs: nat, off: nat): seq<seq<Byte>>
    requires cs > 0 && off <= |disk|
    decreases |disk| - off
  {
    if off == |disk| then []
    else [Window(disk, cs, off)] + Windows(disk, cs, off + |Window(disk, cs, off)|)
  }

  function Flat(ws: seq<seq<Byte>>): seq<Byte> {
    if ws == [] then [] else ws[0] + Flat(ws[1..])
  }

  /** The chunk layers of consecutive windows at off: one for every window that is not all zero. */
  function LayersOf(ws: seq<seq<Byte>>, off: nat): seq<Layer> {
    if ws == [] then []
    else if IsZero(ws[0]) then LayersOf(ws[1..], off + |ws[0]|)
    else [ChunkLayer(Sha256(Chunk(ws[0])), |ws[0]|, off)] + LayersOf(ws[1..], off + |ws[0]|)
  }

  /** The chunk layers of the disk from off on. */
  function LayersFrom(disk: seq<Byte>, cs: nat, off: nat): seq<Layer>
    requires cs > 0 && off <= |disk|
  {
    LayersOf(Windows(disk, cs, off), off)
  }

  function DiskLayers(disk: seq<Byte>, cs: nat): seq<Layer>
    requires cs > 0
  {
    LayersFrom(disk, cs, 0)
  }

  /** The layer of one window: none when it is all zero. */
  function LayerOf(w: seq<Byte>, off: nat): seq<Layer> {
    if IsZero(w) then [] else [ChunkLayer(Sha256(Chunk(w)), |w|, off)]
  }

  lemma LayersOfCons(w: seq<Byte>, next: seq<seq<Byte>>, off: nat)
    ensures LayersOf([w] + next, off) == LayerOf(w, off) + LayersOf(next, off + |w|)
  {
    assert ([w] + next)[1..] == next;
    assert [] + LayersOf(next, off + |w|) == LayersOf(next, off + |w|);
  }

  lemma LayersFromStep(disk: seq<Byte>, cs: nat, off: nat)
    requires cs > 0 && off < |disk|
    ensures var w := Window(disk, cs, off);
            LayersFrom(disk, cs, off) == LayerOf(w, off) + LayersFrom(disk, cs, off + |w|)
  {
    var w := Window(disk, cs, off);
    LayersOfCons(w, Windows(disk, cs, off + |w|), off);
  }

  lemma FlatCons(w: seq<Byte>, next: seq<seq<Byte>>)
    ensures Flat([w] + next) == w + Flat(next)
  {
    assert ([w] + next)[1..] == next;
  }

  lemma SliceCons<T>(s: seq<T>, off: nat, n: nat)
    requires off + n <= |s|
    ensures s[off..] == s[off..off + n] + s[off + n..]
  {}

  lemma {:induction false} WindowsAreTheDisk(disk: seq<Byte>, cs: nat, off: nat)
    requires cs > 0 && off <= |disk|
    ensures Flat(Windows(disk, cs, off)) == disk[off..]
    decreases |disk| - off
  {
    if off < |disk| {
      var w := Window(disk, cs, off);
      var next := Windows(disk, cs, off + |w|);
      WindowsAreTheDisk(disk, cs, off + |w|);
      FlatCons(w, next);
      SliceCons(disk, off, |w|);
    }
  }

  function ManifestFor(disk: seq<Byte>, cs: nat, format: string, osType: string): Manifest
    requires cs > 0
  {
    Packed(Sha256(ConfigBlob(Config(|disk|, cs, format, osType))), DiskLayers(disk, cs))
  }

  // ----- Byte accounting -----

  function LayerBlobs(ls: seq<Layer>): set<Blob> {
    set i | 0 <= i < |ls| :: ls[i].digest.content
  }

  /** The windows that are all zero, or those that are not, in order. */
  function Filtered(ws: seq<seq<Byte>>, zero: bool): seq<seq<Byte>> {
    if ws == [] then []
    else (if IsZero(ws[0]) == zero then [ws[0]] else []) + Filtered(ws[1..], zero)
  }

  lemma FilteredCons(w: seq<Byte>, next: seq<seq<Byte>>, zero: bool)
    ensures Flat(Filtered([w] + next, zero)) ==
            (if IsZero(w) == zero then w else []) + Flat(Filtered(next, zero))
  {
    assert ([w] + next)[1..] == next;
    assert [] + Filtered(next, zero) == Filtered(next, zero);
    assert [] + Flat(Filtered(next, zero)) == Flat(Filtered(next, zero));
    if IsZero(w) == zero { FlatCons(w, Filtered(next, zero)); }
  }

  /** The two kinds make up all windows, none lost and none counted twice. */
  lemma {:induction false} FilteredSplits(ws: seq<seq<Byte>>)
    ensures multiset(Filtered(ws, true)) + multiset(Filtered(ws, false)) == multiset(ws)
    ensures forall w, zero :: w in Filtered(ws, zero) ==> IsZero(w) == zero
  {
    if ws != [] {
      FilteredSplits(ws[1..]);
      assert ws == [ws[0]] + ws[1..];
    }
  }

  lemma {:induction false} FilteredBytes(ws: seq<seq<Byte>>)
    ensures |Flat(Filtered(ws, true))| + |Flat(Filtered(ws, false))| == |Flat(ws)|
  {
    if ws != [] {
      FilteredBytes(ws[1..]);
      assert ws == [ws[0]] + ws[1..];
      FlatCons(ws[0], ws[1..]);
      FilteredCons(ws[0], ws[1..], true);
      FilteredCons(ws[0], ws[1..], false);
    }
  }

  /** The bytes of a set of windows, each counted once. */
  ghost function SumLengths(ws: set<seq<Byte>>): nat {
    if ws == {} then 0 else var w :| w in ws; |w| + SumLengths(ws - {w})
  }

  lemma {:induction false} SumLengthsAdd(ws: set<seq<Byte>>, w: seq<Byte>)
    requires w !in ws
    ensures SumLengths(ws + {w}) == SumLengths(ws) + |w|
  {
    var all := ws + {w};
    var v :| v in all && SumLengths(all) == |v| + SumLengths(all - {v});
    if v == w {
      assert all - {v} == ws;
    } else {
      var rest := ws - {v};
      assert all - {v} == rest + {w};
      SumLengthsAdd(rest, w);
      SumLengthsAdd(rest, v);
      assert rest + {v} == ws;
    }
  }

  /** The windows a push has to send to a registry that holds `present`. */
  ghost function NewWindows(ws: seq<seq<Byte>>, present: set<Blob>): set<seq<Byte>> {
    set w | w in ws && !IsZero(w) && Chunk(w) !in present
  }

  lemma NewWindowsCons(w: seq<Byte>, next: seq<seq<Byte>>, present: set<Blob>)
    ensures SumLengths(NewWindows([w] + next, present)) ==
            if IsZero(w) then SumLengths(NewWindows(next, present))
            else SumLengths(NewWindows(next, present + {Chunk(w)})) + if Chunk(w) in present then 0 else |w|
  {
    if IsZero(w) {
      assert NewWindows([w] + next, present) == NewWindows(next, present);
    } else if Chunk(w) in present {
      assert present + {Chunk(w)} == present;
      assert NewWindows([w] + next, present) == NewWindows(next, present);
    } else {
      var rest := NewWindows(next, present + {Chunk(w)});
      assert NewWindows([w] + next, present) == rest + {w};
      SumLengthsAdd(rest, w);
    }
  }

  /** A manifest's layers are all in the registry when its windows are. */
  predicate Uploaded(layers: seq<Layer>, blobs: set<Blob>) {
    forall i :: 0 <= i < |layers| ==> layers[i].digest.content in blobs
  }

  // ----- Push -----

  /** Where the read loop stands: the layers so far, those to come, and the bytes left to count. */
  ghost predicate Accounted(all: seq<seq<Byte>>, rest: seq<seq<Byte>>, transferred: nat, skipped: nat,
                            was: set<Blob>, now: set<Blob>)
  {
    && transferred + SumLengths(NewWindows(rest, now)) == SumLengths(NewWindows(all, was))
    && transferred + skipped + |Flat(Filtered(rest, false))| == |Flat(Filtered(all, false))|
  }

  lemma AccountZero(all: seq<seq<Byte>>, w: seq<Byte>, next: seq<seq<Byte>>, transferred: nat, skipped: nat,
                    was: set<Blob>, now: set<Blob>)
    requires IsZero(w) && Accounted(all, [w] + next, transferred, skipped, was, now)
    ensures Accounted(all, next, transferred, skipped, was, now)
  {
    NewWindowsCons(w, next, now);
    FilteredCons(w, next, false);
  }

  lemma AccountWindow(all: seq<seq<Byte>>, w: seq<Byte>, next: seq<seq<Byte>>, transferred: nat, skipped: nat,
                      was: set<Blob>, now: set<Blob>)
    requires !IsZero(w) && Accounted(all, [w] + next, transferred, skipped, was, now)
    ensures Chunk(w) in now ==> Accounted(all, next, transferred, skipped + |w|, was, now)
    ensures Chunk(w) !in now ==> Accounted(all, next, transferred + |w|, skipped, was, now + {Chunk(w)})
  {
    NewWindowsCons(w, next, now);
    FilteredCons(w, next, false);
    if Chunk(w) in now { assert now + {Chunk(w)} == now; }
  }

  /** One non-zero window: skipped when the registry has it, pushed otherwise. */
  method PushWindow(chunk: seq<Byte>, offset: nat, r: Registry, layers: seq<Layer>, transferred: nat, skipped: nat,
                    ghost all: seq<seq<Byte>>, ghost next: seq<seq<Byte>>, ghost was: set<Blob>)
    returns (ok: bool, layers': seq<Layer>, transferred': nat, skipped': nat)
    requires r.Valid() && !IsZero(chunk) && Uploaded(layers, r.s.blobs)
    requires Accounted(all, [chunk] + next, transferred, skipped, was, r.s.blobs)
    modifies r
    ensures r.Valid() && old(r.seen) <= r.seen && old(r.s.blobs) <= r.s.blobs
    ensures r.moves == old(r.moves) && r.s.tags == old(r.s.tags)
    ensures ok ==> layers' == layers + [ChunkLayer(Sha256(Chunk(chunk)), |chunk|, offset)]
    ensures ok ==> Chunk(chunk) in r.s.blobs && transferred' + skipped' == transferred + skipped + |chunk|
    ensures ok ==> skipped' == skipped + if Chunk(chunk) in old(r.s.blobs) then |chunk| else 0
    ensures ok ==> Uploaded(layers', r.s.blobs) && Accounted(all, next, transferred', skipped', was, r.s.blobs)
    ensures r.reliable ==> ok
  {
    var desc := ChunkLayer(Sha256(Chunk(chunk)), |chunk|, offset);
    AccountWindow(all, chunk, next, transferred, skipped, was, r.s.blobs);
    layers', transferred', skipped' := layers + [desc], transferred, skipped;
    var found;
    ok, found := r.Exists(desc.digest);
    if !ok { return; }
    if found {
      skipped' := skipped + |chunk|;
    } else {
      ok := r.Push(Chunk(chunk));
      if !ok { return; }
      transferred' := transferred + |chunk|;
      assert old(r.s.blobs) + {Chunk(chunk)} == r.s.blobs;
    }
  }

  /** The read loop has reached offset. */
  ghost predicate Reached(disk: seq<Byte>, cs: nat, offset: nat, layers: seq<Layer>,
                          transferred: nat, skipped: nat, was: set<Blob>, now: set<Blob>)
    requires cs > 0
  {
    && offset <= |disk| && layers + LayersFrom(disk, cs, offset) == DiskLayers(disk, cs) && Uploaded(layers, now)
    && Accounted(Windows(disk, cs, 0), Windows(disk, cs, offset), transferred, skipped, was, now)
  }

  /** What is left to read is the window at offset and what follows it. */
  lemma ReachedWindow(disk: seq<Byte>, cs: nat, offset: nat, layers: seq<Layer>,
                      transferred: nat, skipped: nat, was: set<Blob>, now: set<Blob>)
    requires cs > 0 && offset < |disk| && Reached(disk, cs, offset, layers, transferred, skipped, was, now)
    ensures var w := Window(disk, cs, offset);
            var end := offset + |w|;
            && Windows(disk, cs, offset) == [w] + Windows(disk, cs, end)
            && (layers + LayerOf(w, offset)) + LayersFrom(disk, cs, end) == DiskLayers(disk, cs)
            && (IsZero(w) ==> Reached(disk, cs, end, layers, transferred, skipped, was, now))
  {
    var w := Window(disk, cs, offset);
    var rest := LayersFrom(disk, cs, offset + |w|);
    LayersFromStep(disk, cs, offset);
    assert layers + (LayerOf(w, offset) + rest) == (layers + LayerOf(w, offset)) + rest;
    if IsZero(w) {
      assert layers + [] == layers;
      AccountZero(Windows(disk, cs, 0), w, Windows(disk, cs, offset + |w|), transferred, skipped, was, now);
    }
  }

  /** One turn of the read loop: a zero window is passed over. */
  method PushNext(disk: seq<Byte>, cs: nat, offset: nat, r: Registry, layers: seq<Layer>, transferred: nat,
                  skipped: nat, ghost was: set<Blob>)
    returns (ok: bool, offset': nat, layers': seq<Layer>, transferred': nat, skipped': nat)
    requires cs > 0 && r.Valid() && offset < |disk|
    requires Reached(disk, cs, offset, layers, transferred, skipped, was, r.s.blobs)
    modifies r
    ensures r.Valid() && old(r.seen) <= r.seen && old(r.s.blobs) <= r.s.blobs
    ensures r.moves == old(r.moves) && r.s.tags == old(r.s.tags)
    ensures ok ==> offset < offset' && Reached(disk, cs, offset', layers', transferred', skipped', was, r.s.blobs)
    ensures r.reliable ==> ok
  {
    var chunk := Window(disk, cs, offset);
    ReachedWindow(disk, cs, offset, layers, transferred, skipped, was, r.s.blobs);
    ok, offset', layers', transferred', skipped' := true, offset + |chunk|, layers, transferred, skipped;
    if !IsZero(chunk) {
      ok, layers', transferred', skipped' :=
        PushWindow(chunk, offset, r, layers, transferred, skipped,
                   Windows(disk, cs, 0), Windows(disk, cs, offset'), was);
    }
  }

  /** The read loop: pushes every non-zero window the registry lacks. */
  method PushChunks(disk: seq<Byte>, cs: nat, r: Registry)
    returns (ok: bool, layers: seq<Layer>, transferred: nat, skipped: nat)
    requires cs > 0 && r.Valid()
    modifies r
    ensures r.Valid() && old(r.seen) <= r.seen && old(r.s.blobs) <= r.s.blobs
    ensures r.moves == old(r.moves) && r.s.tags == old(r.s.tags)
    ensures ok ==> Reached(disk, cs, |disk|, layers, transferred, skipped, old(r.s.blobs), r.s.blobs)
    ensures r.reliable ==> ok
  {
    var offset;
    ok, offset, layers, transferred, skipped := true, 0, [], 0, 0;
    assert [] + DiskLayers(disk, cs) == DiskLayers(disk, cs);
    while offset < |disk|
      invariant ok && r.Valid() && old(r.seen) <= r.seen && old(r.s.blobs) <= r.s.blobs
      invariant r.moves == old(r.moves) && r.s.tags == old(r.s.tags)
      invariant Reached(disk, cs, offset, layers, transferred, skipped, old(r.s.blobs), r.s.blobs)
    {
      ok, offset, layers, transferred, skipped :=
        PushNext(disk, cs, offset, r, layers, transferred, skipped, old(r.s.blobs));
      if !ok { return; }
    }
  }

  /** ChunkAndPush: chunks, then the config they need, then the manifest, and the tag last. A failed push leaves
      the tags alone, unless it is the tag call itself that failed: then the tag may name the new image, which
      is complete. */
  method ChunkAndPush(disk: seq<Byte>, cs: nat, format: string, osType: string, r: Registry, tag: string)
    returns (ok: bool, result: PushResult, ghost atTag: bool)
    requires cs > 0 && r.Valid()
    modifies r
    ensures r.Valid() && old(r.seen) <= r.seen && old(r.s.blobs) <= r.s.blobs
    ensures !ok && !atTag ==> r.moves == old(r.moves) && r.s.tags == old(r.s.tags)
    ensures !ok && atTag ==> (r.moves == old(r.moves) && r.s.tags == old(r.s.tags))
                             || r.s.tags == old(r.s.tags)[tag := ManifestFor(disk, cs, format, osType)]
    ensures ok ==> r.s.tags == old(r.s.tags)[tag := ManifestFor(disk, cs, format, osType)]
    ensures ok ==> r.s.tags[tag].config == Sha256(ConfigBlob(Config(|disk|, cs, format, osType)))
    ensures ok ==> result.transferred ==
                   SumLengths(set w | w in Windows(disk, cs, 0) && !IsZero(w) && Chunk(w) !in old(r.s.blobs))
    ensures ok ==> result.transferred + result.skipped + |Flat(Filtered(Windows(disk, cs, 0), true))| == |disk|
    ensures ok ==> result.total == |disk|
    ensures ok ==> LayerBlobs(DiskLayers(disk, cs)) <= r.s.blobs
    ensures r.reliable ==> ok
  {
    result, atTag := PushResult(0, 0, |disk|), false;
    var layers, transferred, skipped;
    ok, layers, transferred, skipped := PushChunks(disk, cs, r);
    if !ok { return; }
    assert layers + [] == layers;
    assert NewWindows([], r.s.blobs) == {};
    var config := Config(|disk|, cs, format, osType);
    var cfgDesc := Sha256(ConfigBlob(config));
    var checked, found := r.Exists(cfgDesc);
    if !(checked && found) {
      ok := r.Push(ConfigBlob(config));
      if !ok { return; }
    }
    var m;
    ok, m := r.PackManifest(cfgDesc, layers);
    if !ok { return; }
    atTag := true;
    ok := r.Tag(m, tag);
    if !ok { return; }
    FilteredBytes(Windows(disk, cs, 0));
    WindowsAreTheDisk(disk, cs, 0);
    assert disk[0..] == disk;
    result := PushResult(transferred, skipped, |disk|);
  }

  predicate IsSlice(disk: seq<Byte>, cs: nat, from: nat, l: Layer) {
    && l.ChunkLayer? && from <= l.offset < |disk| && l.size == Min(cs, |disk| - l.offset)
    && l.digest == Sha256(Chunk(disk[l.offset..l.offset + l.size])) && !IsZero(disk[l.offset..l.offset + l.size])
  }

  /** Some layer holds byte x. */
  predicate Held(ls: seq<Layer>, x: int) {
    exists l :: l in ls && Covers(l, x)
  }

  lemma HeldStep(l: seq<Layer>, rest: seq<Layer>, x: int)
    ensures Held(l + rest, x) <==> Held(l, x) || Held(rest, x)
  {
    if Held(l, x) {
      var k :| k in l && Covers(k, x);
      assert k in l + rest;
    } else if Held(rest, x) {
      var k :| k in rest && Covers(k, x);
      assert k in l + rest;
    }
  }

  /** The layers are the disk's own windows, none all zero. */
  lemma {:induction false} LayersAreSlices(disk: seq<Byte>, cs: nat, off: nat, l: Layer)
    requires cs > 0 && off <= |disk| && l in LayersFrom(disk, cs, off)
    ensures IsSlice(disk, cs, off, l)
    decreases |disk| - off
  {
    if off < |disk| {
      var w := Window(disk, cs, off);
      LayersFromStep(disk, cs, off);
      if l !in LayerOf(w, off) { LayersAreSlices(disk, cs, off + |w|, l); }
    }
  }

  lemma HeldFirst(w: seq<Byte>, off: nat, x: int)
    requires off <= x < off + |w| && w[x - off] != 0
    ensures Held(LayerOf(w, off), x)
  {
    assert !IsZero(w);
    var l := ChunkLayer(Sha256(Chunk(w)), |w|, off);
    assert l in LayerOf(w, off) && Covers(l, x);
  }

  lemma {:induction false} DataHeld(ws: seq<seq<Byte>>, off: nat, x: nat)
    requires off <= x < off + |Flat(ws)| && Flat(ws)[x - off] != 0
    ensures Held(LayersOf(ws, off), x)
    decreases |ws|
  {
    var w, next := ws[0], ws[1..];
    assert ws == [w] + next;
    FlatCons(w, next);
    LayersOfCons(w, next, off);
    HeldStep(LayerOf(w, off), LayersOf(next, off + |w|), x);
    if x < off + |w| {
      HeldFirst(w, off, x);
    } else {
      DataHeld(next, off + |w|, x);
    }
  }

  /** Every byte of the disk that is not zero lies in a layer. */
  lemma LayersHoldData(disk: seq<Byte>, cs: nat, x: nat)
    requires cs > 0 && x < |disk| && disk[x] != 0
    ensures Held(DiskLayers(disk, cs), x)
  {
    WindowsAreTheDisk(disk, cs, 0);
    DataHeld(Windows(disk, cs, 0), 0, x);
  }

  /** Pushing a disk whose chunks are all there moves no chunk bytes. */
  lemma RepushIsFree(disk: seq<Byte>, cs: nat, present: set<Blob>)
    requires cs > 0 && LayerBlobs(DiskLayers(disk, cs)) <= present
    ensures NewWindows(Windows(disk, cs, 0), present) == {}
  {
    var ws := Windows(disk, cs, 0);
    forall w | w in ws && !IsZero(w) ensures Chunk(w) in present { WindowIsStored(ws, 0, w); }
  }

  lemma {:induction false} WindowIsStored(ws: seq<seq<Byte>>, off: nat, w: seq<Byte>)
    requires w in ws && !IsZero(w)
    ensures Chunk(w) in LayerBlobs(LayersOf(ws, off))
    decreases |ws|
  {
    var next := ws[1..];
    assert ws == [ws[0]] + next;
    LayersOfCons(ws[0], next, off);
    var ls, rest := LayersOf(ws, off), LayersOf(next, off + |ws[0]|);
    if w == ws[0] {
      assert ls[0].digest.content == Chunk(w);
    } else {
      WindowIsStored(next, off + |ws[0]|, w);
      var i :| 0 <= i < |rest| && rest[i].digest.content == Chunk(w);
      assert ls[|LayerOf(ws[0], off)| + i] == rest[i];
    }
  }

  /** A disk of one byte that is not zero is sent whole to an empty registry. */
  lemma OneByteExample()
    ensures SumLengths(NewWindows(Windows([1], 1, 0), {})) == 1
    ensures Filtered(Windows([1], 1, 0), true) == []
  {
    assert Window([1], 1, 0) == [1];
    assert Windows([1], 1, 0) == [[1]];
    assert !IsZero([1]) by { assert [1][0] == 1; }
    SumLengthsAdd({}, [1]);
    assert NewWindows([[1]], {}) == {} + {[1]};
  }

  // ----- Pull -----

  /** s with chunk at off; a chunk that does not fit is left out. */
  function Overlay(s: seq<Byte>, chunk: seq<Byte>, off: nat): (r: seq<Byte>)
    ensures |r| == |s|
  {
    if off + |chunk| <= |s| then s[..off] + chunk + s[off + |chunk|..] else s
  }

  /** Chunk layers in disk order, none reaching past size. */
  predicate InOrder(ls: seq<Layer>, from: nat, size: nat) {
    ls == [] ||
    if ls[0].ChunkLayer? && ls[0].digest.content.Chunk? then
      var chunk := ls[0].digest.content.data;
      from <= ls[0].offset && ls[0].offset + |chunk| <= size && InOrder(ls[1..], ls[0].offset + |chunk|, size)
    else ls[0].OtherLayer? && InOrder(ls[1..], from, size)
  }

  function Lay(s: seq<Byte>, l: Layer): (r: seq<Byte>)
    ensures |r| == |s|
  {
    if l.ChunkLayer? && l.digest.content.Chunk? then Overlay(s, l.digest.content.data, l.offset) else s
  }

  /** The simple form of reassembly: lay every chunk over the destination at its offset. */
  function Assemble(s: seq<Byte>, ls: seq<Layer>): seq<Byte>
    decreases |ls|
  {
    if ls == [] then s else Assemble(Lay(s, ls[0]), ls[1..])
  }

  /** Byte x of the disk is the chunk's. */
  predicate Covers(l: Layer, x: int) {
    l.ChunkLayer? && l.digest.content.Chunk? && l.offset <= x < l.offset + |l.digest.content.data|
  }

  /** Chunk layers within size that do not overlap, in any order. */
  ghost predicate Apart(ls: seq<Layer>, size: nat) {
    && (forall i :: 0 <= i < |ls| && ls[i].ChunkLayer? ==>
          ls[i].digest.content.Chunk? && ls[i].offset + |ls[i].digest.content.data| <= size)
    && (forall i, j, x :: 0 <= i < j < |ls| && Covers(ls[i], x) ==> !Covers(ls[j], x))
  }

  /** The destination is zero where the layers' bytes will land. */
  ghost predicate ZeroUnder(s: seq<Byte>, ls: seq<Layer>) {
    forall i, x :: 0 <= i < |ls| && 0 <= x < |s| && Covers(ls[i], x) ==> s[x] == 0
  }

  /** fetchChunkAt: sparse into a file just truncated, dense onto a device; then the digest is verified. */
  method FetchChunkAt(r: Registry, layer: Layer, f: File) returns (ok: bool)
    requires layer.ChunkLayer?
    modifies f
    ensures ok ==> layer.digest.content.Chunk?
    ensures (ok && layer.offset + |layer.digest.content.data| <= |old(f.data)|
             && (f.device || ZeroUnder(old(f.data), [layer]))) ==>
              f.data == Overlay(old(f.data), layer.digest.content.data, layer.offset)
    ensures ok && f.device ==> layer.offset + |layer.digest.content.data| <= |old(f.data)|
    ensures (r.reliable && f.reliable && layer.digest.content in r.s.blobs && layer.digest.content.Chunk?
             && (f.device ==> layer.offset + |layer.digest.content.data| <= |old(f.data)|)) ==> ok
  {
    var b;
    ok, b := r.Fetch(layer.digest);
    if !ok || !b.Chunk? { return false; }
    if !f.device {
      ok := f.WriteSparseAt(b.data, layer.offset);
    } else {
      ok := f.WriteAt(b.data, layer.offset);
    }
    if !ok || Sha256(b) != layer.digest { return false; }
    if layer.offset + |b.data| <= |old(f.data)| && (f.device || ZeroUnder(old(f.data), [layer])) {
      if f.device {
        DenseIsOverlay(old(f.data), f.data, b.data, layer.offset);
      } else {
        ZeroSlice(old(f.data), layer);
        SparseIsDense(old(f.data), f.data, b.data, layer.offset);
      }
    }
  }

  lemma ZeroSlice(s: seq<Byte>, l: Layer)
    requires l.ChunkLayer? && l.digest.content.Chunk? && l.offset + |l.digest.content.data| <= |s|
    requires ZeroUnder(s, [l])
    ensures IsZero(s[l.offset..l.offset + |l.digest.content.data|])
  {
    forall x | l.offset <= x < l.offset + |l.digest.content.data| ensures s[x] == 0 {
      assert Covers([l][0], x);
    }
  }

  lemma DenseIsOverlay(was: seq<Byte>, now: seq<Byte>, chunk: seq<Byte>, off: nat)
    requires off + |chunk| <= |was| == |now|
    requires forall i :: At(now, i) == Written(was, chunk, off, i)
    ensures now == Overlay(was, chunk, off)
  {
    forall i | 0 <= i < |was| ensures now[i] == Overlay(was, chunk, off)[i] {
      assert At(now, i) == Written(was, chunk, off, i);
    }
  }

  /** What the destination holds before any chunk lands: zeros in a file, its old bytes on a device. */
  function Base(f0: seq<Byte>, device: bool, size: nat): seq<Byte> {
    if device then f0 else seq(size, i => 0)
  }

  /** PullAndReassemble. When it succeeds the destination is the simple reassembly of the tagged manifest,
      whatever the store streamed back and in whatever order the layers stand. */
  method PullAndReassemble(r: Registry, ref: string, f: File) returns (ok: bool)
    requires r.Valid()
    modifies f
    ensures ok ==> ref in r.s.tags && r.s.tags[ref].config.content.ConfigBlob?
    ensures ok ==> var m := r.s.tags[ref];
                   var base := Base(old(f.data), f.device, m.config.content.config.totalSize);
                   Apart(m.layers, |base|) ==> f.data == Assemble(base, m.layers)
    ensures (r.reliable && f.reliable && ref in r.s.tags && r.s.tags[ref].config.content.ConfigBlob?
             && Apart(r.s.tags[ref].layers,
                      |Base(old(f.data), f.device, r.s.tags[ref].config.content.config.totalSize)|)) ==> ok
  {
    var m;
    ok, m := r.Resolve(ref);
    if !ok { return; }
    assert Closed(r.s) && Refs(m) <= r.s.blobs;
    var b;
    ok, b := r.Fetch(m.config);
    if !ok || Sha256(b) != m.config || !b.ConfigBlob? { return false; }
    var opens: bool :| f.reliable ==> opens;
    if !opens { return false; }
    if !f.device { f.Truncate(b.config.totalSize); }
    ghost var base := Base(old(f.data), f.device, b.config.totalSize);
    assert f.data == base;
    ok := LayLayers(r, m.layers, f);
  }

  /** The loop over the manifest's layers. */
  method LayLayers(r: Registry, layers: seq<Layer>, f: File) returns (ok: bool)
    modifies f
    ensures (ok && Apart(layers, |old(f.data)|) && (f.device || ZeroUnder(old(f.data), layers))) ==>
              f.data == Assemble(old(f.data), layers)
    ensures (r.reliable && f.reliable && Apart(layers, |old(f.data)|)
             && (f.device || ZeroUnder(old(f.data), layers))
             && (forall l :: l in layers ==> l.digest.content in r.s.blobs)) ==> ok
  {
    ghost var apart := Apart(layers, |f.data|) && (f.device || ZeroUnder(f.data, layers));
    ghost var want := Assemble(f.data, layers);
    var rest := layers;
    while rest != []
      invariant apart ==> Pending(f.data, rest, want) && (f.device || ZeroUnder(f.data, rest))
      invariant forall l :: l in rest ==> l in layers
    {
      var layer := rest[0];
      if apart { PendingStep(f.data, rest, want); }
      rest := rest[1..];
      if layer.OtherLayer? { continue; }
      ok := FetchChunkAt(r, layer, f);
      if !ok { return; }
    }
    ok := true;
  }

  /** Laying the remaining layers over s gives want. */
  ghost predicate Pending(s: seq<Byte>, rest: seq<Layer>, want: seq<Byte>) {
    Apart(rest, |s|) && Assemble(s, rest) == want
  }

  /** Laying the next layer leaves the rest pending, and what is zero under them zero. */
  lemma PendingStep(s: seq<Byte>, rest: seq<Layer>, want: seq<Byte>)
    requires Pending(s, rest, want) && rest != []
    ensures Pending(Lay(s, rest[0]), rest[1..], want)
    ensures ZeroUnder(s, rest) ==> ZeroUnder(s, [rest[0]]) && ZeroUnder(Lay(s, rest[0]), rest[1..])
  {
    var next := Lay(s, rest[0]);
    forall i, j, x | 0 <= i < j < |rest[1..]| && Covers(rest[1..][i], x) ensures !Covers(rest[1..][j], x) {
      assert rest[1..][i] == rest[i + 1] && rest[1..][j] == rest[j + 1];
    }
    if ZeroUnder(s, rest) {
      forall x | 0 <= x < |s| && Covers([rest[0]][0], x) ensures s[x] == 0 {}
      forall i, x | 0 <= i < |rest[1..]| && 0 <= x < |s| && Covers(rest[1..][i], x) ensures next[x] == 0 {
        assert rest[1..][i] == rest[i + 1] && !Covers(rest[0], x);
        LayAt(s, rest[0], x);
      }
    }
  }

  /** Laying a layer that fits changes the bytes it covers, to its own, and no other. */
  lemma LayAt(s: seq<Byte>, l: Layer, x: nat)
    requires x < |s| && (Covers(l, x) ==> l.offset + |l.digest.content.data| <= |s|)
    ensures Lay(s, l)[x] == if Covers(l, x) then l.digest.content.data[x - l.offset] else s[x]
  {
  }

  /** Reassembly, byte by byte: the layer that covers a byte decides it. */
  lemma {:induction false} AssembleAt(s: seq<Byte>, ls: seq<Layer>, x: nat)
    requires Apart(ls, |s|) && x < |s|
    ensures |Assemble(s, ls)| == |s|
    ensures forall i :: 0 <= i < |ls| && Covers(ls[i], x) ==>
              Assemble(s, ls)[x] == ls[i].digest.content.data[x - ls[i].offset]
    ensures (forall i :: 0 <= i < |ls| ==> !Covers(ls[i], x)) ==> Assemble(s, ls)[x] == s[x]
    decreases |ls|
  {
    if ls != [] {
      var next, rest := Lay(s, ls[0]), ls[1..];
      PendingStep(s, ls, Assemble(s, ls));
      AssembleAt(next, rest, x);
      LayAt(s, ls[0], x);
      forall i | 0 <= i < |ls| && Covers(ls[i], x)
        ensures Assemble(s, ls)[x] == ls[i].digest.content.data[x - ls[i].offset]
      {
        if i > 0 {
          assert rest[i - 1] == ls[i];
        } else {
          forall k | 0 <= k < |rest| ensures !Covers(rest[k], x) { assert rest[k] == ls[k + 1]; }
        }
      }
      if forall i :: 0 <= i < |ls| ==> !Covers(ls[i], x) {
        forall k | 0 <= k < |rest| ensures !Covers(rest[k], x) { assert rest[k] == ls[k + 1]; }
      }
    }
  }

  /** The offsets decide, not the order: manifests with the same layers reassemble to the same bytes. */
  lemma OrderDoesNotMatter(s: seq<Byte>, ls: seq<Layer>, other: seq<Layer>)
    requires Apart(ls, |s|) && Apart(other, |s|) && forall l :: l in ls <==> l in other
    ensures Assemble(s, ls) == Assemble(s, other)
  {
    AssembleLength(s, ls);
    AssembleLength(s, other);
    forall x | 0 <= x < |s| ensures Assemble(s, ls)[x] == Assemble(s, other)[x] {
      AssembleAt(s, ls, x);
      AssembleAt(s, other, x);
      if i :| 0 <= i < |ls| && Covers(ls[i], x) {
        assert ls[i] in other;
        var j :| 0 <= j < |other| && other[j] == ls[i];
      } else {
        forall j | 0 <= j < |other| ensures !Covers(other[j], x) {
          assert other[j] in ls;
          var i :| 0 <= i < |ls| && ls[i] == other[j];
        }
      }
    }
  }

  lemma {:induction false} AssembleLength(s: seq<Byte>, ls: seq<Layer>)
    ensures |Assemble(s, ls)| == |s|
    decreases |ls|
  {
    if ls != [] { AssembleLength(Lay(s, ls[0]), ls[1..]); }
  }

  /** Layers in disk order do not overlap. */
  lemma {:induction false} InOrderIsApart(ls: seq<Layer>, from: nat, size: nat)
    requires InOrder(ls, from, size)
    ensures Apart(ls, size)
    ensures forall i, x :: 0 <= i < |ls| && Covers(ls[i], x) ==> x >= from
    decreases |ls|
  {
    if ls != [] {
      var rest := ls[1..];
      var next := if ls[0].ChunkLayer? then ls[0].offset + |ls[0].digest.content.data| else from;
      InOrderIsApart(rest, next, size);
      forall i, x | 0 <= i < |ls| && Covers(ls[i], x) ensures x >= from && (i > 0 ==> x >= next) {
        if i > 0 { assert rest[i - 1] == ls[i]; }
      }
      forall i | 0 <= i < |ls| && ls[i].ChunkLayer?
        ensures ls[i].digest.content.Chunk? && ls[i].offset + |ls[i].digest.content.data| <= size
      {
        if i > 0 { assert rest[i - 1] == ls[i]; }
      }
      forall i, j, x | 0 <= i < j < |ls| && Covers(ls[i], x) ensures !Covers(ls[j], x) {
        if i > 0 { assert rest[i - 1] == ls[i] && rest[j - 1] == ls[j]; }
      }
    }
  }

  // ----- Push, then pull -----

  lemma {:induction false} PushedInOrder(ws: seq<seq<Byte>>, off: nat, from: nat, size: nat)
    requires from <= off && off + |Flat(ws)| <= size
    ensures InOrder(LayersOf(ws, off), from, size)
    decreases |ws|
  {
    if ws != [] {
      var end, next := off + |ws[0]|, ws[1..];
      if IsZero(ws[0]) {
        PushedInOrder(next, end, from, size);
      } else {
        PushedInOrder(next, end, end, size);
        assert LayersOf(ws, off)[1..] == LayersOf(next, end);
      }
    }
  }

  /** Every stored window is the disk's; every other byte from off on is the destination's own. */
  function Restored(s: seq<Byte>, ws: seq<seq<Byte>>, off: nat): seq<Byte>
    requires off + |Flat(ws)| <= |s|
  {
    if ws == [] then s[off..]
    else (if IsZero(ws[0]) then s[off..off + |ws[0]|] else ws[0]) + Restored(s, ws[1..], off + |ws[0]|)
  }

  /** The windows that were not stored read as zero in s. */
  predicate HolesZero(s: seq<Byte>, ws: seq<seq<Byte>>, off: nat)
    requires off + |Flat(ws)| <= |s|
  {
    ws == [] || ((IsZero(ws[0]) ==> IsZero(s[off..off + |ws[0]|])) && HolesZero(s, ws[1..], off + |ws[0]|))
  }

  lemma SameSlices<T>(s: seq<T>, t: seq<T>, off: nat, n: nat)
    requires off + n <= |s| == |t| && s[off..] == t[off..]
    ensures s[off..off + n] == t[off..off + n] && s[off + n..] == t[off + n..]
  {
    assert s[off..off + n] == s[off..][..n] && t[off..off + n] == t[off..][..n];
    assert s[off + n..] == s[off..][n..] && t[off + n..] == t[off..][n..];
  }

  lemma {:induction false} RestoredDependsOnRest(s: seq<Byte>, t: seq<Byte>, ws: seq<seq<Byte>>, off: nat)
    requires off + |Flat(ws)| <= |s| == |t| && s[off..] == t[off..]
    ensures Restored(s, ws, off) == Restored(t, ws, off)
    decreases |ws|
  {
    if ws != [] {
      var n := |ws[0]|;
      SameSlices(s, t, off, n);
      RestoredDependsOnRest(s, t, ws[1..], off + n);
    }
  }

  lemma Regroup<T>(a: seq<T>, b: seq<T>, c: seq<T>)
    ensures (a + b) + c == a + (b + c)
  {}

  lemma ConcatIff<T>(a: seq<T>, b: seq<T>, c: seq<T>, d: seq<T>)
    requires |a| == |c|
    ensures a + b == c + d <==> a == c && b == d
  {
    if a + b == c + d {
      assert (a + b)[..|a|] == a && (c + d)[..|a|] == c;
      assert (a + b)[|a|..] == b && (c + d)[|a|..] == d;
    }
  }

  lemma SplitIff<T>(a: seq<T>, b: seq<T>, c: seq<T>, d: seq<T>, e: seq<T>)
    requires |a| == |c|
    ensures a + b == (c + d) + e <==> a == c && b == d + e
  {
    Regroup(c, d, e);
    ConcatIff(a, b, c, d + e);
  }

  lemma OverlayParts(s: seq<Byte>, w: seq<Byte>, off: nat)
    requires off + |w| <= |s|
    ensures var t := Overlay(s, w, off); t[..off + |w|] == s[..off] + w && t[off + |w|..] == s[off + |w|..]
  {}

  lemma AssembleCons(s: seq<Byte>, l: Layer, next: seq<Layer>)
    ensures Assemble(s, [l] + next) == Assemble(Lay(s, l), next)
  {
    assert ([l] + next)[1..] == next;
  }

  lemma TakeMore<T>(s: seq<T>, off: nat, end: nat, tail: seq<T>)
    requires off <= end <= |s|
    ensures s[..off] + (s[off..end] + tail) == s[..end] + tail
  {}

  /** A chunk laid at off, with everything behind it restored. */
  lemma ChunkRestores(s: seq<Byte>, w: seq<Byte>, next: seq<seq<Byte>>, off: nat)
    requires off + |w| + |Flat(next)| <= |s|
    ensures var t, end := Overlay(s, w, off), off + |w|;
            t[..end] + Restored(t, next, end) == s[..off] + (w + Restored(s, next, end))
  {
    var t, end := Overlay(s, w, off), off + |w|;
    OverlayParts(s, w, off);
    RestoredDependsOnRest(t, s, next, end);
    Regroup(s[..off], w, Restored(s, next, end));
  }

  predicate Restores(s: seq<Byte>, ws: seq<seq<Byte>>, off: nat) {
    off + |Flat(ws)| <= |s| && Assemble(s, LayersOf(ws, off)) == s[..off] + Restored(s, ws, off)
  }

  lemma HoleRestores(s: seq<Byte>, ws: seq<seq<Byte>>, off: nat)
    requires ws != [] && IsZero(ws[0]) && Restores(s, ws[1..], off + |ws[0]|)
    ensures Restores(s, ws, off)
  {
    TakeMore(s, off, off + |ws[0]|, Restored(s, ws[1..], off + |ws[0]|));
  }

  lemma AssembleWindow(s: seq<Byte>, ws: seq<seq<Byte>>, off: nat)
    requires ws != [] && !IsZero(ws[0])
    ensures Assemble(s, LayersOf(ws, off)) == Assemble(Overlay(s, ws[0], off), LayersOf(ws[1..], off + |ws[0]|))
  {
    AssembleCons(s, ChunkLayer(Sha256(Chunk(ws[0])), |ws[0]|, off), LayersOf(ws[1..], off + |ws[0]|));
  }

  lemma WindowRestores(s: seq<Byte>, ws: seq<seq<Byte>>, off: nat)
    requires ws != [] && !IsZero(ws[0]) && off + |Flat(ws)| <= |s|
    requires Restores(Overlay(s, ws[0], off), ws[1..], off + |ws[0]|)
    ensures Restores(s, ws, off)
  {
    AssembleWindow(s, ws, off);
    ChunkRestores(s, ws[0], ws[1..], off);
  }

  /** Laying the stored windows over s restores the disk but for the windows left out. */
  lemma {:induction false} AssembleRestores(s: seq<Byte>, ws: seq<seq<Byte>>, off: nat)
    requires off + |Flat(ws)| <= |s|
    ensures Restores(s, ws, off)
    decreases |ws|
  {
    if ws == [] {
      assert s == s[..off] + s[off..];
    } else if IsZero(ws[0]) {
      AssembleRestores(s, ws[1..], off + |ws[0]|);
      HoleRestores(s, ws, off);
    } else {
      AssembleRestores(Overlay(s, ws[0], off), ws[1..], off + |ws[0]|);
      WindowRestores(s, ws, off);
    }
  }

  lemma ZeroSeqs(a: seq<Byte>, b: seq<Byte>)
    requires |a| == |b| && IsZero(a)
    ensures IsZero(b) <==> a == b
  {}

  predicate IsDisk(restored: seq<Byte>, s: seq<Byte>, ws: seq<seq<Byte>>, off: nat)
    requires off + |Flat(ws)| <= |s|
  {
    restored == Flat(ws) + s[off + |Flat(ws)|..]
  }

  lemma IsDiskCons(first: seq<Byte>, tail: seq<Byte>, s: seq<Byte>, ws: seq<seq<Byte>>, off: nat)
    requires ws != [] && off + |Flat(ws)| <= |s| && |first| == |ws[0]|
    ensures IsDisk(first + tail, s, ws, off) <==> first == ws[0] && IsDisk(tail, s, ws[1..], off + |ws[0]|)
  {
    SplitIff(first, tail, ws[0], Flat(ws[1..]), s[off + |Flat(ws)|..]);
  }

  lemma HolesZeroCons(s: seq<Byte>, ws: seq<seq<Byte>>, off: nat)
    requires ws != [] && off + |Flat(ws)| <= |s|
    ensures var first := if IsZero(ws[0]) then s[off..off + |ws[0]|] else ws[0];
            HolesZero(s, ws, off) <==> first == ws[0] && HolesZero(s, ws[1..], off + |ws[0]|)
  {
    if IsZero(ws[0]) { ZeroSeqs(ws[0], s[off..off + |ws[0]|]); }
  }

  /** The restored bytes are the disk's exactly when the windows left out were already zero. */
  lemma {:induction false} RestoredIsDiskIff(s: seq<Byte>, ws: seq<seq<Byte>>, off: nat)
    requires off + |Flat(ws)| <= |s|
    ensures IsDisk(Restored(s, ws, off), s, ws, off) <==> HolesZero(s, ws, off)
    decreases |ws|
  {
    if ws == [] {
      assert [] + s[off..] == s[off..];
    } else {
      var next, end := ws[1..], off + |ws[0]|;
      var first := if IsZero(ws[0]) then s[off..end] else ws[0];
      RestoredIsDiskIff(s, next, end);
      IsDiskCons(first, Restored(s, next, end), s, ws, off);
      HolesZeroCons(s, ws, off);
    }
  }

  lemma AllZeroHasZeroHoles(s: seq<Byte>, ws: seq<seq<Byte>>, off: nat)
    requires off + |Flat(ws)| <= |s| && IsZero(s)
    ensures HolesZero(s, ws, off)
  {
    if ws != [] { AllZeroHasZeroHoles(s, ws[1..], off + |ws[0]|); }
  }

  lemma AssemblePacked(s: seq<Byte>, disk: seq<Byte>, cs: nat, format: string, osType: string)
    requires cs > 0 && |disk| <= |s|
    ensures var m, ws := ManifestFor(disk, cs, format, osType), Windows(disk, cs, 0);
            Flat(ws) == disk && InOrder(m.layers, 0, |s|) && Assemble(s, m.layers) == Restored(s, ws, 0)
  {
    var ws := Windows(disk, cs, 0);
    WindowsAreTheDisk(disk, cs, 0);
    assert disk[0..] == disk;
    AssembleRestores(s, ws, 0);
    PushedInOrder(ws, 0, 0, |s|);
    assert s[..0] + Restored(s, ws, 0) == Restored(s, ws, 0);
    var m := ManifestFor(disk, cs, format, osType);
    if DiskLayers(disk, cs) == [] { assert m.layers[1..] == []; }
  }

  /** Pushing a disk and pulling it into a regular file gives back the identical bytes. */
  lemma FileRoundTrip(disk: seq<Byte>, cs: nat, format: string, osType: string)
    requires cs > 0
    ensures var m := ManifestFor(disk, cs, format, osType);
            var base := Base([], false, m.config.content.config.totalSize);
            InOrder(m.layers, 0, |base|) && Assemble(base, m.layers) == disk
  {
    var base, ws := Base([], false, |disk|), Windows(disk, cs, 0);
    AssemblePacked(base, disk, cs, format, osType);
    AllZeroHasZeroHoles(base, ws, 0);
    RestoredIsDiskIff(base, ws, 0);
    assert disk + base[|disk|..] == disk;
  }

  /** Pulled onto a device, every stored window is exact and every other byte is unchanged, so the device
      holds the disk if and only if the windows left out were already zero there. */
  lemma DeviceRoundTrip(device: seq<Byte>, disk: seq<Byte>, cs: nat, format: string, osType: string)
    requires cs > 0 && |disk| <= |device|
    ensures var m, ws := ManifestFor(disk, cs, format, osType), Windows(disk, cs, 0);
            && Flat(ws) == disk && InOrder(m.layers, 0, |device|)
            && Assemble(device, m.layers) == Restored(device, ws, 0)
            && (Assemble(device, m.layers) == disk + device[|disk|..] <==> HolesZero(device, ws, 0))
  {
    AssemblePacked(device, disk, cs, format, osType);
    RestoredIsDiskIff(device, Windows(disk, cs, 0), 0);
  }

  /** A one-byte zero disk pulled onto a device that holds a 1: the window is not stored, and the 1 stays. */
  lemma StaleDeviceExample()
    ensures Assemble([1], ManifestFor([0], 1, "raw", "").layers) == [1]
  {
    DeviceRoundTrip([1], [0], 1, "raw", "");
    assert [0][0..1] == [0] && [1][0..1] == [1];
    var ws := Windows([0], 1, 0);
    assert Window([0], 1, 0) == [0];
    assert ws == [[0]] && ws[1..] == [];
    assert IsZero([0]);
  }

  /** The whole trip: a push under a tag and a pull of that tag, every call able to fail. */
  method PushThenPull(disk: seq<Byte>, cs: nat, format: string, osType: string, r: Registry, tag: string, f: File)
    returns (ok: bool)
    requires cs > 0 && r.Valid()
    modifies r, f
    ensures ok && !f.device ==> f.data == disk
    ensures ok && f.device && |disk| <= |old(f.data)| ==>
              Flat(Windows(disk, cs, 0)) == disk && f.data == Restored(old(f.data), Windows(disk, cs, 0), 0)
    ensures r.reliable && f.reliable && (f.device ==> |disk| <= |old(f.data)|) ==> ok
  {
    var result;
    ghost var atTag;
    ok, result, atTag := ChunkAndPush(disk, cs, format, osType, r, tag);
    if !ok { return; }
    ghost var m := ManifestFor(disk, cs, format, osType);
    if !f.device {
      FileRoundTrip(disk, cs, format, osType);
      InOrderIsApart(m.layers, 0, |disk|);
    }
    if f.device && |disk| <= |f.data| {
      AssemblePacked(f.data, disk, cs, format, osType);
      InOrderIsApart(m.layers, 0, |f.data|);
    }
    ok := PullAndReassemble(r, tag, f);
  }
}
