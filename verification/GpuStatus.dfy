/** Merging discovered GPUs into a node's status next to the controller that allocates them:
    cmd/gpu-discovery/main.go. */
module GpuStatus {

  import opened Common

  /** What discovery owns of a GPU; the rest of its hardware fields are one opaque value. */
  datatype GpuInfo = GpuInfo(vendor: string, model: string, rest: int)

  datatype Allocation = Allocation(taken: bool, allocatedTo: string)

  datatype Gpu = Gpu(pciAddress: string, info: GpuInfo, alloc: Allocation)

  datatype Partition = Partition(id: int, info: int, allocatedTo: string)

  datatype Fabric = Fabric(info: int, partitions: seq<Partition>)

  /** host stands for the topology, the NVSwitches, VfioReady and the discovery time. */
  datatype Status = Status(phase: string, host: int, gpus: seq<Gpu>, gpuCount: nat, freeGpus: nat,
                           gpuModel: string, gpuVendor: string, fabric: Option<Fabric>)

  const NO_ALLOC := Allocation(false, "")
  const EMPTY_STATUS := Status("", 0, [], 0, 0, "", "", None)

  /** The allocation a list holds for an address: its last entry wins. */
  function AllocOf(gpus: seq<Gpu>, pci: string): Option<Allocation> {
    if gpus == [] then None
    else if gpus[|gpus| - 1].pciAddress == pci then Some(gpus[|gpus| - 1].alloc)
    else AllocOf(gpus[..|gpus| - 1], pci)
  }

  /** Whom a list of partitions gives an ID to: its last entry wins. */
  function HolderOf(parts: seq<Partition>, id: int): Option<string> {
    if parts == [] then None
    else if parts[|parts| - 1].id == id then Some(parts[|parts| - 1].allocatedTo)
    else HolderOf(parts[..|parts| - 1], id)
  }

  function Partitions(s: Status): seq<Partition> {
    if s.fabric.Some? then s.fabric.value.partitions else []
  }

  /** No later entry has this one's address; with distinct addresses that is every entry. */
  predicate LastGpu(gpus: seq<Gpu>, i: int) {
    0 <= i < |gpus| && forall k :: i < k < |gpus| ==> gpus[k].pciAddress != gpus[i].pciAddress
  }

  predicate LastPartition(parts: seq<Partition>, i: int) {
    0 <= i < |parts| && forall k :: i < k < |parts| ==> parts[k].id != parts[i].id
  }

  lemma {:induction false} AllocOfEntry(gpus: seq<Gpu>, i: nat)
    requires LastGpu(gpus, i)
    ensures AllocOf(gpus, gpus[i].pciAddress) == Some(gpus[i].alloc)
  {
    if i < |gpus| - 1 { AllocOfEntry(gpus[..|gpus| - 1], i); }
  }

  lemma {:induction false} AllocOfNone(gpus: seq<Gpu>, pci: string)
    ensures AllocOf(gpus, pci).None? <==> forall i :: 0 <= i < |gpus| ==> gpus[i].pciAddress != pci
  {
    if gpus != [] { AllocOfNone(gpus[..|gpus| - 1], pci); }
  }

  lemma {:induction false} HolderOfEntry(parts: seq<Partition>, i: nat)
    requires LastPartition(parts, i)
    ensures HolderOf(parts, parts[i].id) == Some(parts[i].allocatedTo)
  {
    if i < |parts| - 1 { HolderOfEntry(parts[..|parts| - 1], i); }
  }

  lemma {:induction false} HolderOfNone(parts: seq<Partition>, id: int)
    ensures HolderOf(parts, id).None? <==> forall i :: 0 <= i < |parts| ==> parts[i].id != id
  {
    if parts != [] { HolderOfNone(parts[..|parts| - 1], id); }
  }

  /** FreeGPUs is the number of unallocated GPUs. */
  predicate FreeExact(s: Status) {
    s.freeGpus == |set i | 0 <= i < |s.gpus| && !s.gpus[i].alloc.taken|
  }

  /** A GPU in both lists has the allocation its last earlier entry had. */
  ghost predicate KeepsGpus(before: seq<Gpu>, after: seq<Gpu>) {
    forall i, j :: 0 <= i < |after| && LastGpu(before, j) && before[j].pciAddress == after[i].pciAddress ==>
      after[i].alloc == before[j].alloc
  }

  /** A partition in both lists has the holder its last earlier entry had. */
  ghost predicate KeepsPartitions(before: seq<Partition>, after: seq<Partition>) {
    forall i, j :: 0 <= i < |after| && LastPartition(before, j) && before[j].id == after[i].id ==>
      after[i].allocatedTo == before[j].allocatedTo
  }

  /** Nothing that is in both states changed hands. */
  ghost predicate KeepsAllocations(before: Status, after: Status) {
    KeepsGpus(before.gpus, after.gpus) && KeepsPartitions(Partitions(before), Partitions(after))
  }

  /** What a discovery cycle found. The partitions are the slice every merge of the cycle shares. */
  class Discovered {
    const host: int
    const gpus: seq<Gpu>
    const hasFabric: bool
    const fabricInfo: int
    const partitions: array<Partition>

    constructor (host: int, gpus: seq<Gpu>, hasFabric: bool, fabricInfo: int, partitions: array<Partition>)
      ensures this.host == host && this.gpus == gpus && this.hasFabric == hasFabric
      ensures this.fabricInfo == fabricInfo && this.partitions == partitions
    {
      this.host, this.gpus, this.hasFabric, this.fabricInfo, this.partitions :=
        host, gpus, hasFabric, fabricInfo, partitions;
    }
  }

  /** The fields of the merged status that come from the hardware. */
  predicate ShowsHardware(s: Status, d: Discovered) {
    && s.host == d.host && s.gpuCount == |s.gpus| == |d.gpus|
    && (forall i :: 0 <= i < |d.gpus| ==>
          s.gpus[i].pciAddress == d.gpus[i].pciAddress && s.gpus[i].info == d.gpus[i].info)
    && s.gpuModel == (if d.gpus == [] then "" else d.gpus[0].info.model)
    && s.gpuVendor == (if d.gpus == [] then "" else d.gpus[0].info.vendor)
    && s.fabric.Some? == d.hasFabric
  }

  /** A GPU new to the stored status is free. */
  ghost predicate NewAreFree(before: Status, after: Status) {
    forall i :: 0 <= i < |after.gpus| && !Detected(before.gpus, after.gpus[i].pciAddress) ==>
      after.gpus[i].alloc == NO_ALLOC
  }

  predicate Detected(gpus: seq<Gpu>, pci: string) {
    exists i :: 0 <= i < |gpus| && gpus[i].pciAddress == pci
  }

  /** An allocated GPU of the stored status is gone from the hardware. */
  predicate LostAllocated(before: Status, gpus: seq<Gpu>) {
    exists i :: 0 <= i < |before.gpus| && before.gpus[i].alloc.taken
             && !Detected(gpus, before.gpus[i].pciAddress)
  }

  method CountFreeGpus(gpus: seq<Gpu>) returns (n: nat)
    ensures n == |set i | 0 <= i < |gpus| && !gpus[i].alloc.taken|
  {
    n := 0;
    ghost var free: set<int> := {};
    for i := 0 to |gpus|
      invariant n == |free| && free == set k | 0 <= k < i && !gpus[k].alloc.taken
    {
      if !gpus[i].alloc.taken { n, free := n + 1, free + {i}; }
    }
  }

  method IndexGpus(gpus: seq<Gpu>) returns (m: map<string, Allocation>)
    ensures forall a :: a in m <==> AllocOf(gpus, a).Some?
    ensures forall a :: a in m ==> AllocOf(gpus, a) == Some(m[a])
  {
    m := map[];
    for i := 0 to |gpus|
      invariant forall a :: a in m <==> AllocOf(gpus[..i], a).Some?
      invariant forall a :: a in m ==> AllocOf(gpus[..i], a) == Some(m[a])
    {
      assert gpus[..i + 1][..i] == gpus[..i];
      m := m[gpus[i].pciAddress := gpus[i].alloc];
    }
    assert gpus[..|gpus|] == gpus;
  }

  method IndexPartitions(parts: seq<Partition>) returns (m: map<int, string>)
    ensures forall id :: id in m <==> HolderOf(parts, id).Some?
    ensures forall id :: id in m ==> HolderOf(parts, id) == Some(m[id])
  {
    m := map[];
    for i := 0 to |parts|
      invariant forall id :: id in m <==> HolderOf(parts[..i], id).Some?
      invariant forall id :: id in m ==> HolderOf(parts[..i], id) == Some(m[id])
    {
      assert parts[..i + 1][..i] == parts[..i];
      m := m[parts[i].id := parts[i].allocatedTo];
    }
    assert parts[..|parts|] == parts;
  }

  /** Discovery-owned fields from what was found, allocation from the stored list. */
  method MergeGpus(found: seq<Gpu>, stored: seq<Gpu>) returns (gpus: seq<Gpu>)
    ensures |gpus| == |found|
    ensures forall i :: 0 <= i < |found| ==>
              gpus[i].pciAddress == found[i].pciAddress && gpus[i].info == found[i].info
    ensures KeepsGpus(stored, gpus)
    ensures forall i :: 0 <= i < |gpus| && !Detected(stored, gpus[i].pciAddress) ==> gpus[i].alloc == NO_ALLOC
  {
    var byAddress := IndexGpus(stored);
    gpus := [];
    for i := 0 to |found|
      invariant |gpus| == i
      invariant forall k :: 0 <= k < i ==>
                  gpus[k].pciAddress == found[k].pciAddress && gpus[k].info == found[k].info
      invariant forall k :: 0 <= k < i ==>
                  gpus[k].alloc == var a := AllocOf(stored, found[k].pciAddress); if a.Some? then a.value else NO_ALLOC
    {
      var gpu := Gpu(found[i].pciAddress, found[i].info, NO_ALLOC);
      if found[i].pciAddress in byAddress {
        gpu := gpu.(alloc := byAddress[found[i].pciAddress]);
      }
      gpus := gpus + [gpu];
    }
    AllocsKept(stored, gpus);
  }

  lemma AllocsKept(stored: seq<Gpu>, gpus: seq<Gpu>)
    requires forall k :: 0 <= k < |gpus| ==>
               gpus[k].alloc == var a := AllocOf(stored, gpus[k].pciAddress); if a.Some? then a.value else NO_ALLOC
    ensures KeepsGpus(stored, gpus)
    ensures forall i :: 0 <= i < |gpus| && !Detected(stored, gpus[i].pciAddress) ==> gpus[i].alloc == NO_ALLOC
  {
    forall i, j | 0 <= i < |gpus| && LastGpu(stored, j) && stored[j].pciAddress == gpus[i].pciAddress
      ensures gpus[i].alloc == stored[j].alloc
    {
      AllocOfEntry(stored, j);
    }
    forall i | 0 <= i < |gpus| && !Detected(stored, gpus[i].pciAddress) ensures gpus[i].alloc == NO_ALLOC {
      AllocOfNone(stored, gpus[i].pciAddress);
    }
  }

  method CheckLost(found: seq<Gpu>, before: Status) returns (lost: bool)
    ensures lost == LostAllocated(before, found)
  {
    var addresses: set<string> := {};
    for i := 0 to |found|
      invariant forall a :: a in addresses <==> Detected(found[..i], a)
    {
      forall a ensures Detected(found[..i + 1], a) <==> Detected(found[..i], a) || a == found[i].pciAddress {
        DetectedStep(found, i, a);
      }
      addresses := addresses + {found[i].pciAddress};
    }
    assert found[..|found|] == found;
    lost := false;
    for i := 0 to |before.gpus|
      invariant lost == exists k :: 0 <= k < i && before.gpus[k].alloc.taken
                                 && !Detected(found, before.gpus[k].pciAddress)
    {
      if before.gpus[i].pciAddress !in addresses && before.gpus[i].alloc.taken { lost := true; }
    }
  }

  lemma DetectedStep(found: seq<Gpu>, i: nat, a: string)
    requires i < |found|
    ensures Detected(found[..i + 1], a) <==> Detected(found[..i], a) || a == found[i].pciAddress
  {
    var short, long := found[..i], found[..i + 1];
    if Detected(short, a) {
      var k :| 0 <= k < i && short[k].pciAddress == a;
      assert long[k].pciAddress == a;
    }
    if Detected(long, a) {
      var k :| 0 <= k <= i && long[k].pciAddress == a;
      assert k < i ==> short[k].pciAddress == a;
    }
    assert long[i].pciAddress == found[i].pciAddress;
  }

  /** One partition after a merge: what the stored status says of it, or what the shared slice held. */
  function Remember(p: Partition, stored: seq<Partition>): Partition {
    var holder := HolderOf(stored, p.id);
    if holder.Some? then p.(allocatedTo := holder.value) else p
  }

  /** The partitions are updated in the slice the cycle's merges share. */
  method MergePartitions(parts: array<Partition>, stored: seq<Partition>)
    modifies parts
    ensures forall i :: 0 <= i < parts.Length ==> parts[i] == Remember(old(parts[i]), stored)
    ensures KeepsPartitions(stored, parts[..])
    ensures forall i :: 0 <= i < parts.Length ==> parts[i].(allocatedTo := "") == old(parts[i]).(allocatedTo := "")
    ensures forall i :: 0 <= i < parts.Length && (forall j :: 0 <= j < |stored| ==> stored[j].id != parts[i].id) ==>
              parts[i] == old(parts[i])
  {
    var byId := IndexPartitions(stored);
    for i := 0 to parts.Length
      invariant forall k :: 0 <= k < i ==> parts[k] == Remember(old(parts[k]), stored)
      invariant forall k :: i <= k < parts.Length ==> parts[k] == old(parts[k])
    {
      if parts[i].id in byId {
        parts[i] := parts[i].(allocatedTo := byId[parts[i].id]);
      }
    }
    HeldByStored(old(parts[..]), parts[..], stored);
    forall i | 0 <= i < parts.Length && (forall j :: 0 <= j < |stored| ==> stored[j].id != parts[i].id)
      ensures parts[i] == old(parts[i])
    {
      HolderOfNone(stored, parts[i].id);
    }
  }

  method MergeStatus(d: Discovered, before: Status) returns (s: Status)
    modifies d.partitions
    ensures ShowsHardware(s, d) && FreeExact(s)
    ensures KeepsAllocations(before, s) && NewAreFree(before, s)
    ensures s.phase == if LostAllocated(before, d.gpus) then "Error" else "Ready"
    ensures d.hasFabric ==> s.fabric.value == Fabric(d.fabricInfo, d.partitions[..])
    ensures forall i :: 0 <= i < d.partitions.Length ==>
              d.partitions[i] == if d.hasFabric then Remember(old(d.partitions[i]), Partitions(before))
                                 else old(d.partitions[i])
  {
    var gpus := MergeGpus(d.gpus, before.gpus);
    var lost := CheckLost(d.gpus, before);
    var free := CountFreeGpus(gpus);
    s := Status(if lost then "Error" else "Ready", d.host, gpus, |gpus|, free, "", "", None);
    if |gpus| > 0 { s := s.(gpuModel := gpus[0].info.model, gpuVendor := gpus[0].info.vendor); }
    if d.hasFabric {
      MergePartitions(d.partitions, Partitions(before));
      s := s.(fabric := Some(Fabric(d.fabricInfo, d.partitions[..])));
    }
  }

  lemma HeldByStored(was: seq<Partition>, now: seq<Partition>, stored: seq<Partition>)
    requires |was| == |now| && forall i :: 0 <= i < |was| ==> now[i] == Remember(was[i], stored)
    ensures KeepsPartitions(stored, now)
  {
    forall i, j | 0 <= i < |now| && LastPartition(stored, j) && stored[j].id == now[i].id
      ensures now[i].allocatedTo == stored[j].allocatedTo
    {
      HolderOfEntry(stored, j);
    }
  }
}
