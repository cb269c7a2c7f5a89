/** Preparing a ResourceClaim's GPUs and reading their addresses back:
    cmd/kubeswift-dra-driver/driver.go and internal/gpualloc/dra.go. */
module DeviceClaim {

  import opened Common
  import opened DeviceNames

  const DRIVER := "gpu.kubeswift.io"

  /** One device of the claim's allocation. */
  datatype Result = Result(request: string, driver: string, pool: string, device: string)

  /** A device status's raw data: absent, not the expected JSON, or its two address keys. */
  datatype DeviceData = NoData | Malformed | Data(pciAddress: string, pciBusID: string)

  datatype DeviceStatus = DeviceStatus(driver: string, pool: string, device: string, data: DeviceData)

  predicate SameKey(a: DeviceStatus, b: DeviceStatus) {
    a.driver == b.driver && a.pool == b.pool && a.device == b.device
  }

  function EntryFor(r: Result, bdf: string): DeviceStatus {
    DeviceStatus(r.driver, r.pool, r.device, Data(bdf, ""))
  }

  /** This driver's results. */
  function Ours(results: seq<Result>): seq<Result> {
    if results == [] then []
    else if results[0].driver == DRIVER then [results[0]] + Ours(results[1..])
    else Ours(results[1..])
  }

  /** The addresses the given names stand for; None when one does not follow the scheme. */
  function Addresses(results: seq<Result>): Option<seq<string>> {
    if results == [] then Some([])
    else
      var first, rest := DecodeDeviceName(results[0].device), Addresses(results[1..]);
      if first.Some? && rest.Some? then Some([first.value] + rest.value) else None
  }

  /** The names that do follow the scheme, whoever's they are. */
  function Decodable(results: seq<Result>): seq<string> {
    if results == [] then []
    else
      var first := DecodeDeviceName(results[0].device);
      (if first.Some? then [first.value] else []) + Decodable(results[1..])
  }

  /** The addresses found in device statuses; None when one is malformed. */
  function StatusAddresses(devices: seq<DeviceStatus>): Option<seq<string>> {
    if devices == [] then Some([])
    else
      var rest := StatusAddresses(devices[1..]);
      if devices[0].data.Malformed? || rest.None? then None else Some(AddressIn(devices[0].data) + rest.value)
  }

  function AddressIn(data: DeviceData): (found: seq<string>)
    requires !data.Malformed?
    ensures |found| <= 1
  {
    if data.NoData? then []
    else if data.pciAddress != "" then [data.pciAddress]
    else if data.pciBusID != "" then [data.pciBusID]
    else []
  }

  /** What the two read-back routes give together: status first, names when it holds no address. */
  function ReadBack(devices: seq<DeviceStatus>, allocation: Option<seq<Result>>): Option<seq<string>> {
    var found := StatusAddresses(devices);
    if found.None? || found.value != [] then found
    else if allocation.Some? then Some(Decodable(allocation.value))
    else Some([])
  }

  function Upsert(devices: seq<DeviceStatus>, d: DeviceStatus): seq<DeviceStatus> {
    if devices == [] then [d]
    else if SameKey(devices[0], d) then [d] + devices[1..]
    else [devices[0]] + Upsert(devices[1..], d)
  }

  /** The device statuses after publishing addresses in the order of this driver's results. */
  function Published(results: seq<Result>, bdfs: seq<string>, devices: seq<DeviceStatus>): seq<DeviceStatus> {
    if results == [] then devices
    else if results[0].driver != DRIVER || bdfs == [] then Published(results[1..], bdfs, devices)
    else Published(results[1..], bdfs[1..], Upsert(devices, EntryFor(results[0], bdfs[0])))
  }

  class Claim {
    var allocation: Option<seq<Result>>
    var devices: seq<DeviceStatus>
    /** Its device status can be written: the feature is on and no request fails. */
    const writable: bool

    constructor (allocation: Option<seq<Result>>, devices: seq<DeviceStatus>, writable: bool)
      ensures this.allocation == allocation && this.devices == devices && this.writable == writable
    {
      this.allocation, this.devices, this.writable := allocation, devices, writable;
    }

    /** setAllocatedDeviceStatus: replaces the first entry with the same key, else appends. */
    method SetDeviceStatus(d: DeviceStatus)
      modifies `devices
      ensures devices == Upsert(old(devices), d)
    {
      for i := 0 to |devices|
        invariant devices == old(devices)
        invariant Upsert(devices, d) == devices[..i] + Upsert(devices[i..], d)
      {
        if SameKey(devices[i], d) {
          assert devices[i..][1..] == devices[i + 1..];
          devices := devices[i := d];
          assert devices == old(devices)[..i] + ([d] + old(devices)[i + 1..]);
          return;
        }
        UpsertStep(devices, d, i);
      }
      assert devices[|devices|..] == [] && devices[..|devices|] == devices;
      devices := devices + [d];
    }
  }

  lemma UpsertStep(devices: seq<DeviceStatus>, d: DeviceStatus, i: nat)
    requires i < |devices| && !SameKey(devices[i], d)
    ensures devices[..i] + Upsert(devices[i..], d) == devices[..i + 1] + Upsert(devices[i + 1..], d)
  {
    assert devices[i..][1..] == devices[i + 1..];
    assert devices[..i] + [devices[i]] == devices[..i + 1];
  }

  /** The status is that of the result's driver, pool and device. */
  predicate Keyed(d: DeviceStatus, r: Result) {
    d.driver == r.driver && d.pool == r.pool && d.device == r.device
  }

  /** No two statuses have the same driver, pool and device. */
  predicate OneEach(devices: seq<DeviceStatus>) {
    forall i, j :: 0 <= i < j < |devices| ==>
      devices[i].driver != devices[j].driver || devices[i].pool != devices[j].pool
      || devices[i].device != devices[j].device
  }

  /** An upsert puts d under its key, and leaves every other key alone. */
  lemma {:induction false} UpsertReplaces(devices: seq<DeviceStatus>, d: DeviceStatus)
    requires OneEach(devices)
    ensures OneEach(Upsert(devices, d)) && d in Upsert(devices, d)
    ensures forall e :: e in Upsert(devices, d) ==> e == d || (e in devices && !SameKey(e, d))
    ensures forall e :: e in devices && !SameKey(e, d) ==> e in Upsert(devices, d)
  {
    if devices != [] {
      var first, rest := devices[0], devices[1..];
      forall e | e in rest ensures !SameKey(e, first) {
        var i :| 0 <= i < |rest| && rest[i] == e;
        assert devices[i + 1] == e;
      }
      assert devices == [first] + rest;
      if !SameKey(first, d) {
        UpsertReplaces(rest, d);
        var now := Upsert(rest, d);
        forall i | 0 <= i < |now| ensures !SameKey(now[i], first) { assert now[i] in now; }
      }
    }
  }

  /** No result from place i on is for the device of r. */
  predicate NoneAfter(ours: seq<Result>, i: int, r: Result) {
    forall k :: 0 <= i <= k < |ours| ==> ours[k].pool != r.pool || ours[k].device != r.device
  }

  /** The last address given to each device is published under that device, and no other status has changed. */
  ghost predicate Carries(ours: seq<Result>, bdfs: seq<string>, was: seq<DeviceStatus>, now: seq<DeviceStatus>)
    requires |ours| == |bdfs|
  {
    && (forall i :: 0 <= i < |ours| && NoneAfter(ours, i + 1, ours[i]) ==>
          DeviceStatus(DRIVER, ours[i].pool, ours[i].device, Data(bdfs[i], "")) in now)
    && (forall e :: e in was && (forall r :: r in ours ==> !Keyed(e, r)) ==> e in now)
    && (forall e :: e in now && (forall r :: r in ours ==> !Keyed(e, r)) ==> e in was)
  }

  lemma {:induction false} PublishedCarries(results: seq<Result>, bdfs: seq<string>, devices: seq<DeviceStatus>)
    requires |Ours(results)| == |bdfs| && OneEach(devices)
    ensures OneEach(Published(results, bdfs, devices))
    ensures Carries(Ours(results), bdfs, devices, Published(results, bdfs, devices))
  {
    if results != [] {
      var ours := Ours(results);
      if results[0].driver != DRIVER {
        PublishedCarries(results[1..], bdfs, devices);
      } else {
        var entry := EntryFor(results[0], bdfs[0]);
        UpsertReplaces(devices, entry);
        assert ours[1..] == Ours(results[1..]);
        PublishedCarries(results[1..], bdfs[1..], Upsert(devices, entry));
        OursAreOurs(results);
        CarriesFirst(ours, bdfs, devices, Upsert(devices, entry), Published(results, bdfs, devices));
      }
    }
  }

  lemma CarriesFirst(ours: seq<Result>, bdfs: seq<string>, was: seq<DeviceStatus>, mid: seq<DeviceStatus>,
                     now: seq<DeviceStatus>)
    requires ours != [] && |ours| == |bdfs| && forall r :: r in ours ==> r.driver == DRIVER
    requires EntryFor(ours[0], bdfs[0]) in mid && Carries(ours[1..], bdfs[1..], mid, now)
    requires forall e :: e in mid ==> e == EntryFor(ours[0], bdfs[0]) || (e in was && !Keyed(e, ours[0]))
    requires forall e :: e in was && !Keyed(e, ours[0]) ==> e in mid
    ensures Carries(ours, bdfs, was, now)
  {
    var rest := ours[1..];
    assert ours == [ours[0]] + rest && ours[0] in ours;
    forall i | 0 <= i < |ours| && NoneAfter(ours, i + 1, ours[i])
      ensures DeviceStatus(DRIVER, ours[i].pool, ours[i].device, Data(bdfs[i], "")) in now
    {
      if i == 0 {
        var e := EntryFor(ours[0], bdfs[0]);
        forall r | r in rest ensures !Keyed(e, r) {
          var k :| 0 <= k < |rest| && rest[k] == r;
          assert ours[k + 1] == r;
        }
      } else {
        assert rest[i - 1] == ours[i] && bdfs[1..][i - 1] == bdfs[i];
        assert NoneAfter(rest, i, ours[i]) by {
          forall k | i <= k < |rest| ensures rest[k].pool != ours[i].pool || rest[k].device != ours[i].device {
            assert ours[k + 1] == rest[k];
          }
        }
      }
    }
  }

  /** publishDeviceStatus, on the stored claim. The update may be lost, or applied and its answer lost. */
  method PublishDeviceStatus(stored: Claim, bdfs: seq<string>) returns (ok: bool)
    modifies stored`devices
    ensures ok ==> stored.allocation.Some?
    ensures ok ==> stored.devices == Published(stored.allocation.value, bdfs, old(stored.devices))
    ensures stored.devices == old(stored.devices)
         || (stored.allocation.Some? && stored.devices == Published(stored.allocation.value, bdfs, old(stored.devices)))
    ensures stored.writable && stored.allocation.Some? ==> ok
    ensures ok && OneEach(old(stored.devices)) && |Ours(stored.allocation.value)| == |bdfs| ==>
              OneEach(stored.devices)
              && Carries(Ours(stored.allocation.value), bdfs, old(stored.devices), stored.devices)
  {
    ok :| stored.writable ==> ok;
    if !ok || stored.allocation.None? { return false; }
    var copy := new Claim(stored.allocation, stored.devices, stored.writable);
    var results, i := stored.allocation.value, 0;
    for j := 0 to |results|
      invariant 0 <= i <= |bdfs| && stored.devices == old(stored.devices)
      invariant Published(results, bdfs, old(stored.devices)) == Published(results[j..], bdfs[i..], copy.devices)
    {
      assert results[j..][1..] == results[j + 1..];
      if results[j].driver != DRIVER || i >= |bdfs| { continue; }
      assert bdfs[i..][1..] == bdfs[i + 1..];
      copy.SetDeviceStatus(EntryFor(results[j], bdfs[i]));
      i := i + 1;
    }
    ok :| stored.writable ==> ok;
    var applied: bool :| ok ==> applied;
    if applied { stored.devices := copy.devices; }
    if OneEach(old(stored.devices)) && |Ours(results)| == |bdfs| {
      PublishedCarries(results, bdfs, old(stored.devices));
    }
  }

  /** The CDI specs on the node, by claim. */
  class CdiDir {
    var specs: map<string, seq<string>>
    /** No write fails. */
    const reliable: bool

    constructor (reliable: bool)
      ensures specs == map[] && this.reliable == reliable
    {
      specs, this.reliable := map[], reliable;
    }

    /** Replaces the claim's spec, or fails and leaves it. */
    method WriteClaimSpec(uid: string, bdfs: seq<string>) returns (ok: bool)
      modifies this
      ensures specs == if ok then old(specs)[uid := bdfs] else old(specs)
      ensures reliable ==> ok
    {
      ok :| reliable ==> ok;
      if ok { specs := specs[uid := bdfs]; }
    }
  }

  datatype PreparedDevice = PreparedDevice(request: string, pool: string, device: string, cdi: bool)

  datatype PrepareResult = Failed | Prepared(devices: seq<PreparedDevice>)

  /** The kubelet's devices for a claim: one for each result, the CDI device on the first only. */
  predicate DevicesFor(devices: seq<PreparedDevice>, ours: seq<Result>) {
    && |devices| == |ours|
    && forall i :: 0 <= i < |ours| ==>
         devices[i] == PreparedDevice(ours[i].request, ours[i].pool, ours[i].device, i == 0)
  }

  lemma {:induction false} OursSnoc(results: seq<Result>, j: nat)
    requires j < |results|
    ensures Ours(results[..j + 1]) ==
              Ours(results[..j]) + if results[j].driver == DRIVER then [results[j]] else []
    decreases j
  {
    if j == 0 {
      assert results[..1][1..] == [];
    } else {
      OursSnoc(results[1..], j - 1);
      assert results[..j + 1][1..] == results[1..][..j] && results[..j][1..] == results[1..][..j - 1];
    }
  }

  lemma {:induction false} AddressesSnoc(ours: seq<Result>, r: Result)
    ensures Addresses(ours + [r]) ==
              if Addresses(ours).Some? && DecodeDeviceName(r.device).Some?
              then Some(Addresses(ours).value + [DecodeDeviceName(r.device).value]) else None
  {
    if ours == [] {
      assert ours + [r] == [r] && [r][1..] == [];
      if DecodeDeviceName(r.device).Some? {
        var last := DecodeDeviceName(r.device).value;
        assert [last] + [] == [] + [last];
      }
    } else {
      AddressesSnoc(ours[1..], r);
      assert (ours + [r])[1..] == ours[1..] + [r];
      if Addresses(ours + [r]).Some? {
        var first, last := DecodeDeviceName(ours[0].device).value, DecodeDeviceName(r.device).value;
        assert [first] + (Addresses(ours[1..]).value + [last]) == [first] + Addresses(ours[1..]).value + [last];
      }
    }
  }

  lemma {:induction false} UndecodableStays(results: seq<Result>, j: nat)
    requires j <= |results| && Addresses(Ours(results[..j])).None?
    ensures Addresses(Ours(results)).None?
    decreases |results| - j
  {
    if j == |results| {
      assert results[..j] == results;
    } else {
      OursSnoc(results, j);
      if results[j].driver == DRIVER { AddressesSnoc(Ours(results[..j]), results[j]); }
      else { assert Ours(results[..j]) + [] == Ours(results[..j]); }
      UndecodableStays(results, j + 1);
    }
  }

  /** The loop of prepareClaim: decodes this driver's names, or stops at one outside the scheme. */
  method DecodeResults(results: seq<Result>)
    returns (ok: bool, bdfs: seq<string>, devices: seq<PreparedDevice>)
    ensures ok <==> Addresses(Ours(results)).Some?
    ensures ok ==> Addresses(Ours(results)) == Some(bdfs) && |bdfs| == |devices| == |Ours(results)|
    ensures ok ==> forall i :: 0 <= i < |devices| ==>
              devices[i] == PreparedDevice(Ours(results)[i].request, Ours(results)[i].pool,
                                           Ours(results)[i].device, false)
  {
    bdfs, devices := [], [];
    for j := 0 to |results|
      invariant Addresses(Ours(results[..j])) == Some(bdfs) && |bdfs| == |devices| == |Ours(results[..j])|
      invariant forall i :: 0 <= i < |devices| ==>
        devices[i] == PreparedDevice(Ours(results[..j])[i].request, Ours(results[..j])[i].pool,
                                     Ours(results[..j])[i].device, false)
    {
      var r := results[j];
      ghost var before := Ours(results[..j]);
      OursSnoc(results, j);
      if r.driver != DRIVER {
        assert before + [] == before;
        continue;
      }
      AddressesSnoc(before, r);
      var bdf := DecodeDeviceName(r.device);
      if bdf.None? {
        UndecodableStays(results, j + 1);
        return false, [], [];
      }
      bdfs := bdfs + [bdf.value];
      devices := devices + [PreparedDevice(r.request, r.pool, r.device, false)];
    }
    assert results[..|results|] == results;
    ok := true;
  }

  /** prepareClaim. A claim without allocation or with one of our names outside the scheme fails and writes
      nothing; otherwise the CDI spec holds this driver's addresses in the order of its results. */
  method PrepareClaim(uid: string, allocation: Option<seq<Result>>, stored: Claim, cdi: CdiDir)
    returns (r: PrepareResult)
    modifies stored`devices, cdi
    ensures allocation.None? || Addresses(Ours(allocation.value)).None? ==> r == Failed
    ensures r == Failed ==> cdi.specs == old(cdi.specs) && stored.devices == old(stored.devices)
    ensures r.Prepared? && Ours(allocation.value) == [] ==>
              r.devices == [] && cdi.specs == old(cdi.specs) && stored.devices == old(stored.devices)
    ensures r.Prepared? && Ours(allocation.value) != [] ==>
              cdi.specs == old(cdi.specs)[uid := Addresses(Ours(allocation.value)).value]
              && DevicesFor(r.devices, Ours(allocation.value))
    ensures r.Prepared? ==>
              stored.devices == old(stored.devices)
              || (stored.allocation.Some? && stored.devices ==
                   Published(stored.allocation.value, Addresses(Ours(allocation.value)).value, old(stored.devices)))
    ensures (cdi.reliable && allocation.Some? && Addresses(Ours(allocation.value)).Some?) ==> r.Prepared?
    ensures (r.Prepared? && stored.writable && stored.allocation.Some? && Ours(allocation.value) != []) ==>
              stored.devices ==
              Published(stored.allocation.value, Addresses(Ours(allocation.value)).value, old(stored.devices))
  {
    if allocation.None? { return Failed; }
    var ok, bdfs, devices := DecodeResults(allocation.value);
    if !ok { return Failed; }
    if bdfs == [] { return Prepared([]); }
    ok := cdi.WriteClaimSpec(uid, bdfs);
    if !ok { return Failed; }
    devices := devices[0 := devices[0].(cdi := true)];
    var published := PublishDeviceStatus(stored, bdfs);
    r := Prepared(devices);
  }

  lemma {:induction false} DecodableSnoc(results: seq<Result>, j: nat)
    requires j < |results|
    ensures Decodable(results[..j + 1]) == Decodable(results[..j]) +
              if DecodeDeviceName(results[j].device).Some? then [DecodeDeviceName(results[j].device).value] else []
    decreases j
  {
    if j == 0 {
      assert results[..1][1..] == [];
    } else {
      DecodableSnoc(results[1..], j - 1);
      assert results[..j + 1][1..] == results[1..][..j] && results[..j][1..] == results[1..][..j - 1];
    }
  }

  /** What is left of the device statuses, after what was found so far. */
  function Onward(found: seq<string>, rest: seq<DeviceStatus>): Option<seq<string>> {
    var more := StatusAddresses(rest);
    if more.None? then None else Some(found + more.value)
  }

  lemma OnwardStep(found: seq<string>, rest: seq<DeviceStatus>)
    requires rest != [] && !rest[0].data.Malformed?
    ensures Onward(found, rest) == Onward(found + AddressIn(rest[0].data), rest[1..])
  {
    var more := StatusAddresses(rest[1..]);
    if more.Some? {
      assert found + (AddressIn(rest[0].data) + more.value) == found + AddressIn(rest[0].data) + more.value;
    }
  }

  lemma OnwardEnds(found: seq<string>, devices: seq<DeviceStatus>)
    ensures Onward([], devices) == StatusAddresses(devices)
    ensures Onward(found, []) == Some(found)
  {
    if StatusAddresses(devices).Some? { assert [] + StatusAddresses(devices).value == StatusAddresses(devices).value; }
    assert found + [] == found;
  }

  /** extractDeviceBDFs. */
  method ExtractDeviceBDFs(devices: seq<DeviceStatus>, allocation: Option<seq<Result>>)
    returns (r: Option<seq<string>>)
    ensures r == ReadBack(devices, allocation)
  {
    var bdfs: seq<string> := [];
    assert devices[0..] == devices;
    OnwardEnds(bdfs, devices);
    for i := 0 to |devices|
      invariant StatusAddresses(devices) == Onward(bdfs, devices[i..])
    {
      assert devices[i..][1..] == devices[i + 1..];
      var data := devices[i].data;
      if data.Malformed? { return None; }
      OnwardStep(bdfs, devices[i..]);
      assert bdfs + [] == bdfs;
      if data.NoData? { continue; }
      if data.pciAddress != "" {
        bdfs := bdfs + [data.pciAddress];
      } else if data.pciBusID != "" {
        bdfs := bdfs + [data.pciBusID];
      }
    }
    OnwardEnds(bdfs, devices);
    if |bdfs| > 0 { return Some(bdfs); }
    if allocation.Some? {
      var results := allocation.value;
      for j := 0 to |results|
        invariant bdfs == Decodable(results[..j])
      {
        DecodableSnoc(results, j);
        var bdf := DecodeDeviceName(results[j].device);
        if bdf.Some? { bdfs := bdfs + [bdf.value]; }
      }
      assert results[..|results|] == results;
    }
    r := Some(bdfs);
  }

  /** This driver's results have distinct pool and device. */
  predicate DistinctDevices(ours: seq<Result>) {
    forall i, j :: 0 <= i < j < |ours| ==> !(ours[i].pool == ours[j].pool && ours[i].device == ours[j].device)
  }

  function Entries(ours: seq<Result>, bdfs: seq<string>): seq<DeviceStatus>
    requires |ours| == |bdfs|
  {
    if ours == [] then [] else [EntryFor(ours[0], bdfs[0])] + Entries(ours[1..], bdfs[1..])
  }

  /** A device status already stands under the result's key. */
  predicate Taken(devices: seq<DeviceStatus>, r: Result) {
    exists i :: 0 <= i < |devices| && SameKey(devices[i], EntryFor(r, ""))
  }

  predicate NoneTaken(devices: seq<DeviceStatus>, ours: seq<Result>) {
    forall i :: 0 <= i < |ours| ==> !Taken(devices, ours[i])
  }

  lemma {:induction false} UpsertLength(devices: seq<DeviceStatus>, r: Result, bdf: string)
    ensures Taken(devices, r) ==> |Upsert(devices, EntryFor(r, bdf))| == |devices|
    ensures !Taken(devices, r) ==> Upsert(devices, EntryFor(r, bdf)) == devices + [EntryFor(r, bdf)]
  {
    if devices != [] {
      UpsertLength(devices[1..], r, bdf);
      if Taken(devices, r) && !SameKey(devices[0], EntryFor(r, "")) {
        var i :| 0 <= i < |devices| && SameKey(devices[i], EntryFor(r, ""));
        assert SameKey(devices[1..][i - 1], EntryFor(r, ""));
      }
      if Taken(devices[1..], r) {
        var i :| 0 <= i < |devices[1..]| && SameKey(devices[1..][i], EntryFor(r, ""));
        assert SameKey(devices[i + 1], EntryFor(r, ""));
      }
    }
  }

  /** What appending one result's status takes: that result's key, and no other. */
  lemma TakenAppend(devices: seq<DeviceStatus>, r: Result, bdf: string, q: Result)
    ensures Taken(devices + [EntryFor(r, bdf)], q) <==> Taken(devices, q) || SameKey(EntryFor(r, ""), EntryFor(q, ""))
  {
    var more := devices + [EntryFor(r, bdf)];
    assert more[|devices|] == EntryFor(r, bdf);
    if Taken(devices, q) {
      var i :| 0 <= i < |devices| && SameKey(devices[i], EntryFor(q, ""));
      assert more[i] == devices[i];
    }
  }

  lemma {:induction false} OursMember(results: seq<Result>, r: Result)
    ensures r in Ours(results) <==> r in results && r.driver == "gpu.kubeswift.io"
  {
    if results != [] { OursMember(results[1..], r); }
  }

  lemma {:induction false} OursAreOurs(results: seq<Result>)
    ensures forall r :: r in Ours(results) ==> r.driver == DRIVER
  {
    if results != [] { OursAreOurs(results[1..]); }
  }

  /** Every distinct, untaken result adds its own status, in order. */
  lemma {:induction false} PublishedInOrder(results: seq<Result>, bdfs: seq<string>, devices: seq<DeviceStatus>)
    requires |bdfs| == |Ours(results)|
    requires DistinctDevices(Ours(results)) && NoneTaken(devices, Ours(results))
    ensures Published(results, bdfs, devices) == devices + Entries(Ours(results), bdfs)
  {
    if results != [] {
      var ours := Ours(results);
      if results[0].driver != DRIVER {
        PublishedInOrder(results[1..], bdfs, devices);
      } else {
        assert ours[1..] == Ours(results[1..]);
        var entry := EntryFor(ours[0], bdfs[0]);
        assert !Taken(devices, ours[0]);
        UpsertLength(devices, ours[0], bdfs[0]);
        forall i | 0 <= i < |ours[1..]| ensures !Taken(devices + [entry], ours[1..][i]) {
          assert ours[1..][i] == ours[i + 1];
          TakenAppend(devices, ours[0], bdfs[0], ours[i + 1]);
        }
        PublishedInOrder(results[1..], bdfs[1..], devices + [entry]);
        assert devices + [entry] + Entries(ours[1..], bdfs[1..]) == devices + ([entry] + Entries(ours[1..], bdfs[1..]));
      }
    }
  }

  /** A repeated or taken key overwrites a status instead of adding one. */
  lemma {:induction false} PublishedShorter(results: seq<Result>, bdfs: seq<string>, devices: seq<DeviceStatus>)
    requires |bdfs| == |Ours(results)|
    ensures |Published(results, bdfs, devices)| <= |devices| + |Ours(results)|
    ensures !DistinctDevices(Ours(results)) || !NoneTaken(devices, Ours(results)) ==>
              |Published(results, bdfs, devices)| < |devices| + |Ours(results)|
  {
    if results != [] {
      var ours := Ours(results);
      if results[0].driver != DRIVER {
        PublishedShorter(results[1..], bdfs, devices);
      } else {
        var next := Upsert(devices, EntryFor(ours[0], bdfs[0]));
        assert ours[1..] == Ours(results[1..]);
        PublishedShorter(results[1..], bdfs[1..], next);
        UpsertLength(devices, ours[0], bdfs[0]);
        if !Taken(devices, ours[0]) && (!DistinctDevices(ours) || !NoneTaken(devices, ours)) {
          OursAreOurs(results);
          ClashMoves(ours, bdfs[0], devices);
        }
      }
    }
  }

  /** A clash in the results is a clash of the later ones, or of one of them with the first. */
  lemma ClashMoves(ours: seq<Result>, bdf: string, devices: seq<DeviceStatus>)
    requires ours != [] && (forall r :: r in ours ==> r.driver == DRIVER) && !Taken(devices, ours[0])
    requires !DistinctDevices(ours) || !NoneTaken(devices, ours)
    ensures !DistinctDevices(ours[1..]) || !NoneTaken(devices + [EntryFor(ours[0], bdf)], ours[1..])
  {
    var next := devices + [EntryFor(ours[0], bdf)];
    if !NoneTaken(devices, ours) {
      var i :| 0 <= i < |ours| && Taken(devices, ours[i]);
      TakenAppend(devices, ours[0], bdf, ours[i]);
      assert ours[1..][i - 1] == ours[i];
    } else {
      var i, j :| 0 <= i < j < |ours| && ours[i].pool == ours[j].pool && ours[i].device == ours[j].device;
      assert ours[1..][j - 1] == ours[j];
      if i == 0 {
        assert ours[0] in ours && ours[j] in ours;
        TakenAppend(devices, ours[0], bdf, ours[j]);
      } else {
        assert ours[1..][i - 1] == ours[i];
      }
    }
  }

  lemma {:induction false} EntriesReadBack(ours: seq<Result>, bdfs: seq<string>)
    requires |ours| == |bdfs| && "" !in bdfs
    ensures StatusAddresses(Entries(ours, bdfs)) == Some(bdfs)
  {
    if ours != [] {
      EntriesReadBack(ours[1..], bdfs[1..]);
      assert Entries(ours, bdfs)[1..] == Entries(ours[1..], bdfs[1..]);
      assert [bdfs[0]] + bdfs[1..] == bdfs;
    }
  }

  predicate AllAddressed(devices: seq<DeviceStatus>) {
    forall d :: d in devices ==> d.data.Data? && d.data.pciAddress != ""
  }

  lemma {:induction false} AddressedRead(devices: seq<DeviceStatus>)
    requires AllAddressed(devices)
    ensures StatusAddresses(devices).Some? && |StatusAddresses(devices).value| == |devices|
  {
    if devices != [] {
      assert devices[0] in devices;
      AddressedRead(devices[1..]);
    }
  }

  lemma {:induction false} UpsertAddressed(devices: seq<DeviceStatus>, d: DeviceStatus)
    requires AllAddressed(devices) && AllAddressed([d])
    ensures AllAddressed(Upsert(devices, d)) && |Upsert(devices, d)| > 0
  {
    assert d in [d];
    if devices != [] { UpsertAddressed(devices[1..], d); }
  }

  lemma {:induction false} PublishedAddressed(results: seq<Result>, bdfs: seq<string>, devices: seq<DeviceStatus>)
    requires "" !in bdfs && AllAddressed(devices)
    ensures AllAddressed(Published(results, bdfs, devices))
    ensures devices != [] || (bdfs != [] && Ours(results) != []) ==> Published(results, bdfs, devices) != []
  {
    if results != [] {
      if results[0].driver != DRIVER || bdfs == [] {
        PublishedAddressed(results[1..], bdfs, devices);
      } else {
        var entry := EntryFor(results[0], bdfs[0]);
        UpsertAddressed(devices, entry);
        PublishedAddressed(results[1..], bdfs[1..], Upsert(devices, entry));
      }
    }
  }

  /** There are addresses exactly when every name follows the scheme, and they are the names' in order. */
  lemma {:induction false} AddressesAre(ours: seq<Result>)
    ensures Addresses(ours).Some? <==> forall i :: 0 <= i < |ours| ==> DecodeDeviceName(ours[i].device).Some?
    ensures Addresses(ours).Some? ==>
              && |Addresses(ours).value| == |ours|
              && forall i :: 0 <= i < |ours| ==> DecodeDeviceName(ours[i].device) == Some(Addresses(ours).value[i])
  {
    if ours != [] {
      AddressesAre(ours[1..]);
      assert forall i :: 0 < i < |ours| ==> ours[i] == ours[1..][i - 1];
      assert forall i :: 0 <= i < |ours[1..]| ==> ours[1..][i] == ours[i + 1];
    }
  }

  lemma {:induction false} AddressesNonEmpty(ours: seq<Result>)
    requires Addresses(ours).Some?
    ensures |Addresses(ours).value| == |ours| && "" !in Addresses(ours).value
  {
    if ours != [] { AddressesNonEmpty(ours[1..]); }
  }

  lemma DistinctReadBack(results: seq<Result>, bdfs: seq<string>)
    requires Addresses(Ours(results)) == Some(bdfs) && Ours(results) != [] && DistinctDevices(Ours(results))
    ensures StatusAddresses(Published(results, bdfs, [])) == Some(bdfs) && bdfs != []
  {
    AddressesNonEmpty(Ours(results));
    PublishedInOrder(results, bdfs, []);
    EntriesReadBack(Ours(results), bdfs);
    assert [] + Entries(Ours(results), bdfs) == Entries(Ours(results), bdfs);
  }

  lemma RepeatedFallShort(results: seq<Result>, bdfs: seq<string>)
    requires Addresses(Ours(results)) == Some(bdfs) && Ours(results) != [] && !DistinctDevices(Ours(results))
    ensures var found := StatusAddresses(Published(results, bdfs, []));
            found.Some? && 0 < |found.value| < |bdfs|
  {
    AddressesNonEmpty(Ours(results));
    PublishedShorter(results, bdfs, []);
    PublishedAddressed(results, bdfs, []);
    AddressedRead(Published(results, bdfs, []));
  }

  /** Route one: from an empty status, what the driver published reads back as the CDI addresses exactly when
      its results have distinct pool and device. Results of other drivers do not matter. */
  lemma StatusReadBackIff(results: seq<Result>, bdfs: seq<string>)
    requires Addresses(Ours(results)) == Some(bdfs) && Ours(results) != []
    ensures ReadBack(Published(results, bdfs, []), Some(results)) == Some(bdfs) <==> DistinctDevices(Ours(results))
  {
    if DistinctDevices(Ours(results)) {
      DistinctReadBack(results, bdfs);
    } else {
      RepeatedFallShort(results, bdfs);
    }
  }

  /** Another driver's device has a name of this driver's scheme. */
  predicate ForeignDecodes(results: seq<Result>) {
    exists i :: 0 <= i < |results| && results[i].driver != DRIVER && DecodeDeviceName(results[i].device).Some?
  }

  lemma {:induction false} DecodableLength(results: seq<Result>)
    requires Addresses(Ours(results)).Some?
    ensures |Decodable(results)| >= |Addresses(Ours(results)).value|
    ensures ForeignDecodes(results) ==> |Decodable(results)| > |Addresses(Ours(results)).value|
    ensures !ForeignDecodes(results) ==> Decodable(results) == Addresses(Ours(results)).value
  {
    if results != [] {
      var rest := results[1..];
      DecodableLength(rest);
      if ForeignDecodes(rest) {
        var i :| 0 <= i < |rest| && rest[i].driver != DRIVER && DecodeDeviceName(rest[i].device).Some?;
        assert results[i + 1] == rest[i];
      }
      if ForeignDecodes(results) {
        var i :| 0 <= i < |results| && results[i].driver != DRIVER && DecodeDeviceName(results[i].device).Some?;
        assert i > 0 ==> rest[i - 1] == results[i];
      }
    }
  }

  /** Route two: without device status, the decoded names are the CDI addresses exactly when no other driver
      in the claim uses this driver's naming scheme. */
  lemma NameReadBackIff(results: seq<Result>, bdfs: seq<string>)
    requires Addresses(Ours(results)) == Some(bdfs)
    ensures ReadBack([], Some(results)) == Some(bdfs) <==> !ForeignDecodes(results)
  {
    DecodableLength(results);
  }

  /** From claim to guest: however the status write fares, what is read back for a claim of distinct devices,
      with no other driver using the naming scheme, is what the CDI spec holds. */
  method PrepareThenExtract(uid: string, stored: Claim, cdi: CdiDir)
    returns (prepared: bool, found: Option<seq<string>>)
    requires stored.allocation.Some? && stored.devices == []
    requires DistinctDevices(Ours(stored.allocation.value)) && !ForeignDecodes(stored.allocation.value)
    modifies stored`devices, cdi
    ensures prepared && Ours(stored.allocation.value) != [] ==> uid in cdi.specs && found == Some(cdi.specs[uid])
    ensures cdi.reliable ==> (prepared <==> Addresses(Ours(stored.allocation.value)).Some?)
  {
    var results := stored.allocation.value;
    var r := PrepareClaim(uid, Some(results), stored, cdi);
    prepared := r.Prepared?;
    found := ExtractDeviceBDFs(stored.devices, stored.allocation);
    if prepared && Ours(results) != [] {
      StatusReadBackIff(results, cdi.specs[uid]);
      NameReadBackIff(results, cdi.specs[uid]);
    }
  }

  // ----- Claims that break it -----

  /** One device twice in a claim: the CDI spec names it twice, the status once. */
  lemma RepeatedDevice(r: Result, bdf: string)
    requires r.driver == DRIVER && DecodeDeviceName(r.device) == Some(bdf) && bdf != ""
    ensures Addresses(Ours([r, r])) == Some([bdf, bdf])
    ensures ReadBack(Published([r, r], [bdf, bdf], []), Some([r, r])) == Some([bdf])
  {
    var entry := EntryFor(r, bdf);
    assert [r, r][1..] == [r] && [r][1..] == [] && [bdf, bdf][1..] == [bdf] && [bdf][1..] == [];
    assert [bdf] + [] == [bdf] && [r] + [] == [r];
    assert Ours([r]) == [r] && Ours([r, r]) == [r, r];
    assert Addresses([r]) == Some([bdf]) && [bdf] + [bdf] == [bdf, bdf];
    assert Upsert([], entry) == [entry] && Upsert([entry], entry) == [entry] + [entry][1..] == [entry];
    assert Published([r], [bdf], [entry]) == [entry];
    assert StatusAddresses([entry]) == Some([bdf]) by { assert [entry][1..] == []; }
  }

  /** Another driver's device under a name of this driver's scheme: without device status it is read back too. */
  lemma ForeignName(r: Result, other: Result, bdf: string)
    requires r.driver == DRIVER && other.driver != DRIVER && DecodeDeviceName(r.device) == Some(bdf)
    requires other.device == r.device
    ensures Addresses(Ours([r, other])) == Some([bdf])
    ensures ReadBack([], Some([r, other])) == Some([bdf, bdf])
  {
    assert [r, other][1..] == [other] && [other][1..] == [] && [r][1..] == [];
    assert [bdf] + [] == [bdf] && [r] + Ours([other]) == [r];
    assert Ours([other]) == [] && Ours([r, other]) == [r];
    assert Addresses([r]) == Some([bdf]);
    assert Decodable([other]) == [bdf] && [bdf] + [bdf] == [bdf, bdf];
  }

  /** Both happen with the GPU at 0000:01:00.0. */
  lemma GpuExample()
    ensures var bdf := "0000:01:00.0";
            var gpu := Result("gpu", DRIVER, "node-1", EncodeDeviceName(bdf));
            var other := gpu.(driver := "gpu.example.com");
            && ReadBack(Published([gpu, gpu], [bdf, bdf], []), Some([gpu, gpu])) == Some([bdf])
            && ReadBack([], Some([gpu, other])) == Some([bdf, bdf])
  {
    var bdf := "0000:01:00.0";
    assert bdf == Address(["0000", "01", "00", "0"]);
    AddressSurvives(bdf, "0000", "01", "00", "0");
    var gpu := Result("gpu", DRIVER, "node-1", EncodeDeviceName(bdf));
    RepeatedDevice(gpu, bdf);
    ForeignName(gpu, gpu.(driver := "gpu.example.com"), bdf);
  }
}
