/** The name a PCI address gets in a ResourceSlice, and back: internal/gpualloc/dra.go. */
module DeviceNames {

  import opened Common
  import opened Strings

  const PREFIX := "gpu-"

  predicate Plain(s: string) {
    '-' !in s && ':' !in s && '.' !in s
  }

  /** domain:bus:device.function, four non-empty fields. */
  ghost predicate IsAddress(s: string) {
    exists x: string, y: string, z: string, w: string :: AddressOf(s, x, y, z, w)
  }

  ghost predicate AddressOf(s: string, x: string, y: string, z: string, w: string) {
    && x != "" && y != "" && z != "" && w != ""
    && Plain(x) && Plain(y) && Plain(z) && Plain(w)
    && s == Address([x, y, z, w])
  }

  function Address(parts: seq<string>): string
    requires |parts| == 4
  {
    parts[0] + ":" + (parts[1] + ":" + (parts[2] + "." + parts[3]))
  }

  function Dashed(s: string): string {
    if s == "" then ""
    else [if s[0] == ':' || s[0] == '.' then '-' else s[0]] + Dashed(s[1..])
  }

  function EncodeDeviceName(bdf: string): string {
    PREFIX + Dashed(bdf)
  }

  function DecodeDeviceName(name: string): Option<string> {
    if !(PREFIX <= name) then None
    else
      var parts := Split(name[|PREFIX|..], '-');
      if |parts| != 4 || "" in parts then None else Some(Address(parts))
  }

  lemma {:induction false} DashedField(x: string, c: char, rest: string)
    requires c == ':' || c == '.'
    ensures Dashed(x + [c] + rest) == Dashed(x) + "-" + Dashed(rest)
  {
    if x == "" {
      assert x + [c] + rest == [c] + rest;
    } else {
      DashedField(x[1..], c, rest);
      assert (x + [c] + rest)[1..] == x[1..] + [c] + rest;
    }
  }

  lemma {:induction false} DashedPlain(s: string)
    requires ':' !in s && '.' !in s
    ensures Dashed(s) == s
  {
    if s != "" { DashedPlain(s[1..]); }
  }

  lemma {:induction false} DashedHasNoMarks(s: string)
    ensures ':' !in Dashed(s) && '.' !in Dashed(s)
  {
    if s != "" { DashedHasNoMarks(s[1..]); }
  }

  lemma JoinFour(x: string, y: string, z: string, w: string)
    ensures Join([x, y, z, w], '-') == x + "-" + (y + "-" + (z + "-" + w))
  {
    assert [x, y, z, w][1..] == [y, z, w] && [y, z, w][1..] == [z, w] && [z, w][1..] == [w];
    assert Join([z, w], '-') == z + "-" + w;
    assert Join([y, z, w], '-') == y + "-" + (z + "-" + w);
  }

  lemma DashedAddress(parts: seq<string>)
    requires |parts| == 4
    ensures Dashed(Address(parts)) ==
              Join([Dashed(parts[0]), Dashed(parts[1]), Dashed(parts[2]), Dashed(parts[3])], '-')
  {
    DashedField(parts[2], '.', parts[3]);
    DashedField(parts[1], ':', parts[2] + "." + parts[3]);
    DashedField(parts[0], ':', parts[1] + ":" + (parts[2] + "." + parts[3]));
    JoinFour(Dashed(parts[0]), Dashed(parts[1]), Dashed(parts[2]), Dashed(parts[3]));
  }

  lemma DecodePrefixed(s: string)
    ensures DecodeDeviceName(PREFIX + s) ==
              if |Split(s, '-')| != 4 || "" in Split(s, '-') then None else Some(Address(Split(s, '-')))
  {
    assert (PREFIX + s)[|PREFIX|..] == s;
  }

  lemma AddressSurvives(s: string, x: string, y: string, z: string, w: string)
    requires AddressOf(s, x, y, z, w)
    ensures DecodeDeviceName(EncodeDeviceName(s)) == Some(s)
  {
    DashedAddress([x, y, z, w]);
    DashedPlain(x);
    DashedPlain(y);
    DashedPlain(z);
    DashedPlain(w);
    SplitOfJoin([x, y, z, w], '-');
    DecodePrefixed(Dashed(s));
  }

  /** Decoding inverts encoding on every PCI address, and on nothing else. */
  lemma DecodeInvertsEncodeIff(s: string)
    ensures DecodeDeviceName(EncodeDeviceName(s)) == Some(s) <==> IsAddress(s)
  {
    if IsAddress(s) {
      var x: string, y: string, z: string, w: string :| AddressOf(s, x, y, z, w);
      AddressSurvives(s, x, y, z, w);
    }
    if DecodeDeviceName(EncodeDeviceName(s)) == Some(s) {
      DecodePrefixed(Dashed(s));
      var parts := Split(Dashed(s), '-');
      DashedHasNoMarks(s);
      forall i | 0 <= i < 4 ensures Plain(parts[i]) { SplitParts(Dashed(s), '-', i); }
      assert parts == [parts[0], parts[1], parts[2], parts[3]];
      assert AddressOf(s, parts[0], parts[1], parts[2], parts[3]);
    }
  }

  /** A decoded name is the encoding of its address unless it contains a colon or a dot. */
  lemma EncodeInvertsDecodeIff(name: string)
    requires DecodeDeviceName(name).Some?
    ensures EncodeDeviceName(DecodeDeviceName(name).value) == name <==> ':' !in name && '.' !in name
  {
    var rest := name[|PREFIX|..];
    var parts := Split(rest, '-');
    assert name == PREFIX + rest;
    JoinOfSplit(rest, '-');
    DashedAddress(parts);
    if ':' !in name && '.' !in name {
      forall i | 0 <= i < 4 ensures Dashed(parts[i]) == parts[i] {
        SplitParts(rest, '-', i);
        DashedPlain(parts[i]);
      }
      assert parts == [parts[0], parts[1], parts[2], parts[3]];
    }
    if EncodeDeviceName(Address(parts)) == name { DashedHasNoMarks(Address(parts)); }
  }
}
