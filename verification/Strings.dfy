/** Splitting a string at a separator and joining it again. */
module Strings {

  function Split(s: string, sep: char): (parts: seq<string>)
    ensures parts != []
  {
    if s == "" then [""]
    else
      var rest := Split(s[1..], sep);
      if s[0] == sep then [""] + rest else [[s[0]] + rest[0]] + rest[1..]
  }

  function Join(parts: seq<string>, sep: char): string
    requires parts != []
  {
    if |parts| == 1 then parts[0] else parts[0] + [sep] + Join(parts[1..], sep)
  }

  lemma {:induction false} SplitField(x: string, sep: char, rest: string)
    requires sep !in x
    ensures Split(x, sep) == [x]
    ensures Split(x + [sep] + rest, sep) == [x] + Split(rest, sep)
  {
    if x == "" {
      assert x + [sep] + rest == [sep] + rest;
    } else {
      SplitField(x[1..], sep, rest);
      assert (x + [sep] + rest)[1..] == x[1..] + [sep] + rest;
      assert [x[0]] + x[1..] == x;
    }
  }

  lemma {:induction false} SplitParts(s: string, sep: char, i: nat)
    requires i < |Split(s, sep)|
    ensures sep !in Split(s, sep)[i]
    ensures forall c :: c in Split(s, sep)[i] ==> c in s
  {
    if s != "" {
      var rest := Split(s[1..], sep);
      if s[0] == sep {
        if i > 0 { SplitParts(s[1..], sep, i - 1); }
      } else {
        SplitParts(s[1..], sep, i);
      }
    }
  }

  lemma {:induction false} JoinOfSplit(s: string, sep: char)
    ensures Join(Split(s, sep), sep) == s
  {
    if s != "" {
      JoinOfSplit(s[1..], sep);
      var rest := Split(s[1..], sep);
      if s[0] == sep {
        assert ([""] + rest)[1..] == rest;
      } else if |rest| > 1 {
        assert ([[s[0]] + rest[0]] + rest[1..])[1..] == rest[1..];
        assert [s[0]] + rest[0] + [sep] + Join(rest[1..], sep) == [s[0]] + (rest[0] + [sep] + Join(rest[1..], sep));
      }
    }
  }

  lemma {:induction false} SplitOfJoin(parts: seq<string>, sep: char)
    requires parts != [] && forall p :: p in parts ==> sep !in p
    ensures Split(Join(parts, sep), sep) == parts
  {
    if |parts| == 1 {
      SplitField(parts[0], sep, "");
    } else {
      SplitOfJoin(parts[1..], sep);
      SplitField(parts[0], sep, Join(parts[1..], sep));
    }
  }

  lemma ConsFirst(c: string, rest: seq<string>, more: seq<string>)
    requires rest != []
    ensures [c + (rest + more)[0]] + (rest + more)[1..] == ([c + rest[0]] + rest[1..]) + more
    ensures [""] + (rest + more) == ([""] + rest) + more
  {
    assert (rest + more)[1..] == rest[1..] + more;
  }

  lemma {:induction false} SplitConcat(a: string, sep: char, b: string)
    ensures Split(a + [sep] + b, sep) == Split(a, sep) + Split(b, sep)
  {
    if a == "" {
      assert a + [sep] + b == [sep] + b;
    } else {
      SplitConcat(a[1..], sep, b);
      assert (a + [sep] + b)[1..] == a[1..] + [sep] + b;
      ConsFirst([a[0]], Split(a[1..], sep), Split(b, sep));
    }
  }

  lemma {:induction false} JoinConcat(a: seq<string>, sep: char, b: seq<string>)
    requires a != [] && b != []
    ensures Join(a + b, sep) == Join(a, sep) + [sep] + Join(b, sep)
  {
    if |a| == 1 {
      assert (a + b)[1..] == b;
    } else {
      JoinConcat(a[1..], sep, b);
      assert (a + b)[1..] == a[1..] + b;
    }
  }

  /** The parts with a suffix on the last. */
  function Extend(parts: seq<string>, suffix: string): (r: seq<string>)
    requires parts != []
    ensures |r| == |parts|
  {
    parts[..|parts| - 1] + [parts[|parts| - 1] + suffix]
  }

  lemma {:induction false} JoinOfExtend(parts: seq<string>, sep: char, suffix: string)
    requires parts != []
    ensures Join(Extend(parts, suffix), sep) == Join(parts, sep) + suffix
  {
    if |parts| > 1 {
      JoinOfExtend(parts[1..], sep, suffix);
      assert Extend(parts, suffix)[1..] == Extend(parts[1..], suffix);
    }
  }

  /** A suffix without a separator goes to the last part. */
  lemma SplitSuffix(s: string, sep: char, suffix: string)
    requires sep !in suffix
    ensures Split(s + suffix, sep) == Extend(Split(s, sep), suffix)
  {
    var parts := Split(s, sep);
    JoinOfSplit(s, sep);
    JoinOfExtend(parts, sep, suffix);
    forall i | 0 <= i < |parts| ensures sep !in parts[i] { SplitParts(s, sep, i); }
    SplitOfJoin(Extend(parts, suffix), sep);
  }
}
