/** Slash-separated paths as Go's path package cleans and joins them. */
module Paths {

  import opened Strings

  predicate Rooted(s: string) {
    s != "" && s[0] == '/'
  }

  predicate PlainPart(c: string) {
    c != "" && c != "." && c != ".."
  }

  /** A relative path with no empty, "." or ".." component, such as a directory walk yields. */
  predicate GoodName(n: string) {
    forall i :: 0 <= i < |Split(n, '/')| ==> PlainPart(Split(n, '/')[i])
  }

  /** path.Clean's pass over the components: acc holds what is kept so far. */
  function Tidy(parts: seq<string>, rooted: bool, acc: seq<string>): seq<string>
    decreases |parts|
  {
    if parts == [] then acc
    else if parts[0] == "" || parts[0] == "." then Tidy(parts[1..], rooted, acc)
    else if parts[0] != ".." then Tidy(parts[1..], rooted, acc + [parts[0]])
    else if acc != [] && acc[|acc| - 1] != ".." then Tidy(parts[1..], rooted, acc[..|acc| - 1])
    else if rooted then Tidy(parts[1..], rooted, acc)
    else Tidy(parts[1..], rooted, acc + [".."])
  }

  /** "." and empty components vanish; ".." takes the component before it, vanishes at the root, and stays at the
      front of a relative path. */
  lemma TidyLaws(name: string, rest: seq<string>, rooted: bool, acc: seq<string>)
    ensures Tidy(["."] + rest, rooted, acc) == Tidy(rest, rooted, acc) == Tidy([""] + rest, rooted, acc)
    ensures PlainPart(name) ==> Tidy([name] + rest, rooted, acc) == Tidy(rest, rooted, acc + [name])
    ensures PlainPart(name) ==> Tidy([name, ".."] + rest, rooted, acc) == Tidy(rest, rooted, acc)
    ensures Tidy([".."] + rest, true, []) == Tidy(rest, true, [])
    ensures Tidy([".."] + rest, false, []) == Tidy(rest, false, [".."])
    ensures Tidy([".."] + rest, false, acc + [".."]) == Tidy(rest, false, acc + ["..", ".."])
  {
    assert (["."] + rest)[1..] == rest && ([""] + rest)[1..] == rest && ([".."] + rest)[1..] == rest;
    assert ([name] + rest)[1..] == rest && ([name, ".."] + rest)[1..] == [".."] + rest;
    assert (acc + [name])[..|acc|] == acc;
    assert [] + [".."] == [".."] && acc + [".."] + [".."] == acc + ["..", ".."];
  }

  function CleanParts(s: string): seq<string> {
    Tidy(Split(s, '/'), Rooted(s), [])
  }

  function Root(rooted: bool): string {
    if rooted then "/" else ""
  }

  function Clean(s: string): string {
    if CleanParts(s) != [] then Root(Rooted(s)) + Join(CleanParts(s), '/')
    else if Rooted(s) then "/" else "."
  }

  /** path.Join: empty elements are left out, and the result is cleaned. */
  function PathJoin(a: string, b: string): string {
    if a == "" && b == "" then ""
    else if a == "" then Clean(b)
    else if b == "" then Clean(a)
    else Clean(a + "/" + b)
  }

  /** What joining puts before a good name. */
  function Stem(prefix: string): string {
    if CleanParts(prefix) == [] then Root(Rooted(prefix))
    else Root(Rooted(prefix)) + Join(CleanParts(prefix), '/') + "/"
  }

  /** What cleaning leaves: plain components, after any number of ".." when the path is relative. */
  predicate InForm(parts: seq<string>, rooted: bool) {
    forall i :: 0 <= i < |parts| ==>
      parts[i] != "" && parts[i] != "."
      && (parts[i] == ".." ==> !rooted && forall j :: 0 <= j < i ==> parts[j] == "..")
  }

  lemma {:induction false} TidyInForm(parts: seq<string>, rooted: bool, acc: seq<string>)
    requires InForm(acc, rooted)
    ensures InForm(Tidy(parts, rooted, acc), rooted)
    decreases |parts|
  {
    if parts != [] {
      if parts[0] == "" || parts[0] == "." {
        TidyInForm(parts[1..], rooted, acc);
      } else if parts[0] != ".." {
        TidyInForm(parts[1..], rooted, acc + [parts[0]]);
      } else if acc != [] && acc[|acc| - 1] != ".." {
        TidyInForm(parts[1..], rooted, acc[..|acc| - 1]);
      } else if rooted {
        TidyInForm(parts[1..], rooted, acc);
      } else {
        AllDots(acc);
        TidyInForm(parts[1..], rooted, acc + [".."]);
      }
    }
  }

  lemma AllDots(acc: seq<string>)
    requires InForm(acc, false) && (acc == [] || acc[|acc| - 1] == "..")
    ensures forall j :: 0 <= j < |acc| ==> acc[j] == ".."
  {
  }

  lemma {:induction false} TidyKeeps(parts: seq<string>, rooted: bool, acc: seq<string>)
    requires InForm(acc + parts, rooted)
    ensures Tidy(parts, rooted, acc) == acc + parts
    decreases |parts|
  {
    if parts == [] {
      assert acc + parts == acc;
    } else {
      assert (acc + parts)[|acc|] == parts[0];
      assert acc + [parts[0]] + parts[1..] == acc + parts;
      if parts[0] == ".." && acc != [] { assert (acc + parts)[|acc| - 1] == ".."; }
      TidyKeeps(parts[1..], rooted, acc + [parts[0]]);
    }
  }

  lemma {:induction false} TidyConcat(a: seq<string>, b: seq<string>, rooted: bool, acc: seq<string>)
    ensures Tidy(a + b, rooted, acc) == Tidy(b, rooted, Tidy(a, rooted, acc))
    decreases |a|
  {
    if a == [] {
      assert a + b == b;
    } else {
      assert (a + b)[1..] == a[1..] + b;
      if a[0] == "" || a[0] == "." {
        TidyConcat(a[1..], b, rooted, acc);
      } else if a[0] != ".." {
        TidyConcat(a[1..], b, rooted, acc + [a[0]]);
      } else if acc != [] && acc[|acc| - 1] != ".." {
        TidyConcat(a[1..], b, rooted, acc[..|acc| - 1]);
      } else if rooted {
        TidyConcat(a[1..], b, rooted, acc);
      } else {
        TidyConcat(a[1..], b, rooted, acc + [".."]);
      }
    }
  }

  /** Joining a good name to any prefix puts the prefix's stem before it. */
  lemma JoinIsStem(prefix: string, n: string)
    requires GoodName(n)
    ensures PathJoin(prefix, n) == Stem(prefix) + n
  {
    var name := Split(n, '/');
    JoinOfSplit(n, '/');
    GoodIsRelative(n);
    if prefix == "" {
      assert [] + name == name;
      TidyKeeps(name, false, []);
      EmptyParts();
    } else {
      var s := prefix + "/" + n;
      var base := CleanParts(prefix);
      SplitConcat(prefix, '/', n);
      TidyConcat(Split(prefix, '/'), name, Rooted(prefix), []);
      TidyInForm(Split(prefix, '/'), Rooted(prefix), []);
      TidyKeeps(name, Rooted(prefix), base);
      assert Rooted(s) == Rooted(prefix) && CleanParts(s) == base + name;
      if base == [] {
        assert base + name == name;
      } else {
        JoinConcat(base, '/', name);
      }
    }
  }

  lemma EmptyParts()
    ensures CleanParts("") == []
  {
    assert Split("", '/') == [""];
    assert [""][1..] == [];
  }

  lemma GoodIsRelative(n: string)
    requires GoodName(n)
    ensures n != "" && n[0] != '/'
  {
    if n == "" {
      assert Split(n, '/')[0] == "";
    } else if n[0] == '/' {
      assert Split(n, '/')[0] == "";
    }
  }

  /** strings.TrimRight(s, "/"). */
  function TrimSlashes(s: string): string {
    if s != "" && s[|s| - 1] == '/' then TrimSlashes(s[..|s| - 1]) else s
  }

  lemma StemOfSlash(p: string)
    requires p != ""
    ensures Stem(p + "/") == Stem(p)
  {
    var parts, none := Split(p, '/'), [""];
    SplitConcat(p, '/', "");
    assert p + "/" + "" == p + "/" && Split("", '/') == none;
    TidyConcat(parts, none, Rooted(p), []);
    assert none[1..] == [];
  }

  lemma {:induction false} StemOfTrimmed(p: string)
    requires TrimSlashes(p) != ""
    ensures Stem(TrimSlashes(p)) == Stem(p)
  {
    if p[|p| - 1] == '/' {
      var init := p[..|p| - 1];
      assert p == init + "/";
      StemOfTrimmed(init);
      StemOfSlash(init);
    }
  }

  lemma PlainAfter(base: seq<string>, name: seq<string>, rooted: bool)
    requires InForm(base, rooted) && forall i :: 0 <= i < |name| ==> PlainPart(name[i])
    ensures InForm(base + name, rooted)
  {
  }

  lemma Regroup(root: string, dir: string, n: string)
    ensures root + dir + "/" + n == root + (dir + "/" + n)
  {
  }

  lemma StemJoins(prefix: string, n: string)
    ensures Stem(prefix) + n == Root(Rooted(prefix)) + Join(CleanParts(prefix) + Split(n, '/'), '/')
  {
    var base, name, root := CleanParts(prefix), Split(n, '/'), Root(Rooted(prefix));
    JoinOfSplit(n, '/');
    if base == [] {
      assert base + name == name;
    } else {
      JoinConcat(base, '/', name);
      Regroup(root, Join(base, '/'), n);
    }
  }

  lemma KeyHasNoSlash(prefix: string, n: string, c: string)
    requires c in CleanParts(prefix) + Split(n, '/')
    ensures '/' !in c
  {
    if c in CleanParts(prefix) {
      TidyParts(Split(prefix, '/'), Rooted(prefix), [], c);
      if c in Split(prefix, '/') { NoSlash(prefix, c); }
    } else {
      NoSlash(n, c);
    }
  }

  /** The components of a key: its prefix's clean ones, then the name's. */
  lemma KeyParts(prefix: string, n: string)
    requires GoodName(n)
    ensures var all := CleanParts(prefix) + Split(n, '/');
            && InForm(all, Rooted(prefix)) && (forall c :: c in all ==> '/' !in c)
            && Stem(prefix) + n == Root(Rooted(prefix)) + Join(all, '/')
  {
    TidyInForm(Split(prefix, '/'), Rooted(prefix), []);
    PlainAfter(CleanParts(prefix), Split(n, '/'), Rooted(prefix));
    StemJoins(prefix, n);
    forall c | c in CleanParts(prefix) + Split(n, '/') ensures '/' !in c { KeyHasNoSlash(prefix, n, c); }
  }

  lemma NoSlash(s: string, c: string)
    requires c in Split(s, '/')
    ensures '/' !in c
  {
    var i :| 0 <= i < |Split(s, '/')| && Split(s, '/')[i] == c;
    SplitParts(s, '/', i);
  }

  lemma {:induction false} TidyParts(parts: seq<string>, rooted: bool, acc: seq<string>, c: string)
    requires c in Tidy(parts, rooted, acc)
    ensures c in parts || c in acc || c == ".."
    decreases |parts|
  {
    if parts != [] {
      if parts[0] == "" || parts[0] == "." {
        TidyParts(parts[1..], rooted, acc, c);
      } else if parts[0] != ".." {
        TidyParts(parts[1..], rooted, acc + [parts[0]], c);
      } else if acc != [] && acc[|acc| - 1] != ".." {
        TidyParts(parts[1..], rooted, acc[..|acc| - 1], c);
      } else if rooted {
        TidyParts(parts[1..], rooted, acc, c);
      } else {
        TidyParts(parts[1..], rooted, acc + [".."], c);
      }
    }
  }

  lemma StemOfRelative(t: string, parts: seq<string>)
    requires parts != [] && Split(t, '/') == parts && InForm(parts, false) && !Rooted(t)
    ensures Stem(t) == t + "/"
  {
    JoinOfSplit(t, '/');
    assert [] + parts == parts;
    TidyKeeps(parts, false, []);
    assert CleanParts(t) == parts && "" + t + "/" == t + "/";
  }

  lemma StemOfRooted(t: string, parts: seq<string>)
    requires parts != [] && Split(t, '/') == [""] + parts && InForm(parts, true) && Rooted(t)
    ensures Stem(t) == t + "/"
  {
    JoinOfSplit(t, '/');
    assert ([""] + parts)[1..] == parts;
    assert t == "/" + Join(parts, '/');
    assert [] + parts == parts;
    TidyKeeps(parts, true, []);
    assert Tidy([""] + parts, true, []) == Tidy(parts, true, []);
  }

  lemma PartsOfDirectory(t: string, rest: string, parts: seq<string>)
    requires Split(t + "/" + rest, '/') == parts
    ensures |Split(t, '/')| <= |parts| && Split(t, '/') == parts[..|Split(t, '/')|]
  {
    SplitConcat(t, '/', rest);
  }

  lemma RootedDirectory(t: string, rest: string, all: seq<string>)
    requires all != [] && InForm(all, true) && (forall c :: c in all ==> '/' !in c)
    requires t != "" && t + "/" + rest == "/" + Join(all, '/')
    ensures Stem(t) == t + "/"
  {
    var tail, m := Join(all, '/'), |Split(t, '/')|;
    assert "" + "/" + tail == "/" + tail;
    SplitConcat("", '/', tail);
    SplitOfJoin(all, '/');
    PartsOfDirectory(t, rest, [""] + all);
    assert t[0] == (t + "/" + rest)[0];
    JoinOfSplit(t, '/');
    assert m > 1;
    assert ([""] + all)[..m] == [""] + all[..m - 1];
    StemOfRooted(t, all[..m - 1]);
  }

  lemma RelativeDirectory(t: string, rest: string, all: seq<string>)
    requires all != [] && InForm(all, false) && (forall c :: c in all ==> '/' !in c)
    requires t != "" && t + "/" + rest == Join(all, '/')
    ensures Stem(t) == t + "/"
  {
    SplitOfJoin(all, '/');
    PartsOfDirectory(t, rest, all);
    FirstChar(all);
    assert t[0] == (t + "/" + rest)[0];
    StemOfRelative(t, all[..|Split(t, '/')|]);
  }

  /** Whatever is the path of a directory above some key is clean. */
  lemma DirectoryIsClean(t: string, prefix: string, n: string)
    requires GoodName(n) && t != "" && t + "/" <= Stem(prefix) + n
    ensures Stem(t) == t + "/"
  {
    var key := Stem(prefix) + n;
    var all := CleanParts(prefix) + Split(n, '/');
    KeyParts(prefix, n);
    var rest := key[|t| + 1..];
    assert key == t + "/" + rest;
    if Rooted(prefix) {
      RootedDirectory(t, rest, all);
    } else {
      assert "" + Join(all, '/') == Join(all, '/');
      RelativeDirectory(t, rest, all);
    }
  }

  lemma FirstChar(all: seq<string>)
    requires all != [] && all[0] != "" && '/' !in all[0]
    ensures Join(all, '/') != "" && Join(all, '/')[0] != '/'
  {
    assert Join(all, '/')[0] == all[0][0];
    assert all[0][0] in all[0];
  }
}
