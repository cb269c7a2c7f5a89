/** The member cluster as a watch sees it: a log of changes, and the state the log folds to. */
module WatchLog {

  import opened Common

  type Key = string
  type Value = string
  type View = map<Key, Value>

  /** Entry i of the log has resourceVersion i + 1. Other is a change the watch does not select:
      resource versions are shared by every kind, so the versions a watch sees have gaps. */
  datatype Entry = Put(key: Key, val: Value) | Delete(key: Key) | Other

  function ApplyOne(v: View, e: Entry): View {
    match e
    case Put(k, x) => v[k := x]
    case Delete(k) => v - {k}
    case Other => v
  }

  function Apply(v: View, es: seq<Entry>): View {
    if es == [] then v else ApplyOne(Apply(v, es[..|es| - 1]), es[|es| - 1])
  }

  /** What the server holds after a log. */
  function State(log: seq<Entry>): View {
    Apply(map[], log)
  }

  function Look(v: View, k: Key): Option<Value> {
    if k in v then Some(v[k]) else None
  }

  predicate Touches(e: Entry, k: Key) {
    !e.Other? && e.key == k
  }

  /** The last entry of es that changes k; None when no entry does. */
  function LastChange(es: seq<Entry>, k: Key): Option<Entry> {
    if es == [] then None
    else if Touches(es[|es| - 1], k) then Some(es[|es| - 1])
    else LastChange(es[..|es| - 1], k)
  }

  /** The resourceVersion of k's object: the version of the last entry that changed k. */
  function Version(es: seq<Entry>, k: Key): nat {
    if es == [] then 0
    else if Touches(es[|es| - 1], k) then |es|
    else Version(es[..|es| - 1], k)
  }

  predicate Quiet(es: seq<Entry>) {
    forall i :: 0 <= i < |es| ==> es[i].Other?
  }

  ghost predicate Deletes(es: seq<Entry>, k: Key) {
    Delete(k) in es
  }

  /** Replaying everything after version `from` onto view gives the server's value for k; or k is gone
      from the server and is one of the keys in stale. */
  ghost predicate AgreesAt(view: View, log: seq<Entry>, from: nat, stale: set<Key>, k: Key)
    requires from <= |log|
  {
    var want := Look(State(log), k);
    Look(Apply(view, log[from..]), k) == want || (want.None? && k in stale)
  }

  ghost predicate Agrees(view: View, log: seq<Entry>, from: nat, stale: set<Key>) {
    from <= |log| && forall k :: AgreesAt(view, log, from, stale, k)
  }

  // ----- Facts about replaying a log -----

  lemma {:induction false} LookApply(v: View, es: seq<Entry>, k: Key)
    ensures Look(Apply(v, es), k) ==
            match LastChange(es, k)
            case None => Look(v, k)
            case Some(e) => if e.Put? then Some(e.val) else None
  {
    if es != [] { LookApply(v, es[..|es| - 1], k); }
  }

  lemma {:induction false} LastChangeConcat(a: seq<Entry>, b: seq<Entry>, k: Key)
    ensures LastChange(a + b, k) == if LastChange(b, k).None? then LastChange(a, k) else LastChange(b, k)
  {
    if b == [] {
      assert a + b == a;
    } else {
      var init := b[..|b| - 1];
      assert (a + b)[..|a + b| - 1] == a + init;
      LastChangeConcat(a, init, k);
    }
  }

  lemma {:induction false} ApplyConcat(v: View, a: seq<Entry>, b: seq<Entry>)
    ensures Apply(v, a + b) == Apply(Apply(v, a), b)
  {
    if b == [] {
      assert a + b == a;
    } else {
      var init := b[..|b| - 1];
      assert (a + b)[..|a + b| - 1] == a + init;
      ApplyConcat(v, a, init);
    }
  }

  lemma LastChangeSplit(es: seq<Entry>, v: nat, k: Key)
    requires v <= |es|
    ensures LastChange(es, k) == if LastChange(es[v..], k).None? then LastChange(es[..v], k) else LastChange(es[v..], k)
  {
    assert es == es[..v] + es[v..];
    LastChangeConcat(es[..v], es[v..], k);
  }

  /** An object's version is at most v exactly when nothing after v changed it. */
  lemma {:induction false} VersionIsLastChange(es: seq<Entry>, v: nat, k: Key)
    requires v <= |es|
    ensures Version(es, k) <= |es|
    ensures Version(es, k) <= v <==> LastChange(es[v..], k).None?
    ensures Version(es, k) > 0 ==> Touches(es[Version(es, k) - 1], k)
  {
    if v == |es| {
      if es != [] { VersionIsLastChange(es[..|es| - 1], |es| - 1, k); }
    } else {
      VersionIsLastChange(es[..|es| - 1], v, k);
      assert es[v..][..|es| - v - 1] == es[..|es| - 1][v..];
    }
  }

  lemma {:induction false} QuietChangesNothing(es: seq<Entry>, k: Key)
    requires Quiet(es)
    ensures LastChange(es, k).None?
  {
    if es != [] { QuietChangesNothing(es[..|es| - 1], k); }
  }

  lemma {:induction false} LastChangeIsInLog(es: seq<Entry>, k: Key)
    ensures LastChange(es, k).Some? ==> LastChange(es, k).value in es && Touches(LastChange(es, k).value, k)
  {
    if es != [] { LastChangeIsInLog(es[..|es| - 1], k); }
  }

  /** A key nothing changed after v reads the same in the log, in its prefix n and in the snapshot. */
  lemma UnchangedSince(log: seq<Entry>, n: nat, v: nat, k: Key)
    requires v <= n <= |log|
    requires LastChange(log[v..], k).None?
    ensures Version(log[..n], k) <= v
    ensures Look(State(log), k) == Look(State(log[..n]), k)
  {
    var snap := log[..n];
    assert log[v..] == snap[v..] + log[n..];
    LastChangeConcat(snap[v..], log[n..], k);
    VersionIsLastChange(snap, v, k);
    assert log == snap + log[n..];
    LastChangeConcat(snap, log[n..], k);
    LookApply(map[], snap, k);
    LookApply(map[], log, k);
  }

  /** The heart of the resume argument. A client that holds every object of the snapshot at n whose
      version is at most v, and nothing that is not in that snapshot except stale keys, may resume from
      v, however far the log has grown since. */
  lemma ResumeFrom(view: View, log: seq<Entry>, n: nat, v: nat, stale: set<Key>)
    requires v <= n <= |log|
    requires view.Keys - State(log[..n]).Keys <= stale
    requires forall k :: k in State(log[..n]) && Version(log[..n], k) <= v ==> Look(view, k) == Look(State(log[..n]), k)
    ensures Agrees(view, log, v, stale)
  {
    forall k ensures AgreesAt(view, log, v, stale, k) {
      LookApply(view, log[v..], k);
      if LastChange(log[v..], k).None? {
        UnchangedSince(log, n, v, k);
      } else {
        LookApply(map[], log, k);
        LastChangeSplit(log, v, k);
      }
    }
  }

  /** Moving the resume point over one delivered entry, or over entries the watch does not select. */
  lemma ResumeAfter(view: View, log: seq<Entry>, from: nat, i: nat, stale: set<Key>)
    requires Agrees(view, log, from, stale) && from <= i < |log|
    requires Quiet(log[from..i])
    ensures Agrees(ApplyOne(view, log[i]), log, i + 1, stale)
  {
    var next, after := ApplyOne(view, log[i]), i + 1;
    forall k ensures AgreesAt(next, log, after, stale, k) {
      assert AgreesAt(view, log, from, stale, k);
      assert log[from..] == log[from..i] + ([log[i]] + log[i + 1..]);
      LastChangeConcat(log[from..i], [log[i]] + log[i + 1..], k);
      LastChangeConcat([log[i]], log[i + 1..], k);
      QuietChangesNothing(log[from..i], k);
      LookApply(view, log[from..], k);
      LookApply(ApplyOne(view, log[i]), log[i + 1..], k);
    }
  }

  lemma ResumeOverQuiet(view: View, log: seq<Entry>, from: nat, to: nat, stale: set<Key>)
    requires Agrees(view, log, from, stale) && from <= to <= |log|
    requires Quiet(log[from..to])
    ensures Agrees(view, log, to, stale)
  {
    forall k ensures AgreesAt(view, log, to, stale, k) {
      assert AgreesAt(view, log, from, stale, k);
      assert log[from..] == log[from..to] + log[to..];
      LastChangeConcat(log[from..to], log[to..], k);
      QuietChangesNothing(log[from..to], k);
      LookApply(view, log[from..], k);
      LookApply(view, log[to..], k);
    }
  }

  lemma AgreesGrows(view: View, log: seq<Entry>, from: nat, stale: set<Key>, e: Entry)
    requires Agrees(view, log, from, stale)
    ensures Agrees(view, log + [e], from, stale)
  {
    var grown := log + [e];
    assert grown[from..] == log[from..] + [e];
    assert grown[..|grown| - 1] == log;
    forall k ensures AgreesAt(view, grown, from, stale, k) {
      assert AgreesAt(view, log, from, stale, k);
      ApplyConcat(view, log[from..], [e]);
      assert [e][..0] == [];
      assert Apply(Apply(view, log[from..]), [e]) == ApplyOne(Apply(view, log[from..]), e);
    }
  }

  lemma AgreesWiden(view: View, log: seq<Entry>, from: nat, small: set<Key>, big: set<Key>)
    requires Agrees(view, log, from, small) && small <= big
    ensures Agrees(view, log, from, big)
  {
    forall k ensures AgreesAt(view, log, from, big, k) {
      assert AgreesAt(view, log, from, small, k);
    }
  }

  /** A key the client still shows although the server has dropped it was deleted after `from`. */
  lemma LeftoverWasDeleted(view: View, log: seq<Entry>, from: nat, stale: set<Key>, k: Key)
    requires Agrees(view, log, from, stale)
    requires k in view && k !in State(log)
    ensures k in stale || Deletes(log[from..], k)
  {
    assert AgreesAt(view, log, from, stale, k);
    LookApply(view, log[from..], k);
    LastChangeIsInLog(log[from..], k);
  }

  lemma AgreesExactly(view: View, log: seq<Entry>, from: nat)
    requires Agrees(view, log, from, {})
    ensures Apply(view, log[from..]) == State(log)
  {
    var got, want := Apply(view, log[from..]), State(log);
    forall k ensures Look(got, k) == Look(want, k) {
      assert AgreesAt(view, log, from, {}, k);
    }
    assert forall k :: k in got ==> Look(got, k) == Look(want, k);
    assert forall k :: k in want ==> Look(got, k) == Look(want, k);
  }

  /** Two objects never share a version. */
  lemma VersionsDistinct(es: seq<Entry>, k: Key, m: Key)
    requires k in State(es) && m in State(es) && Version(es, k) == Version(es, m)
    ensures k == m
  {
    VersionIsLastChange(es, 0, k);
    VersionIsLastChange(es, 0, m);
    assert es[0..] == es;
    LookApply(map[], es, k);
  }

  /** Receiving an object of a later snapshot does not disturb what the view continues from. */
  lemma ReceiveObject(view: View, log: seq<Entry>, from: nat, n: nat, stale: set<Key>, k: Key)
    requires Agrees(view, log, from, stale) && from <= n <= |log|
    requires k in State(log[..n])
    ensures Agrees(view[k := State(log[..n])[k]], log, from, stale)
  {
    var next := view[k := State(log[..n])[k]];
    forall m ensures AgreesAt(next, log, from, stale, m) {
      assert AgreesAt(view, log, from, stale, m);
      LookApply(view, log[from..], m);
      LookApply(next, log[from..], m);
      if m == k && LastChange(log[from..], k).None? {
        UnchangedSince(log, n, from, k);
      }
    }
  }

  /** Every object of the snapshot at n that was not received has changed again after v, or is shown as it is
      in the snapshot already. */
  ghost predicate CutOk(view: View, log: seq<Entry>, n: nat, got: set<Key>, v: nat)
    requires v <= n <= |log|
  {
    forall k :: k in State(log[..n]) && k !in got ==>
      LastChange(log[v..], k).Some? || Look(view, k) == Look(State(log[..n]), k)
  }

  /** A replay of the snapshot at n is cut when the objects in got were received and v was stored. However far
      the log has grown since, the client can resume from v if and only if every missed object has changed after
      v, so that the log brings it, or is shown correctly from before. */
  lemma CutReplayIff(view: View, log: seq<Entry>, n: nat, got: set<Key>, v: nat, stale: set<Key>)
    requires v <= n <= |log|
    requires view.Keys - State(log[..n]).Keys <= stale
    requires forall k :: k in got ==> Look(view, k) == Look(State(log[..n]), k)
    ensures Agrees(view, log, v, stale) <==> CutOk(view, log, n, got, v)
  {
    if CutOk(view, log, n, got, v) { CutAgrees(view, log, n, got, v, stale); }
    if Agrees(view, log, v, stale) {
      forall k | k in State(log[..n]) && k !in got && LastChange(log[v..], k).None?
        ensures Look(view, k) == Look(State(log[..n]), k)
      {
        assert AgreesAt(view, log, v, stale, k);
        LookApply(view, log[v..], k);
        UnchangedSince(log, n, v, k);
      }
    }
  }

  lemma CutAgrees(view: View, log: seq<Entry>, n: nat, got: set<Key>, v: nat, stale: set<Key>)
    requires v <= n <= |log|
    requires view.Keys - State(log[..n]).Keys <= stale
    requires forall k :: k in got ==> Look(view, k) == Look(State(log[..n]), k)
    requires CutOk(view, log, n, got, v)
    ensures Agrees(view, log, v, stale)
  {
    forall k ensures AgreesAt(view, log, v, stale, k) {
      LookApply(view, log[v..], k);
      if LastChange(log[v..], k).None? {
        UnchangedSince(log, n, v, k);
      } else {
        LookApply(map[], log, k);
        LastChangeSplit(log, v, k);
      }
    }
  }

  /** Before the log grows, and with nothing shown from before: no missed object may be as old as v. */
  lemma CutReplayByVersion(log: seq<Entry>, got: set<Key>, v: nat)
    requires v <= |log|
    ensures Apply(map k | k in State(log) && k in got :: State(log)[k], log[v..]) == State(log)
       <==> forall k :: k in State(log) && k !in got ==> Version(log, k) > v
  {
    var view := map k | k in State(log) && k in got :: State(log)[k];
    assert log[..|log|] == log;
    CutReplayIff(view, log, |log|, got, v, {});
    AgreesIsEqual(view, log, v);
    forall k { VersionIsLastChange(log, v, k); }
  }

  lemma AgreesIsEqual(view: View, log: seq<Entry>, from: nat)
    requires from <= |log|
    ensures Agrees(view, log, from, {}) <==> Apply(view, log[from..]) == State(log)
  {
    if Agrees(view, log, from, {}) { AgreesExactly(view, log, from); }
  }
}
