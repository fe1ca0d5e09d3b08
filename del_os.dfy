/**
 The `--no-ubuntu` and `--no-alpine` flags (`DelOS`): each takes one OS off
 the list of OSes to build, a list the parsed namespace holds and the flag
 edits in place.
 */
module OsFlags {

  /** The OSes built when no flag removes one, in build order. */
  const DefaultOs: seq<string> := ["ubuntu", "alpine"]

  /** The part of the parsed namespace the flags change: the OSes to build. */
  class Namespace {
    var os: seq<string>

    constructor (os: seq<string>)
      ensures this.os == os
    {
      this.os := os;
    }
  }

  /** The OS a flag's destination names: the destination without a leading
      `no_`, or the whole destination when it has none. */
  function NoBuild(dest: string): (name: string)
    ensures "no_" <= dest ==> dest == "no_" + name
    ensures !("no_" <= dest) ==> name == dest
  {
    if "no_" <= dest then dest[3..] else dest
  }

  /** The position of the first `x` in `s`, or `|s|` when there is none. */
  function FirstIndex(s: seq<string>, x: string): (i: nat)
    ensures i <= |s|
    ensures forall j :: 0 <= j < i ==> s[j] != x
    ensures i < |s| ==> s[i] == x
    ensures i == |s| <==> x !in s
    decreases |s|
  {
    if |s| == 0 then 0
    else if s[0] == x then 0
    else 1 + FirstIndex(s[1..], x)
  }

  /** `s` after `if x in s: s.remove(x)`: the first `x` taken out, the rest
      kept in order. */
  function RemoveFirst(s: seq<string>, x: string): seq<string>
  {
    var i := FirstIndex(s, x);
    if i < |s| then s[..i] + s[i + 1..] else s
  }

  /** An OS that is not listed leaves the list as it is. */
  lemma RemoveAbsent(s: seq<string>, x: string)
    requires x !in s
    ensures RemoveFirst(s, x) == s
  {
    assert FirstIndex(s, x) == |s|;
  }

  /** A listed OS loses exactly one occurrence, its first; every other
      entry keeps its multiplicity, and the entries before the removed one
      stay where they were. */
  lemma RemovePresent(s: seq<string>, x: string)
    requires x in s
    ensures var r := RemoveFirst(s, x);
            var i := FirstIndex(s, x);
            |r| == |s| - 1 &&
            multiset(r) == multiset(s) - multiset{x} &&
            r[..i] == s[..i] && x !in s[..i] &&
            r[i..] == s[i + 1..]
  {
    var i := FirstIndex(s, x);
    var r := RemoveFirst(s, x);
    assert s == s[..i] + [s[i]] + s[i + 1..];
    assert r == s[..i] + s[i + 1..];
    assert r[..i] == s[..i];
    assert r[i..] == s[i + 1..];
    calc {
      multiset(s);
      multiset(s[..i]) + multiset{x} + multiset(s[i + 1..]);
      multiset(r) + multiset{x};
    }
  }

  /** A list without repeats no longer holds the OS once it is removed, so
      giving the same flag twice has the effect of giving it once. */
  lemma RemoveFromDistinct(s: seq<string>, x: string)
    requires forall i, j :: 0 <= i < j < |s| ==> s[i] != s[j]
    ensures x !in RemoveFirst(s, x)
    ensures RemoveFirst(RemoveFirst(s, x), x) == RemoveFirst(s, x)
  {
    if x in s {
      var i := FirstIndex(s, x);
      var r := RemoveFirst(s, x);
      RemovePresent(s, x);
      forall k | 0 <= k < |r|
        ensures r[k] != x
      {
        if k < i {
          assert r[k] == r[..i][k] == s[..i][k];
        } else {
          assert r[k] == r[i..][k - i] == s[i + 1..][k - i] == s[k + 1];
        }
      }
      RemoveAbsent(r, x);
    } else {
      RemoveAbsent(s, x);
    }
  }

  /** `--no-ubuntu` on the default list leaves only alpine, and
      `--no-alpine` only ubuntu. */
  lemma DefaultFlags()
    ensures RemoveFirst(DefaultOs, NoBuild("no_ubuntu")) == ["alpine"]
    ensures RemoveFirst(DefaultOs, NoBuild("no_alpine")) == ["ubuntu"]
  {
    assert NoBuild("no_ubuntu") == "ubuntu" by {
      assert "no_" <= "no_ubuntu";
      assert "no_ubuntu"[3..] == "ubuntu";
    }
    assert NoBuild("no_alpine") == "alpine" by {
      assert "no_" <= "no_alpine";
      assert "no_alpine"[3..] == "alpine";
    }
    assert FirstIndex(DefaultOs, "ubuntu") == 0;
    assert FirstIndex(DefaultOs, "alpine") == 1 by {
      assert DefaultOs[0] != "alpine";
      assert DefaultOs[1..] == ["alpine"];
    }
    assert DefaultOs[1..] == ["alpine"];
    assert DefaultOs[..1] == ["ubuntu"];
  }

  /** The flag action, bound to its destination (`no_ubuntu`, `no_alpine`). */
  class DelOS {
    const dest: string

    constructor (dest: string)
      ensures this.dest == dest
    {
      this.dest := dest;
    }

    /** `DelOS.__call__`: removes the named OS from `namespace.os` in
        place, when it is listed. */
    method Call(namespace: Namespace)
      modifies namespace
      ensures namespace.os == RemoveFirst(old(namespace.os), NoBuild(dest))
    {
      var name := NoBuild(dest);
      var i := 0;
      while i < |namespace.os| && namespace.os[i] != name
        invariant i <= |namespace.os|
        invariant forall j :: 0 <= j < i ==> namespace.os[j] != name
      {
        i := i + 1;
      }
      assert i == FirstIndex(namespace.os, name);
      if i < |namespace.os| {
        namespace.os := namespace.os[..i] + namespace.os[i + 1..];
      }
    }
  }
}
