/**
 The tag policy of the server image build (`gen_tags`): from a dotted
 version and a release type it derives the ordered list of image tags, one
 per published prefix of the version.
 */
module TagPolicy {
  import opened PyStrings

  datatype Result<T, E> = Ok(value: T) | Err(error: E)

  /** The `ValueError` raised for a release type outside the known words. */
  datatype TagError = InvalidReleaseType(releaseType: string)

  /** The release types the policy recognises. */
  const ReleaseTypes: seq<string> := ["latest", "major", "minor", "patch", "head"]

  /** The dot-separated parts of a version, `version.split(".")`. */
  function Parts(version: string): (parts: seq<string>)
    ensures |parts| >= 1
  {
    Split(version, '.')
  }

  /** The tag made of the first `n` parts, `".".join(parts[:n])`. */
  function Prefix(parts: seq<string>, n: nat): string
    requires n <= |parts|
  {
    Join(parts[..n], '.')
  }

  /** What one loop `for i in range(start, len(parts))` appends: the
      prefixes of lengths `start + 1` up to `|parts|`, shortest first. */
  function PrefixTags(parts: seq<string>, start: nat): (tags: seq<string>)
    ensures |tags| == if start < |parts| then |parts| - start else 0
  {
    var n := if start < |parts| then |parts| - start else 0;
    seq(n, j requires 0 <= j < n => Prefix(parts, start + j + 1))
  }

  /** The tags `gen_tags` returns, or the error it raises. */
  function GenTagsSpec(version: string, releaseType: string): (r: Result<seq<string>, TagError>)
    ensures r.Err? <==> releaseType !in ReleaseTypes
    ensures r.Err? ==> r.error == InvalidReleaseType(releaseType)
    ensures releaseType == "head" ==> r == Ok(["head"])
  {
    var parts := Parts(version);
    if releaseType == "latest" then Ok(["latest"] + PrefixTags(parts, 0))
    else if releaseType == "major" then Ok(PrefixTags(parts, 0))
    else if releaseType == "minor" then Ok(PrefixTags(parts, 1))
    else if releaseType == "patch" then Ok(PrefixTags(parts, 2))
    else if releaseType == "head" then Ok(["head"])
    else Err(InvalidReleaseType(releaseType))
  }

  /** One `for i in range(start, len(parts))` loop of `gen_tags`: appends
      the tag of every prefix longer than `start` parts. */
  method AppendPrefixTags(parts: seq<string>, start: nat, tags: seq<string>) returns (out: seq<string>)
    ensures out == tags + PrefixTags(parts, start)
  {
    out := tags;
    var i := start;
    while i < |parts|
      invariant start <= i
      invariant i > |parts| ==> i == start && out == tags
      invariant i <= |parts| ==> out == tags + PrefixTags(parts, start)[..i - start]
    {
      ghost var done := PrefixTags(parts, start);
      assert done[..i + 1 - start] == done[..i - start] + [done[i - start]];
      assert done[i - start] == Prefix(parts, i + 1);
      out := out + [Join(parts[..i + 1], '.')];
      i := i + 1;
    }
    assert PrefixTags(parts, start)[..|PrefixTags(parts, start)|] == PrefixTags(parts, start);
  }

  /** `gen_tags(version, release_type)`. */
  method GenTags(version: string, releaseType: string) returns (r: Result<seq<string>, TagError>)
    ensures r == GenTagsSpec(version, releaseType)
  {
    var parts := Split(version, '.');
    assert parts == Parts(version);
    var tags: seq<string> := [];
    if releaseType == "latest" {
      tags := tags + [releaseType];
      assert tags == ["latest"];
      tags := AppendPrefixTags(parts, 0, tags);
    } else if releaseType == "major" {
      tags := AppendPrefixTags(parts, 0, tags);
      assert tags == PrefixTags(parts, 0);
    } else if releaseType == "minor" {
      tags := AppendPrefixTags(parts, 1, tags);
      assert tags == PrefixTags(parts, 1);
    } else if releaseType == "patch" {
      tags := AppendPrefixTags(parts, 2, tags);
      assert tags == PrefixTags(parts, 2);
    } else if releaseType == "head" {
      tags := tags + [releaseType];
      assert tags == ["head"];
    } else {
      return Err(InvalidReleaseType(releaseType));
    }
    return Ok(tags);
  }

  /** `major` yields one tag per part; tag `i` is the first `i + 1` parts
      and the last tag is the version itself. */
  lemma MajorTags(version: string)
    ensures GenTagsSpec(version, "major").Ok?
    ensures var t := GenTagsSpec(version, "major").value;
            |t| == |Parts(version)| &&
            (forall i :: 0 <= i < |t| ==> t[i] == Join(Parts(version)[..i + 1], '.')) &&
            t[|t| - 1] == version
  {
    var parts := Parts(version);
    JoinSplit(version, '.');
    assert parts[..|parts|] == parts;
  }

  /** `latest` is the word "latest" followed by exactly the `major` tags. */
  lemma LatestIsLatestThenMajor(version: string)
    ensures GenTagsSpec(version, "latest").Ok? && GenTagsSpec(version, "major").Ok?
    ensures GenTagsSpec(version, "latest").value == ["latest"] + GenTagsSpec(version, "major").value
  {
  }

  /** `minor` drops the first `major` tag and `patch` the first two, so
      they are the prefixes of lengths 2..n and 3..n. */
  lemma MinorPatchDropFromMajor(version: string)
    ensures var major := GenTagsSpec(version, "major").value;
            GenTagsSpec(version, "minor") == Ok(major[1..]) &&
            GenTagsSpec(version, "patch") == Ok(if |major| >= 2 then major[2..] else [])
  {
    var parts := Parts(version);
    var major := PrefixTags(parts, 0);
    assert PrefixTags(parts, 1) == major[1..];
    assert |major| >= 2 ==> PrefixTags(parts, 2) == major[2..];
  }

  lemma PrefixOfConcat(a: string, b: string)
    ensures a <= a + b && |a + b| == |a| + |b|
  {
    assert (a + b)[..|a|] == a;
  }

  /** The tags one loop appends are prefixes of the whole version cut at
      dots: each tag followed by a dot begins every later tag and the join
      of all the parts, and each tag is strictly longer than the one
      before. */
  lemma PrefixTagsAreDotPrefixes(parts: seq<string>, start: nat, i: nat, j: nat)
    requires i < j < |PrefixTags(parts, start)|
    ensures var t := PrefixTags(parts, start);
            t[i] + "." <= t[j] && t[i] + "." <= Join(parts, '.') && |t[i]| < |t[j]|
  {
    var t := PrefixTags(parts, start);
    var m := start + i + 1;
    var n := start + j + 1;
    var ti := Join(parts[..m], '.');
    var tj := Join(parts[..n], '.');
    assert start < |parts| && n <= |parts|;
    assert t[i] == Prefix(parts, m) == ti;
    assert t[j] == Prefix(parts, n) == tj;
    var front := parts[..n];
    assert ti + "." + Join(front[m..], '.') == tj by {
      JoinCut(front, '.', m);
      assert front[..m] == parts[..m];
    }
    assert ti + "." + Join(parts[m..], '.') == Join(parts, '.') by {
      JoinCut(parts, '.', m);
    }
    PrefixOfConcat(ti + ".", Join(front[m..], '.'));
    PrefixOfConcat(ti + ".", Join(parts[m..], '.'));
  }

  /** Every tag of `major` but the last, followed by a dot, begins every
      later tag and the version itself, and the tags grow strictly. */
  lemma MajorTagsAreDotPrefixes(version: string, i: nat, j: nat)
    requires i < j < |Parts(version)|
    ensures var t := GenTagsSpec(version, "major").value;
            t[i] + "." <= t[j] && t[i] + "." <= version && |t[i]| < |t[j]|
  {
    PrefixTagsAreDotPrefixes(Parts(version), 0, i, j);
    JoinSplit(version, '.');
  }

  lemma JoinStep(p: string, rest: seq<string>)
    requires |rest| >= 1
    ensures Join([p] + rest, '.') == p + "." + Join(rest, '.')
  {
    assert ([p] + rest)[1..] == rest;
  }

  /** The dotted prefixes of 22.2.2.2, joined one part at a time. */
  lemma ExampleJoins()
    ensures Join(["22"], '.') == "22"
    ensures Join(["22", "2"], '.') == "22.2"
    ensures Join(["22", "2", "2"], '.') == "22.2.2"
    ensures Join(["22", "2", "2", "2"], '.') == "22.2.2.2"
  {
    JoinStep("2", ["2"]);
    assert ["2"] + ["2"] == ["2", "2"];
    assert "2" + "." + "2" == "2.2";
    JoinStep("2", ["2", "2"]);
    assert ["2"] + ["2", "2"] == ["2", "2", "2"];
    assert "2" + "." + "2.2" == "2.2.2";
    JoinStep("22", ["2"]);
    assert ["22"] + ["2"] == ["22", "2"];
    assert "22" + "." + "2" == "22.2";
    JoinStep("22", ["2", "2"]);
    assert ["22"] + ["2", "2"] == ["22", "2", "2"];
    assert "22" + "." + "2.2" == "22.2.2";
    JoinStep("22", ["2", "2", "2"]);
    assert ["22"] + ["2", "2", "2"] == ["22", "2", "2", "2"];
    assert "22" + "." + "2.2.2" == "22.2.2.2";
  }

  /** 22.2.2.2 splits into four parts. */
  lemma ExampleParts()
    ensures Parts("22.2.2.2") == ["22", "2", "2", "2"]
  {
    ExampleJoins();
    SplitJoin(["22", "2", "2", "2"], '.');
  }

  /** 22.2.2.2 under `major`. */
  lemma ExampleMajor()
    ensures GenTagsSpec("22.2.2.2", "major") == Ok(["22", "22.2", "22.2.2", "22.2.2.2"])
  {
    var parts := ["22", "2", "2", "2"];
    ExampleParts();
    ExampleJoins();
    assert parts[..1] == ["22"];
    assert parts[..2] == ["22", "2"];
    assert parts[..3] == ["22", "2", "2"];
    assert parts[..4] == parts;
    var major := PrefixTags(parts, 0);
    assert major[0] == "22" && major[1] == "22.2" && major[2] == "22.2.2" && major[3] == "22.2.2.2";
    assert major == ["22", "22.2", "22.2.2", "22.2.2.2"];
  }

  /** 22.2.2.2 under `latest`: the word, then the `major` tags. */
  lemma ExampleLatest()
    ensures GenTagsSpec("22.2.2.2", "latest") == Ok(["latest", "22", "22.2", "22.2.2", "22.2.2.2"])
  {
    ExampleMajor();
    LatestIsLatestThenMajor("22.2.2.2");
    assert ["latest"] + ["22", "22.2", "22.2.2", "22.2.2.2"] == ["latest", "22", "22.2", "22.2.2", "22.2.2.2"];
  }

  /** 22.2.2.2 under `minor` and `patch`. */
  lemma ExampleMinorPatch()
    ensures GenTagsSpec("22.2.2.2", "minor") == Ok(["22.2", "22.2.2", "22.2.2.2"])
    ensures GenTagsSpec("22.2.2.2", "patch") == Ok(["22.2.2", "22.2.2.2"])
  {
    var major := ["22", "22.2", "22.2.2", "22.2.2.2"];
    ExampleMajor();
    MinorPatchDropFromMajor("22.2.2.2");
    assert major[1..] == ["22.2", "22.2.2", "22.2.2.2"];
    assert major[2..] == ["22.2.2", "22.2.2.2"];
  }
}
