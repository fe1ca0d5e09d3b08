/**
 The few string operations of the Python standard library that the build
 script relies on: `str.split` and `str.join` with a one-character
 separator, and `posixpath.join` of two components. Strings are `seq<char>`.
 */
module PyStrings {

  /** Number of occurrences of `c` in `s`. */
  function Count(s: string, c: char): nat
  {
    if |s| == 0 then 0 else (if s[0] == c then 1 else 0) + Count(s[1..], c)
  }

  /** `s.split(sep)`: the maximal runs of `s` between separators, empty
      runs included, so that there is always one more part than separators. */
  function Split(s: string, sep: char): (parts: seq<string>)
    ensures |parts| == Count(s, sep) + 1
    ensures forall i :: 0 <= i < |parts| ==> sep !in parts[i]
    decreases |s|
  {
    if |s| == 0 then [""]
    else
      var rest := Split(s[1..], sep);
      if s[0] == sep then [""] + rest
      else [[s[0]] + rest[0]] + rest[1..]
  }

  /** `sep.join(parts)`: the parts with one separator between neighbours. */
  function Join(parts: seq<string>, sep: char): string
    decreases |parts|
  {
    if |parts| == 0 then ""
    else if |parts| == 1 then parts[0]
    else parts[0] + [sep] + Join(parts[1..], sep)
  }

  /** Joining the parts of a split gives back the original string. */
  lemma {:induction false} JoinSplit(s: string, sep: char)
    ensures Join(Split(s, sep), sep) == s
    decreases |s|
  {
    if |s| > 0 {
      var rest := Split(s[1..], sep);
      JoinSplit(s[1..], sep);
      assert s == [s[0]] + s[1..];
      if s[0] != sep && |rest| > 1 {
        assert rest == [rest[0]] + rest[1..];
        assert Join(rest, sep) == rest[0] + [sep] + Join(rest[1..], sep);
        assert ([s[0]] + rest[0]) + [sep] + Join(rest[1..], sep)
            == [s[0]] + (rest[0] + [sep] + Join(rest[1..], sep));
      }
    }
  }

  /** Splitting a string whose first run `a` holds no separator glues `a`
      onto the first part of the rest. */
  lemma {:induction false} SplitAfterRun(a: string, t: string, sep: char)
    requires sep !in a
    ensures Split(a + t, sep) == [a + Split(t, sep)[0]] + Split(t, sep)[1..]
    decreases |a|
  {
    if |a| > 0 {
      assert (a + t)[1..] == a[1..] + t;
      assert (a + t)[0] == a[0];
      SplitAfterRun(a[1..], t, sep);
      assert [a[0]] + (a[1..] + Split(t, sep)[0]) == a + Split(t, sep)[0];
    } else {
      var st := Split(t, sep);
      assert a + t == t;
      assert a + st[0] == st[0];
      assert st == [st[0]] + st[1..];
    }
  }

  /** Splitting the join of separator-free parts gives back the parts. */
  lemma {:induction false} SplitJoin(parts: seq<string>, sep: char)
    requires |parts| >= 1
    requires forall i :: 0 <= i < |parts| ==> sep !in parts[i]
    ensures Split(Join(parts, sep), sep) == parts
    decreases |parts|
  {
    if |parts| == 1 {
      SplitAfterRun(parts[0], "", sep);
      assert parts[0] + "" == parts[0];
    } else {
      var tail := Join(parts[1..], sep);
      SplitJoin(parts[1..], sep);
      assert parts[0] + [sep] + tail == parts[0] + ([sep] + tail);
      SplitAfterRun(parts[0], [sep] + tail, sep);
      assert ([sep] + tail)[1..] == tail;
      assert parts[0] + "" == parts[0];
      assert parts == [parts[0]] + parts[1..];
    }
  }

  /** Cutting a list of at least two parts after its first `k` parts:
      the join of the front, a separator and the join of the back make up
      the join of the whole. */
  lemma {:induction false} JoinCut(parts: seq<string>, sep: char, k: nat)
    requires 1 <= k < |parts|
    ensures Join(parts[..k], sep) + [sep] + Join(parts[k..], sep) == Join(parts, sep)
    decreases k
  {
    if k > 1 {
      var tail := parts[1..];
      JoinCut(tail, sep, k - 1);
      assert tail[..k - 1] == parts[1..k];
      assert tail[k - 1..] == parts[k..];
      assert parts[..k][1..] == parts[1..k];
      assert Join(parts[..k], sep) == parts[0] + [sep] + Join(parts[1..k], sep);
    } else {
      assert parts[..1] == [parts[0]];
      assert parts[1..] == parts[k..];
    }
  }

  /** `posixpath.join(a, b)`: an absolute `b` replaces `a`; otherwise `b`
      is appended to `a`, with a `/` in between unless `a` is empty or
      already ends in `/`. */
  function PathJoin(a: string, b: string): string
  {
    if |b| > 0 && b[0] == '/' then b
    else if |a| == 0 || a[|a| - 1] == '/' then a + b
    else a + "/" + b
  }

  /** What the join promises: an absolute component wins; a relative one
      is appended to the whole of `a`, and is the whole result when `a` is
      empty; between a non-empty `a` and it stands a `/`: the last one of
      `a` when `a` ends in one, otherwise a new one. */
  lemma PathJoinJunction(a: string, b: string)
    ensures |b| > 0 && b[0] == '/' ==> PathJoin(a, b) == b
    ensures !(|b| > 0 && b[0] == '/') ==>
              var r := PathJoin(a, b);
              a <= r && |b| <= |r| && r[|r| - |b|..] == b
    ensures !(|b| > 0 && b[0] == '/') && a == "" ==> PathJoin(a, b) == b
    ensures !(|b| > 0 && b[0] == '/') && a != "" ==>
              var r := PathJoin(a, b);
              |r| > |b| && r[|r| - |b| - 1] == '/' &&
              (a[|a| - 1] == '/' ==> |r| == |a| + |b|) &&
              (a[|a| - 1] != '/' ==> |r| == |a| + 1 + |b|)
  {
  }

  /** Joining a non-empty directory and a relative name: the directory is
      kept whole and a `/` stands right before the name; a new `/` is added
      between them only when the directory does not already end in one. */
  lemma PathJoinRelative(a: string, b: string)
    requires a != "" && b != "" && b[0] != '/'
    ensures var r := PathJoin(a, b);
            a <= r && |r| > |b| && r[|r| - |b| - 1..] == "/" + b &&
            (a[|a| - 1] == '/' ==> |r| == |a| + |b|) &&
            (a[|a| - 1] != '/' ==> |r| == |a| + 1 + |b|)
  {
    var r := PathJoin(a, b);
    PathJoinJunction(a, b);
    assert r[|r| - |b| - 1..] == [r[|r| - |b| - 1]] + r[|r| - |b|..];
  }
}
