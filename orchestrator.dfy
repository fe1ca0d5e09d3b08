/**
 The per-architecture build and manifest merge of one (OS, tag) pair
 (`build_and_push_image`), with the arguments it hands to the container
 build tool (`buildx_args`). The build tool itself is outside the model:
 its exit codes, the digests its metadata files would yield and the
 scratch directory are given as an `Env`, and every process the script
 would start is recorded as a `Run` with its argument list.
 */
module BuildOrchestrator {
  import opened PyStrings

  /** The keys of `BUCKETS`; each names the bucket its packages come from. */
  datatype Arch = Amd64 | Arm64 {
    function Name(): string
    {
      match this
      case Amd64 => "amd64"
      case Arm64 => "arm64"
    }

    function Bucket(): string
    {
      match this
      case Amd64 => "package_release"
      case Arm64 => "package_aarch64"
    }
  }

  /** `BUCKETS` in the order a loop over the dictionary visits it. */
  const Buckets: seq<Arch> := [Amd64, Arm64]

  /** The output of a pushing build: an image pushed by digest only. */
  const DigestOutput: string := "type=image,push-by-digest=true"

  /** The output of a local build: an image loaded into the local store. */
  const DockerOutput: string := "type=docker"

  /** The build arguments naming the package repository, and the version. */
  const RepositoryArg: string := "REPOSITORY='"
  const DebLocationArg: string := "deb_location_url='"
  const VersionArg: string := "VERSION='"

  /** Each OS has its own Dockerfile, `Dockerfile.<os>`. */
  const DockerfilePrefix: string := "Dockerfile."

  /** The two fields of `DockerImage` the build uses. */
  datatype DockerImage = DockerImage(fullPath: string, repo: string)

  datatype Status = OK | FAIL

  /** One entry of the result list: an image reference and its outcome. */
  datatype BuildResult = BuildResult(image: string, status: Status)

  /** A process the orchestration starts, with its argument list. */
  datatype Run = Build(arch: Arch, args: seq<Arg>) | Merge(command: seq<string>)

  /** What the outside world answers: the scratch directory for metadata
      files, the exit code of each architecture's build, the digest its
      metadata file holds, and the exit code of the merge. */
  datatype Env = Env(tempPath: string, buildExit: Arch -> int, digest: Arch -> string, mergeExit: int)

  /** The tag with the OS appended, except for the default OS `ubuntu`. */
  function EffectiveTag(os: string, tag: string): (t: string)
    ensures tag <= t
    ensures t == tag <==> os == "ubuntu"
    ensures os != "ubuntu" ==> t[|tag|..] == "-" + os
  {
    if os != "ubuntu" then tag + "-" + os else tag
  }

  /** `{repo}:{tag}-{arch}`, the name of one architecture's image. */
  function ArchRef(repo: string, tag: string, arch: Arch): string
  {
    repo + ":" + tag + "-" + arch.Name()
  }

  /** `{repo}:{tag}`, the name of the merged multi-architecture image. */
  function MergedRef(repo: string, tag: string): string
  {
    repo + ":" + tag
  }

  /** The package repository of one architecture under a bucket prefix. */
  function BucketUrl(bucketPrefix: string, arch: Arch): (url: string)
    requires bucketPrefix != ""
    // the prefix, a `/`, then the bucket: a trailing `/` of the prefix is
    // reused, otherwise a new one is added
    ensures bucketPrefix <= url
    ensures |url| > |arch.Bucket()| && url[|url| - |arch.Bucket()| - 1..] == "/" + arch.Bucket()
    ensures bucketPrefix[|bucketPrefix| - 1] == '/' ==> |url| == |bucketPrefix| + |arch.Bucket()|
    ensures bucketPrefix[|bucketPrefix| - 1] != '/' ==> |url| == |bucketPrefix| + 1 + |arch.Bucket()|
  {
    PathJoinRelative(bucketPrefix, arch.Bucket());
    PathJoin(bucketPrefix, arch.Bucket())
  }

  /** The facts `BucketUrl` promises leave one URL possible: any string
      that starts with the prefix, ends with `/` and the bucket, and has
      the promised length is that URL. */
  lemma {:induction false} BucketUrlDetermined(bucketPrefix: string, arch: Arch, u: string)
    requires bucketPrefix != ""
    requires bucketPrefix <= u
    requires |u| > |arch.Bucket()| && u[|u| - |arch.Bucket()| - 1..] == "/" + arch.Bucket()
    requires bucketPrefix[|bucketPrefix| - 1] == '/' ==> |u| == |bucketPrefix| + |arch.Bucket()|
    requires bucketPrefix[|bucketPrefix| - 1] != '/' ==> |u| == |bucketPrefix| + 1 + |arch.Bucket()|
    ensures u == BucketUrl(bucketPrefix, arch)
  {
    var url := BucketUrl(bucketPrefix, arch);
    var b := arch.Bucket();
    assert |u| == |url|;
    forall i | 0 <= i < |u|
      ensures u[i] == url[i]
    {
      if i < |bucketPrefix| {
        assert u[i] == bucketPrefix[i] == url[i];
      } else {
        var off := i - (|u| - |b| - 1);
        assert 0 <= off;
        assert u[i] == u[|u| - |b| - 1..][off] == ("/" + b)[off];
        assert url[i] == url[|url| - |b| - 1..][off];
      }
    }
  }

  /** The options a build passes, each spelt `--name=`, except `--push`,
      which takes no value. */
  datatype Key = Push | Output | Tag | Platform | BuildArg | MetadataFile | Progress | File {
    function Spelling(): string
    {
      match this
      case Push => "--push"
      case Output => "--output="
      case Tag => "--tag="
      case Platform => "--platform="
      case BuildArg => "--build-arg="
      case MetadataFile => "--metadata-file="
      case Progress => "--progress="
      case File => "--file="
    }
  }

  /** One argument of a build command: a bare word, or an option with its
      value. */
  datatype Arg = Word(word: string) | Opt(key: Key, value: string) {
    /** The argument as it stands on the command line. */
    function Text(): string
    {
      match this
      case Word(w) => w
      case Opt(k, v) => k.Spelling() + v
    }
  }

  /** `buildx_args`: the platform of one architecture and, when a bucket
      prefix is set (an empty prefix stands for an unset one), the package
      repository handed to the build twice. */
  function BuildxArgs(bucketPrefix: string, arch: Arch): (args: seq<Arg>)
    ensures |args| == if bucketPrefix == "" then 1 else 3
    ensures args[0] == Opt(Platform, "linux/" + arch.Name())
    ensures bucketPrefix != "" ==>
              args[1] == Opt(BuildArg, RepositoryArg + BucketUrl(bucketPrefix, arch) + "'") &&
              args[2] == Opt(BuildArg, DebLocationArg + BucketUrl(bucketPrefix, arch) + "'")
  {
    var args := [Opt(Platform, "linux/" + arch.Name())];
    if bucketPrefix != "" then
      var url := BucketUrl(bucketPrefix, arch);
      args + [Opt(BuildArg, RepositoryArg + url + "'"), Opt(BuildArg, DebLocationArg + url + "'")]
    else args
  }

  /** The push-or-load choice of every architecture's build: push by digest
      to the repository, or load into the local image store. */
  function PushChoice(repo: string, push: bool): seq<Arg>
  {
    if push then [Opt(Push, ""), Opt(Output, DigestOutput), Opt(Tag, repo)]
    else [Opt(Output, DockerOutput)]
  }

  /** The arguments every architecture's build starts with. */
  function InitArgs(repo: string, push: bool): seq<Arg>
  {
    [Word("docker"), Word("buildx"), Word("build")] + PushChoice(repo, push)
  }

  /** The tag a local build loads its image under; none when pushing. */
  function LocalTag(repo: string, tag: string, arch: Arch, push: bool): seq<Arg>
  {
    if push then [] else [Opt(Tag, ArchRef(repo, tag, arch))]
  }

  /** The arguments that close every build: metadata file, version, plain
      progress output, Dockerfile of the OS, and the build context. */
  function TailArgs(image: DockerImage, os: string, version: string, metadataPath: string): seq<Arg>
  {
    [ Opt(MetadataFile, metadataPath),
      Opt(BuildArg, VersionArg + version + "'"),
      Opt(Progress, "plain"),
      Opt(File, PathJoin(image.fullPath, DockerfilePrefix + os)),
      Word(image.fullPath) ]
  }

  /** The full argument list of one architecture's build; `tag` is the
      effective tag. */
  function BuildArgs(image: DockerImage, push: bool, bucketPrefix: string, os: string,
                     tag: string, version: string, tempPath: string, arch: Arch): seq<Arg>
  {
    InitArgs(image.repo, push) + BuildxArgs(bucketPrefix, arch) + LocalTag(image.repo, tag, arch, push) +
    TailArgs(image, os, version, PathJoin(tempPath, tag + "-" + arch.Name()))
  }

  /** The arguments as they stand on the command line. */
  function CommandLine(args: seq<Arg>): (line: seq<string>)
    ensures |line| == |args|
  {
    seq(|args|, i requires 0 <= i < |args| => args[i].Text())
  }

  /** Spelt out, every build starts `docker buildx build`, then pushes by
      digest to the repository or loads into the local docker store. */
  lemma InitArgTexts(repo: string, push: bool)
    ensures CommandLine(InitArgs(repo, push)) ==
            ["docker", "buildx", "build"] +
            if push then ["--push", "--output=type=image,push-by-digest=true", "--tag=" + repo]
            else ["--output=type=docker"]
  {
    var args := InitArgs(repo, push);
    var line := CommandLine(args);
    var expected := ["docker", "buildx", "build"] +
      if push then ["--push", "--output=type=image,push-by-digest=true", "--tag=" + repo]
      else ["--output=type=docker"];
    OutputSpellings();
    assert |line| == |expected|;
    forall i | 0 <= i < |line|
      ensures line[i] == expected[i]
    {
      assert line[i] == args[i].Text();
    }
  }

  /** The two `--output` arguments as the build spells them. */
  lemma OutputSpellings()
    ensures Output.Spelling() + DigestOutput == "--output=type=image,push-by-digest=true"
    ensures Output.Spelling() + DockerOutput == "--output=type=docker"
  {
  }

  /** Spelt out, `buildx_args` gives the platform and, with a bucket
      prefix, the two build-args quoting the package URL. */
  lemma BuildxArgTexts(bucketPrefix: string, arch: Arch)
    ensures var line := CommandLine(BuildxArgs(bucketPrefix, arch));
            line[0] == "--platform=linux/" + arch.Name() &&
            (bucketPrefix != "" ==>
              line[1] == "--build-arg=REPOSITORY='" + BucketUrl(bucketPrefix, arch) + "'" &&
              line[2] == "--build-arg=deb_location_url='" + BucketUrl(bucketPrefix, arch) + "'")
  {
    PlatformText(bucketPrefix, arch);
    if bucketPrefix != "" {
      RepositoryText(bucketPrefix, arch);
      DebLocationText(bucketPrefix, arch);
    }
  }

  lemma PlatformText(bucketPrefix: string, arch: Arch)
    ensures CommandLine(BuildxArgs(bucketPrefix, arch))[0] == "--platform=linux/" + arch.Name()
  {
    PlatformSpelling();
    SpellAfter(Platform.Spelling(), "linux/", arch.Name(), "--platform=linux/");
  }

  lemma RepositoryText(bucketPrefix: string, arch: Arch)
    requires bucketPrefix != ""
    ensures CommandLine(BuildxArgs(bucketPrefix, arch))[1]
            == "--build-arg=REPOSITORY='" + BucketUrl(bucketPrefix, arch) + "'"
  {
    var url := BucketUrl(bucketPrefix, arch);
    RepositorySpelling();
    QuotedText(BuildArg, RepositoryArg, url, "--build-arg=REPOSITORY='");
  }

  lemma DebLocationText(bucketPrefix: string, arch: Arch)
    requires bucketPrefix != ""
    ensures CommandLine(BuildxArgs(bucketPrefix, arch))[2]
            == "--build-arg=deb_location_url='" + BucketUrl(bucketPrefix, arch) + "'"
  {
    var url := BucketUrl(bucketPrefix, arch);
    DebLocationSpelling();
    QuotedText(BuildArg, DebLocationArg, url, "--build-arg=deb_location_url='");
  }

  /** The fixed texts the build-args and the platform start with. */
  lemma PlatformSpelling()
    ensures Platform.Spelling() + "linux/" == "--platform=linux/"
  {
  }

  lemma RepositorySpelling()
    ensures BuildArg.Spelling() + RepositoryArg == "--build-arg=REPOSITORY='"
  {
  }

  lemma DebLocationSpelling()
    ensures BuildArg.Spelling() + DebLocationArg == "--build-arg=deb_location_url='"
  {
  }

  /** An option whose value quotes `url` after a fixed text reads as the
      spelling and the fixed text run together, then the quoted `url`. */
  lemma QuotedText(k: Key, fixed: string, url: string, joined: string)
    requires joined == k.Spelling() + fixed
    ensures Opt(k, fixed + url + "'").Text() == joined + url + "'"
  {
  }

  /** Concatenation regrouped: an option's spelling before a value that
      starts with a fixed text reads as the two texts run together. */
  lemma SpellAfter(key: string, fixed: string, rest: string, joined: string)
    requires joined == key + fixed
    ensures key + (fixed + rest) == joined + rest
  {
  }

  /** The value of `a` if it is an option with key `k`. */
  function Sel(a: Arg, k: Key): seq<string>
  {
    if a.Opt? && a.key == k then [a.value] else []
  }

  /** The word of `a` if it is a bare word. */
  function WordOf(a: Arg): seq<string>
  {
    if a.Word? then [a.word] else []
  }

  /** The values of the options with key `k` in `args`, in order. */
  function Values(args: seq<Arg>, k: Key): seq<string>
    decreases |args|
  {
    if |args| == 0 then [] else Sel(args[0], k) + Values(args[1..], k)
  }

  /** The bare words of `args`, in order. */
  function Words(args: seq<Arg>): seq<string>
    decreases |args|
  {
    if |args| == 0 then [] else WordOf(args[0]) + Words(args[1..])
  }

  /** Values and words of the short lists a build is made of, one argument
      at a time. */
  lemma Unroll1(args: seq<Arg>, k: Key)
    requires |args| == 1
    ensures Values(args, k) == Sel(args[0], k)
    ensures Words(args) == WordOf(args[0])
  {
    assert args[1..] == [];
  }

  lemma Unroll3(args: seq<Arg>, k: Key)
    requires |args| == 3
    ensures Values(args, k) == Sel(args[0], k) + (Sel(args[1], k) + Sel(args[2], k))
    ensures Words(args) == WordOf(args[0]) + (WordOf(args[1]) + WordOf(args[2]))
  {
    Unroll1(args[2..], k);
    assert args[1..][1..] == args[2..];
  }

  lemma Unroll5(args: seq<Arg>, k: Key)
    requires |args| == 5
    ensures Values(args, k) == Sel(args[0], k) + (Sel(args[1], k) + (Sel(args[2], k) + (Sel(args[3], k) + Sel(args[4], k))))
    ensures Words(args) == WordOf(args[0]) + (WordOf(args[1]) + (WordOf(args[2]) + (WordOf(args[3]) + WordOf(args[4]))))
  {
    var rest := args[2..];
    Unroll3(rest, k);
    assert args[1..][1..] == rest;
  }

  lemma {:induction false} ValuesConcat(a: seq<Arg>, b: seq<Arg>, k: Key)
    ensures Values(a + b, k) == Values(a, k) + Values(b, k)
    decreases |a|
  {
    if |a| > 0 {
      assert (a + b)[1..] == a[1..] + b;
      ValuesConcat(a[1..], b, k);
    } else {
      assert a + b == b;
    }
  }

  lemma {:induction false} WordsConcat(a: seq<Arg>, b: seq<Arg>)
    ensures Words(a + b) == Words(a) + Words(b)
    decreases |a|
  {
    if |a| > 0 {
      assert (a + b)[1..] == a[1..] + b;
      WordsConcat(a[1..], b);
    } else {
      assert a + b == b;
    }
  }

  lemma Concat5(w: seq<Arg>, c: seq<Arg>, b: seq<Arg>, l: seq<Arg>, t: seq<Arg>, k: Key)
    ensures Values(w + c + b + l + t, k) == Values(w, k) + Values(c, k) + Values(b, k) + Values(l, k) + Values(t, k)
    ensures Words(w + c + b + l + t) == Words(w) + Words(c) + Words(b) + Words(l) + Words(t)
  {
    ValuesConcat(w + c + b + l, t, k);
    ValuesConcat(w + c + b, l, k);
    ValuesConcat(w + c, b, k);
    ValuesConcat(w, c, k);
    WordsConcat(w + c + b + l, t);
    WordsConcat(w + c + b, l);
    WordsConcat(w + c, b);
    WordsConcat(w, c);
  }

  /** The leading `docker buildx build`: three words and no option. */
  lemma CommandValues(k: Key)
    ensures Values([Word("docker"), Word("buildx"), Word("build")], k) == []
    ensures Words([Word("docker"), Word("buildx"), Word("build")]) == ["docker", "buildx", "build"]
  {
    Unroll3([Word("docker"), Word("buildx"), Word("build")], k);
  }

  lemma ChoiceValues(repo: string, push: bool, k: Key)
    ensures Values(PushChoice(repo, push), k) ==
              if push then (if k == Push then [""]
                            else if k == Output then [DigestOutput]
                            else if k == Tag then [repo] else [])
              else if k == Output then [DockerOutput] else []
    ensures Words(PushChoice(repo, push)) == []
  {
    if push { Unroll3(PushChoice(repo, push), k); } else { Unroll1(PushChoice(repo, push), k); }
  }

  lemma BuildxValues(bucketPrefix: string, arch: Arch, k: Key)
    ensures Values(BuildxArgs(bucketPrefix, arch), k) ==
              if k == Platform then ["linux/" + arch.Name()]
              else if k == BuildArg && bucketPrefix != "" then
                [RepositoryArg + BucketUrl(bucketPrefix, arch) + "'",
                 DebLocationArg + BucketUrl(bucketPrefix, arch) + "'"]
              else []
    ensures Words(BuildxArgs(bucketPrefix, arch)) == []
  {
    var args := BuildxArgs(bucketPrefix, arch);
    if bucketPrefix == "" { Unroll1(args, k); } else { Unroll3(args, k); }
  }

  lemma LocalValues(repo: string, tag: string, arch: Arch, push: bool, k: Key)
    ensures Values(LocalTag(repo, tag, arch, push), k) ==
              if !push && k == Tag then [ArchRef(repo, tag, arch)] else []
    ensures Words(LocalTag(repo, tag, arch, push)) == []
  {
    if !push { Unroll1(LocalTag(repo, tag, arch, push), k); }
  }

  lemma TailValues(image: DockerImage, os: string, version: string, metadataPath: string, k: Key)
    ensures Values(TailArgs(image, os, version, metadataPath), k) ==
              if k == MetadataFile then [metadataPath]
              else if k == BuildArg then [VersionArg + version + "'"]
              else if k == Progress then ["plain"]
              else if k == File then [PathJoin(image.fullPath, DockerfilePrefix + os)]
              else []
    ensures Words(TailArgs(image, os, version, metadataPath)) == [image.fullPath]
  {
    Unroll5(TailArgs(image, os, version, metadataPath), k);
  }

  /** The options and words of a build are those of its five pieces. */
  lemma {:induction false} BuildPieces(image: DockerImage, push: bool, bucketPrefix: string, os: string,
                    tag: string, version: string, tempPath: string, arch: Arch, k: Key)
    ensures var args := BuildArgs(image, push, bucketPrefix, os, tag, version, tempPath, arch);
            var tail := TailArgs(image, os, version, PathJoin(tempPath, tag + "-" + arch.Name()));
            Values(args, k) == [] + Values(PushChoice(image.repo, push), k) + Values(BuildxArgs(bucketPrefix, arch), k) +
                               Values(LocalTag(image.repo, tag, arch, push), k) + Values(tail, k) &&
            Words(args) == ["docker", "buildx", "build"] + Words(PushChoice(image.repo, push)) +
                           Words(BuildxArgs(bucketPrefix, arch)) + Words(LocalTag(image.repo, tag, arch, push)) +
                           Words(tail)
  {
    var words: seq<Arg> := [Word("docker"), Word("buildx"), Word("build")];
    var choice := PushChoice(image.repo, push);
    var buildx := BuildxArgs(bucketPrefix, arch);
    var local := LocalTag(image.repo, tag, arch, push);
    var tail := TailArgs(image, os, version, PathJoin(tempPath, tag + "-" + arch.Name()));
    assert BuildArgs(image, push, bucketPrefix, os, tag, version, tempPath, arch)
        == words + choice + buildx + local + tail;
    Concat5(words, choice, buildx, local, tail, k);
    CommandValues(k);
  }

  /** The options with key `k` of a build, piece by piece. */
  lemma {:induction false} KeyValues(image: DockerImage, push: bool, bucketPrefix: string, os: string,
                  tag: string, version: string, tempPath: string, arch: Arch, k: Key)
    ensures var args := BuildArgs(image, push, bucketPrefix, os, tag, version, tempPath, arch);
            var tail := TailArgs(image, os, version, PathJoin(tempPath, tag + "-" + arch.Name()));
            Values(args, k) == [] + Values(PushChoice(image.repo, push), k) + Values(BuildxArgs(bucketPrefix, arch), k) +
                               Values(LocalTag(image.repo, tag, arch, push), k) + Values(tail, k)
    ensures Values(PushChoice(image.repo, push), k) ==
              if push then (if k == Push then [""]
                            else if k == Output then [DigestOutput]
                            else if k == Tag then [image.repo] else [])
              else if k == Output then [DockerOutput] else []
    ensures Values(BuildxArgs(bucketPrefix, arch), k) ==
              if k == Platform then ["linux/" + arch.Name()]
              else if k == BuildArg && bucketPrefix != "" then
                [RepositoryArg + BucketUrl(bucketPrefix, arch) + "'",
                 DebLocationArg + BucketUrl(bucketPrefix, arch) + "'"]
              else []
    ensures Values(LocalTag(image.repo, tag, arch, push), k) ==
              if !push && k == Tag then [ArchRef(image.repo, tag, arch)] else []
    ensures var metadataPath := PathJoin(tempPath, tag + "-" + arch.Name());
            Values(TailArgs(image, os, version, metadataPath), k) ==
              if k == MetadataFile then [metadataPath]
              else if k == BuildArg then [VersionArg + version + "'"]
              else if k == Progress then ["plain"]
              else if k == File then [PathJoin(image.fullPath, DockerfilePrefix + os)]
              else []
  {
    BuildPieces(image, push, bucketPrefix, os, tag, version, tempPath, arch, k);
    ChoiceValues(image.repo, push, k);
    BuildxValues(bucketPrefix, arch, k);
    LocalValues(image.repo, tag, arch, push, k);
    TailValues(image, os, version, PathJoin(tempPath, tag + "-" + arch.Name()), k);
  }

  /** The bare words of a build: the command, then the build context. */
  lemma {:induction false} BuildWords(image: DockerImage, push: bool, bucketPrefix: string, os: string,
                                      tag: string, version: string, tempPath: string, arch: Arch)
    ensures Words(BuildArgs(image, push, bucketPrefix, os, tag, version, tempPath, arch))
            == ["docker", "buildx", "build", image.fullPath]
  {
    var args := BuildArgs(image, push, bucketPrefix, os, tag, version, tempPath, arch);
    var c := Words(PushChoice(image.repo, push));
    var b := Words(BuildxArgs(bucketPrefix, arch));
    var l := Words(LocalTag(image.repo, tag, arch, push));
    var t := Words(TailArgs(image, os, version, PathJoin(tempPath, tag + "-" + arch.Name())));
    assert Words(args) == ["docker", "buildx", "build"] + c + b + l + t &&
           c == [] && b == [] && l == [] && t == [image.fullPath] by {
      BuildPieces(image, push, bucketPrefix, os, tag, version, tempPath, arch, Tag);
      ChoiceValues(image.repo, push, Tag);
      BuildxValues(bucketPrefix, arch, Tag);
      LocalValues(image.repo, tag, arch, push, Tag);
      TailValues(image, os, version, PathJoin(tempPath, tag + "-" + arch.Name()), Tag);
    }
    TwoOf(Words(args), [], ["docker", "buildx", "build"] + c + b + l, [], t);
    assert ["docker", "buildx", "build"] + c + b + l == ["docker", "buildx", "build"];
  }

  /** The build context is the last argument of a build. */
  lemma ContextLast(image: DockerImage, push: bool, bucketPrefix: string, os: string,
                    tag: string, version: string, tempPath: string, arch: Arch)
    ensures var args := BuildArgs(image, push, bucketPrefix, os, tag, version, tempPath, arch);
            |args| >= 1 && args[|args| - 1] == Word(image.fullPath)
  {
  }

  /** Four pieces of which only the one at position `at` contributes:
      their concatenation is that piece. */
  lemma OnlyOne(v: seq<string>, a: seq<string>, b: seq<string>, c: seq<string>, d: seq<string>,
                at: nat, r: seq<string>)
    requires v == [] + a + b + c + d
    requires a == (if at == 0 then r else []) && b == (if at == 1 then r else [])
    requires c == (if at == 2 then r else []) && d == (if at == 3 then r else [])
    requires at < 4
    ensures v == r
  {
  }

  /** Four pieces of which the first and third are empty: their
      concatenation is the second followed by the fourth. */
  lemma TwoOf(v: seq<string>, a: seq<string>, b: seq<string>, c: seq<string>, d: seq<string>)
    requires v == [] + a + b + c + d
    requires a == [] && c == []
    ensures v == b + d
  {
  }

  /** The `--tag=` of a build: the bare repository when pushing (the
      image is pushed by digest), the architecture's image name when
      loading locally; never both. */
  lemma {:induction false} BuildTagOption(image: DockerImage, push: bool, bucketPrefix: string, os: string,
                                tag: string, version: string, tempPath: string, arch: Arch)
    ensures Values(BuildArgs(image, push, bucketPrefix, os, tag, version, tempPath, arch), Tag)
            == [if push then image.repo else ArchRef(image.repo, tag, arch)]
  {
    var args := BuildArgs(image, push, bucketPrefix, os, tag, version, tempPath, arch);
    var c := Values(PushChoice(image.repo, push), Tag);
    var b := Values(BuildxArgs(bucketPrefix, arch), Tag);
    var l := Values(LocalTag(image.repo, tag, arch, push), Tag);
    var t := Values(TailArgs(image, os, version, PathJoin(tempPath, tag + "-" + arch.Name())), Tag);
    assert Values(args, Tag) == [] + c + b + l + t &&
           c == (if push then [image.repo] else []) && b == [] && l == (if push then [] else [ArchRef(image.repo, tag, arch)]) && t == [] by {
      KeyValues(image, push, bucketPrefix, os, tag, version, tempPath, arch, Tag);
    }
    OnlyOne(Values(args, Tag), c, b, l, t, if push then 0 else 2, [if push then image.repo else ArchRef(image.repo, tag, arch)]);
  }

  /** The one `--output=` of a build: push by digest, or load into the
      local image store. */
  lemma {:induction false} BuildOutputOption(image: DockerImage, push: bool, bucketPrefix: string, os: string,
                                tag: string, version: string, tempPath: string, arch: Arch)
    ensures Values(BuildArgs(image, push, bucketPrefix, os, tag, version, tempPath, arch), Output)
            == [if push then DigestOutput else DockerOutput]
  {
    var args := BuildArgs(image, push, bucketPrefix, os, tag, version, tempPath, arch);
    var c := Values(PushChoice(image.repo, push), Output);
    var b := Values(BuildxArgs(bucketPrefix, arch), Output);
    var l := Values(LocalTag(image.repo, tag, arch, push), Output);
    var t := Values(TailArgs(image, os, version, PathJoin(tempPath, tag + "-" + arch.Name())), Output);
    assert Values(args, Output) == [] + c + b + l + t &&
           c == [if push then DigestOutput else DockerOutput] && b == [] && l == [] && t == [] by {
      KeyValues(image, push, bucketPrefix, os, tag, version, tempPath, arch, Output);
    }
    OnlyOne(Values(args, Output), c, b, l, t, 0, [if push then DigestOutput else DockerOutput]);
  }

  /** A build carries `--push` exactly when pushing, and then once. */
  lemma {:induction false} BuildPushOption(image: DockerImage, push: bool, bucketPrefix: string, os: string,
                                tag: string, version: string, tempPath: string, arch: Arch)
    ensures Values(BuildArgs(image, push, bucketPrefix, os, tag, version, tempPath, arch), Push)
            == if push then [""] else []
  {
    var args := BuildArgs(image, push, bucketPrefix, os, tag, version, tempPath, arch);
    var c := Values(PushChoice(image.repo, push), Push);
    var b := Values(BuildxArgs(bucketPrefix, arch), Push);
    var l := Values(LocalTag(image.repo, tag, arch, push), Push);
    var t := Values(TailArgs(image, os, version, PathJoin(tempPath, tag + "-" + arch.Name())), Push);
    assert Values(args, Push) == [] + c + b + l + t &&
           c == (if push then [""] else []) && b == [] && l == [] && t == [] by {
      KeyValues(image, push, bucketPrefix, os, tag, version, tempPath, arch, Push);
    }
    OnlyOne(Values(args, Push), c, b, l, t, 0, if push then [""] else []);
  }

  /** A build carries exactly one `--platform=`, that of its architecture. */
  lemma {:induction false} BuildPlatformOption(image: DockerImage, push: bool, bucketPrefix: string, os: string,
                                tag: string, version: string, tempPath: string, arch: Arch)
    ensures Values(BuildArgs(image, push, bucketPrefix, os, tag, version, tempPath, arch), Platform)
            == ["linux/" + arch.Name()]
  {
    var args := BuildArgs(image, push, bucketPrefix, os, tag, version, tempPath, arch);
    var c := Values(PushChoice(image.repo, push), Platform);
    var b := Values(BuildxArgs(bucketPrefix, arch), Platform);
    var l := Values(LocalTag(image.repo, tag, arch, push), Platform);
    var t := Values(TailArgs(image, os, version, PathJoin(tempPath, tag + "-" + arch.Name())), Platform);
    assert Values(args, Platform) == [] + c + b + l + t &&
           c == [] && b == ["linux/" + arch.Name()] && l == [] && t == [] by {
      KeyValues(image, push, bucketPrefix, os, tag, version, tempPath, arch, Platform);
    }
    OnlyOne(Values(args, Platform), c, b, l, t, 1, ["linux/" + arch.Name()]);
  }

  /** The build arguments of a build: the package repository twice when a
      bucket prefix is set, then the version. */
  lemma {:induction false} BuildArgOptions(image: DockerImage, push: bool, bucketPrefix: string, os: string,
                                tag: string, version: string, tempPath: string, arch: Arch)
    ensures Values(BuildArgs(image, push, bucketPrefix, os, tag, version, tempPath, arch), BuildArg)
            == (if bucketPrefix == "" then []
                else [RepositoryArg + BucketUrl(bucketPrefix, arch) + "'",
                      DebLocationArg + BucketUrl(bucketPrefix, arch) + "'"]) +
               [VersionArg + version + "'"]
  {
    var args := BuildArgs(image, push, bucketPrefix, os, tag, version, tempPath, arch);
    var c := Values(PushChoice(image.repo, push), BuildArg);
    var b := Values(BuildxArgs(bucketPrefix, arch), BuildArg);
    var l := Values(LocalTag(image.repo, tag, arch, push), BuildArg);
    var t := Values(TailArgs(image, os, version, PathJoin(tempPath, tag + "-" + arch.Name())), BuildArg);
    assert Values(args, BuildArg) == [] + c + b + l + t &&
           c == [] && l == [] && t == [VersionArg + version + "'"] &&
           b == (if bucketPrefix == "" then []
                 else [RepositoryArg + BucketUrl(bucketPrefix, arch) + "'",
                       DebLocationArg + BucketUrl(bucketPrefix, arch) + "'"]) by {
      KeyValues(image, push, bucketPrefix, os, tag, version, tempPath, arch, BuildArg);
    }
    TwoOf(Values(args, BuildArg), c, b, l, t);
  }

  /** The metadata file of a build is named after the architecture's tag
      under the scratch directory. */
  lemma {:induction false} BuildMetadataOption(image: DockerImage, push: bool, bucketPrefix: string, os: string,
                                tag: string, version: string, tempPath: string, arch: Arch)
    ensures Values(BuildArgs(image, push, bucketPrefix, os, tag, version, tempPath, arch), MetadataFile)
            == [PathJoin(tempPath, tag + "-" + arch.Name())]
  {
    var args := BuildArgs(image, push, bucketPrefix, os, tag, version, tempPath, arch);
    var c := Values(PushChoice(image.repo, push), MetadataFile);
    var b := Values(BuildxArgs(bucketPrefix, arch), MetadataFile);
    var l := Values(LocalTag(image.repo, tag, arch, push), MetadataFile);
    var t := Values(TailArgs(image, os, version, PathJoin(tempPath, tag + "-" + arch.Name())), MetadataFile);
    assert Values(args, MetadataFile) == [] + c + b + l + t &&
           c == [] && b == [] && l == [] && t == [PathJoin(tempPath, tag + "-" + arch.Name())] by {
      KeyValues(image, push, bucketPrefix, os, tag, version, tempPath, arch, MetadataFile);
    }
    OnlyOne(Values(args, MetadataFile), c, b, l, t, 3, [PathJoin(tempPath, tag + "-" + arch.Name())]);
  }

  /** A build reads the Dockerfile of its OS from the image directory. */
  lemma {:induction false} BuildDockerfileOption(image: DockerImage, push: bool, bucketPrefix: string, os: string,
                                tag: string, version: string, tempPath: string, arch: Arch)
    ensures Values(BuildArgs(image, push, bucketPrefix, os, tag, version, tempPath, arch), File)
            == [PathJoin(image.fullPath, DockerfilePrefix + os)]
  {
    var args := BuildArgs(image, push, bucketPrefix, os, tag, version, tempPath, arch);
    var c := Values(PushChoice(image.repo, push), File);
    var b := Values(BuildxArgs(bucketPrefix, arch), File);
    var l := Values(LocalTag(image.repo, tag, arch, push), File);
    var t := Values(TailArgs(image, os, version, PathJoin(tempPath, tag + "-" + arch.Name())), File);
    assert Values(args, File) == [] + c + b + l + t &&
           c == [] && b == [] && l == [] && t == [PathJoin(image.fullPath, DockerfilePrefix + os)] by {
      KeyValues(image, push, bucketPrefix, os, tag, version, tempPath, arch, File);
    }
    OnlyOne(Values(args, File), c, b, l, t, 3, [PathJoin(image.fullPath, DockerfilePrefix + os)]);
  }

  /** A build asks for plain progress output. */
  lemma {:induction false} BuildProgressOption(image: DockerImage, push: bool, bucketPrefix: string, os: string,
                                tag: string, version: string, tempPath: string, arch: Arch)
    ensures Values(BuildArgs(image, push, bucketPrefix, os, tag, version, tempPath, arch), Progress)
            == ["plain"]
  {
    var args := BuildArgs(image, push, bucketPrefix, os, tag, version, tempPath, arch);
    var c := Values(PushChoice(image.repo, push), Progress);
    var b := Values(BuildxArgs(bucketPrefix, arch), Progress);
    var l := Values(LocalTag(image.repo, tag, arch, push), Progress);
    var t := Values(TailArgs(image, os, version, PathJoin(tempPath, tag + "-" + arch.Name())), Progress);
    assert Values(args, Progress) == [] + c + b + l + t &&
           c == [] && b == [] && l == [] && t == ["plain"] by {
      KeyValues(image, push, bucketPrefix, os, tag, version, tempPath, arch, Progress);
    }
    OnlyOne(Values(args, Progress), c, b, l, t, 3, ["plain"]);
  }

  /** The argument list of the merge: the merged tag, then the digests. */
  function MergeArgs(repo: string, tag: string, digests: seq<string>): seq<string>
  {
    ["docker", "buildx", "imagetools", "create", "--tag", MergedRef(repo, tag)] + digests
  }

  /** The position in `Buckets` of the first architecture at or after `i`
      whose build fails, or `|Buckets|` when none does. */
  function FirstFailureFrom(buildExit: Arch -> int, i: nat): (k: nat)
    requires i <= |Buckets|
    ensures i <= k <= |Buckets|
    ensures forall j :: i <= j < k ==> buildExit(Buckets[j]) == 0
    ensures k < |Buckets| ==> buildExit(Buckets[k]) != 0
    decreases |Buckets| - i
  {
    if i == |Buckets| || buildExit(Buckets[i]) != 0 then i
    else FirstFailureFrom(buildExit, i + 1)
  }

  /** The position of the first failing build, `|Buckets|` if none fails. */
  function FirstFailure(buildExit: Arch -> int): (k: nat)
    ensures k <= |Buckets|
    ensures forall j :: 0 <= j < k ==> buildExit(Buckets[j]) == 0
    ensures k < |Buckets| ==> buildExit(Buckets[k]) != 0
  {
    FirstFailureFrom(buildExit, 0)
  }

  /** The digests of all architectures, in `Buckets` order. */
  function Digests(env: Env): (ds: seq<string>)
    ensures |ds| == |Buckets|
    ensures forall j :: 0 <= j < |Buckets| ==> ds[j] == env.digest(Buckets[j])
  {
    seq(|Buckets|, j requires 0 <= j < |Buckets| => env.digest(Buckets[j]))
  }

  /** The OK entries of the first `n` architectures. */
  function OkResults(repo: string, tag: string, n: nat): (r: seq<BuildResult>)
    requires n <= |Buckets|
    ensures |r| == n
    ensures forall j :: 0 <= j < n ==> r[j] == BuildResult(ArchRef(repo, tag, Buckets[j]), OK)
  {
    seq(n, j requires 0 <= j < n => BuildResult(ArchRef(repo, tag, Buckets[j]), OK))
  }

  /** The builds of the first `n` architectures. */
  function BuildRuns(image: DockerImage, push: bool, bucketPrefix: string, os: string,
                     tag: string, version: string, tempPath: string, n: nat): (r: seq<Run>)
    requires n <= |Buckets|
    ensures |r| == n
    ensures forall j :: 0 <= j < n ==>
              r[j] == Build(Buckets[j], BuildArgs(image, push, bucketPrefix, os, tag, version, tempPath, Buckets[j]))
  {
    seq(n, j requires 0 <= j < n =>
      Build(Buckets[j], BuildArgs(image, push, bucketPrefix, os, tag, version, tempPath, Buckets[j])))
  }

  lemma DigestsStep(env: Env, n: nat)
    requires n < |Buckets|
    ensures Digests(env)[..n + 1] == Digests(env)[..n] + [env.digest(Buckets[n])]
  {
    var ds := Digests(env);
    assert ds[..n + 1] == ds[..n] + [ds[n]];
  }

  lemma OkResultsStep(repo: string, tag: string, n: nat)
    requires n < |Buckets|
    ensures OkResults(repo, tag, n + 1) == OkResults(repo, tag, n) + [BuildResult(ArchRef(repo, tag, Buckets[n]), OK)]
  {
  }

  lemma BuildRunsStep(image: DockerImage, push: bool, bucketPrefix: string, os: string,
                      tag: string, version: string, tempPath: string, n: nat)
    requires n < |Buckets|
    ensures BuildRuns(image, push, bucketPrefix, os, tag, version, tempPath, n + 1)
            == BuildRuns(image, push, bucketPrefix, os, tag, version, tempPath, n) +
               [Build(Buckets[n], BuildArgs(image, push, bucketPrefix, os, tag, version, tempPath, Buckets[n]))]
  {
  }

  /** The result list of one (OS, tag) pair, `tag` being the effective tag:
      an OK entry per architecture up to the first failing build, then a
      FAIL for that build; if none fails, a FAIL for the merge only when it
      ran and failed. */
  function ExpectedResults(repo: string, tag: string, push: bool, env: Env): seq<BuildResult>
  {
    var k := FirstFailure(env.buildExit);
    OkResults(repo, tag, k) +
    if k < |Buckets| then [BuildResult(ArchRef(repo, tag, Buckets[k]), FAIL)]
    else if push && env.mergeExit != 0 then [BuildResult(MergedRef(repo, tag), FAIL)]
    else []
  }

  /** The processes one (OS, tag) pair starts: the builds up to and
      including the first failing one, then the merge when pushing and no
      build failed. */
  function ExpectedRuns(image: DockerImage, push: bool, bucketPrefix: string, os: string,
                        tag: string, version: string, env: Env): seq<Run>
  {
    var k := FirstFailure(env.buildExit);
    var built := if k < |Buckets| then k + 1 else k;
    BuildRuns(image, push, bucketPrefix, os, tag, version, env.tempPath, built) +
    if k == |Buckets| && push then [Merge(MergeArgs(image.repo, tag, Digests(env)))] else []
  }

  /** Fail-fast: when the build of the architecture at position `k` is the
      first to fail, the results are OK for every earlier architecture and
      one FAIL for that one; only the builds up to `k` run, and no merge. */
  lemma BuildFailureStops(image: DockerImage, push: bool, bucketPrefix: string, os: string,
                          tag: string, version: string, env: Env, k: nat)
    requires k < |Buckets|
    requires forall j :: 0 <= j < k ==> env.buildExit(Buckets[j]) == 0
    requires env.buildExit(Buckets[k]) != 0
    ensures ExpectedResults(image.repo, tag, push, env)
            == OkResults(image.repo, tag, k) + [BuildResult(ArchRef(image.repo, tag, Buckets[k]), FAIL)]
    ensures ExpectedRuns(image, push, bucketPrefix, os, tag, version, env)
            == BuildRuns(image, push, bucketPrefix, os, tag, version, env.tempPath, k + 1)
  {
    assert FirstFailure(env.buildExit) == k;
  }

  /** When every build succeeds the results are all OK, followed by one FAIL
      only if the merge ran (pushing) and failed; the runs are all builds,
      followed when pushing by one merge of every digest in `Buckets` order. */
  lemma AllBuildsSucceed(image: DockerImage, push: bool, bucketPrefix: string, os: string,
                         tag: string, version: string, env: Env)
    requires forall j :: 0 <= j < |Buckets| ==> env.buildExit(Buckets[j]) == 0
    ensures ExpectedResults(image.repo, tag, push, env)
            == OkResults(image.repo, tag, |Buckets|) +
               if push && env.mergeExit != 0 then [BuildResult(MergedRef(image.repo, tag), FAIL)] else []
    ensures ExpectedRuns(image, push, bucketPrefix, os, tag, version, env)
            == BuildRuns(image, push, bucketPrefix, os, tag, version, env.tempPath, |Buckets|) +
               if push then [Merge(MergeArgs(image.repo, tag, Digests(env)))] else []
  {
    assert FirstFailure(env.buildExit) == |Buckets|;
  }

  /** The merge runs exactly when pushing and every build succeeded; it is
      then the last process and names one digest per architecture, in
      `Buckets` order. */
  lemma {:induction false} MergeOnlyAfterAllBuilds(image: DockerImage, push: bool, bucketPrefix: string, os: string,
                                                   tag: string, version: string, env: Env)
    ensures var runs := ExpectedRuns(image, push, bucketPrefix, os, tag, version, env);
            ((exists i :: 0 <= i < |runs| && runs[i].Merge?) <==>
               push && forall j :: 0 <= j < |Buckets| ==> env.buildExit(Buckets[j]) == 0) &&
            (forall i :: 0 <= i < |runs| && runs[i].Merge? ==>
               i == |runs| - 1 == |Buckets| &&
               runs[i].command == MergeArgs(image.repo, tag, Digests(env)))
  {
    var runs := ExpectedRuns(image, push, bucketPrefix, os, tag, version, env);
    var k := FirstFailure(env.buildExit);
    if k < |Buckets| {
      BuildFailureStops(image, push, bucketPrefix, os, tag, version, env, k);
      assert forall i :: 0 <= i < |runs| ==> runs[i].Build?;
    } else {
      AllBuildsSucceed(image, push, bucketPrefix, os, tag, version, env);
      if push {
        assert runs[|Buckets|].Merge?;
      }
    }
  }

  /** Every result entry names `{repo}:{tag}-{arch}` or `{repo}:{tag}`;
      there is at most one FAIL and it comes last; and the results are all
      OK exactly when every build succeeded and no merge failed. */
  lemma {:induction false} ResultEntries(repo: string, tag: string, push: bool, env: Env)
    ensures var r := ExpectedResults(repo, tag, push, env);
            1 <= |r| <= |Buckets| + 1 &&
            (forall i :: 0 <= i < |r| ==>
               r[i].image == MergedRef(repo, tag) || exists a: Arch :: r[i].image == ArchRef(repo, tag, a)) &&
            (forall i :: 0 <= i < |r| - 1 ==> r[i].status == OK) &&
            ((forall i :: 0 <= i < |r| ==> r[i].status == OK) <==>
               (forall j :: 0 <= j < |Buckets| ==> env.buildExit(Buckets[j]) == 0) && !(push && env.mergeExit != 0))
  {
    var r := ExpectedResults(repo, tag, push, env);
    var k := FirstFailure(env.buildExit);
    assert forall i :: 0 <= i < k ==> r[i].image == ArchRef(repo, tag, Buckets[i]);
    if k < |Buckets| {
      assert r[k].image == ArchRef(repo, tag, Buckets[k]);
      assert r[k].status == FAIL;
    } else if push && env.mergeExit != 0 {
      assert r[k].status == FAIL;
    }
  }

  /** `build_and_push_image`: builds each architecture in `Buckets` order,
      stops at the first failing build, and merges the digests when pushing. */
  method BuildAndPushImage(image: DockerImage, push: bool, bucketPrefix: string, os: string,
                           tag: string, version: string, env: Env)
    returns (result: seq<BuildResult>, runs: seq<Run>)
    ensures result == ExpectedResults(image.repo, EffectiveTag(os, tag), push, env)
    ensures runs == ExpectedRuns(image, push, bucketPrefix, os, EffectiveTag(os, tag), version, env)
  {
    result := [];
    runs := [];
    var tag' := EffectiveTag(os, tag);
    var digests: seq<string> := [];
    for i := 0 to |Buckets|
      invariant forall j :: 0 <= j < i ==> env.buildExit(Buckets[j]) == 0
      invariant result == OkResults(image.repo, tag', i)
      invariant runs == BuildRuns(image, push, bucketPrefix, os, tag', version, env.tempPath, i)
      invariant digests == Digests(env)[..i]
    {
      var arch := Buckets[i];
      var cmdArgs := BuildArgs(image, push, bucketPrefix, os, tag', version, env.tempPath, arch);
      runs := runs + [Build(arch, cmdArgs)];
      BuildRunsStep(image, push, bucketPrefix, os, tag', version, env.tempPath, i);
      if env.buildExit(arch) != 0 {
        result := result + [BuildResult(ArchRef(image.repo, tag', arch), FAIL)];
        BuildFailureStops(image, push, bucketPrefix, os, tag', version, env, i);
        return;
      }
      result := result + [BuildResult(ArchRef(image.repo, tag', arch), OK)];
      OkResultsStep(image.repo, tag', i);
      digests := digests + [env.digest(arch)];
      DigestsStep(env, i);
    }
    AllBuildsSucceed(image, push, bucketPrefix, os, tag', version, env);
    assert digests == Digests(env);
    if push {
      runs := runs + [Merge(MergeArgs(image.repo, tag', digests))];
      if env.mergeExit != 0 {
        result := result + [BuildResult(MergedRef(image.repo, tag'), FAIL)];
      }
    }
  }
}
