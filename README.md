# Server image build script — Dafny model

This project models the core of the CI script that builds the ClickHouse
server Docker image (`tests/ci/docker_server.py`). It covers four parts:

- **Tag policy** (`gen_tags`, module `TagPolicy`). A version such as
  `22.2.2.2` and a release type (`latest`, `major`, `minor`, `patch`,
  `head`) give an ordered list of image tags. Each tag is a dot-joined
  prefix of the version. Any other release type is an error. A pure
  function `GenTagsSpec` states the tags. The method `GenTags` mirrors the
  script's loops and is proved equal to it.
- **Build and merge bookkeeping** (`build_and_push_image`, module
  `BuildOrchestrator`).
  - The architectures are built one by one, in the order of `BUCKETS`
    (amd64, then arm64).
  - Each build records OK and collects the image digest, or records FAIL
    and stops at once.
  - When pushing and every build succeeded, one merge step combines the
    digests. Only a failed merge adds a result entry.
  - The method `BuildAndPushImage` returns the result list and the
    processes it would start, each given as its argument list. Both are
    proved equal to specification functions.
  - The exit codes of the processes and the digest in each metadata file
    are inputs (`Env`).
- **Build arguments** (`buildx_args` and the per-architecture command).
  Each argument is a bare word or an option with a key and a value
  (`Arg`). Lemmas state which values each option takes in a build
  command.
- **OS flags** (`DelOS.__call__`, module `OsFlags`). `--no-ubuntu` and
  `--no-alpine` remove one OS, in place, from the namespace's list of OSes
  to build.

The module `PyStrings` models the Python string operations these parts
use:

- `str.split` on one separator character;
- `str.join`;
- POSIX `os.path.join` of two components.

## Model

| member | source | states |
|---|---|---|
| `PyStrings.Split` | tests/ci/docker_server.py:210 | `version.split(".")` yields one part more than there are separators, and no part contains the separator |
| `PyStrings.JoinSplit` | tests/ci/docker_server.py:210 | joining the parts of a split with the same separator gives back the original string |
| `PyStrings.SplitJoin` | tests/ci/docker_server.py:210 | splitting the join of a non-empty list of separator-free parts gives back that list |
| `PyStrings.JoinCut` | tests/ci/docker_server.py:215 | the join of a list is the join of its first `k` parts, one separator, then the join of the rest |
| `PyStrings.PathJoinJunction` | tests/ci/docker_server.py:181 | `p.join(a, b)`: an absolute `b` replaces `a`; otherwise the result is all of `a`, then `b` (just `b` when `a` is empty), and for a non-empty `a` a `/` stands right before `b`: `a`'s own last `/` when it ends in one (result length `\|a\| + \|b\|`), else a new one (length `\|a\| + 1 + \|b\|`) |
| `PyStrings.PathJoinRelative` | tests/ci/docker_server.py:181 | joining a non-empty directory and a relative name keeps the directory whole and puts a `/` right before the name; a new `/` is added (one character longer) exactly when the directory does not already end in `/` |
| `TagPolicy.Parts` | tests/ci/docker_server.py:210 | a version always has at least one dot-part |
| `TagPolicy.PrefixTagsAreDotPrefixes` | tests/ci/docker_server.py:214-224 | for any loop start, each appended tag followed by `.` begins every later tag and the join of all the parts, and the tags grow strictly in length |
| `TagPolicy.GenTagsSpec` | tests/ci/docker_server.py:187-229 | the result is an error exactly when the release type is not one of the five words, and the error names that word; `head` gives exactly `["head"]` for any version |
| `TagPolicy.AppendPrefixTags` | tests/ci/docker_server.py:214-215 | one `for` loop appends, in order, the tag of each prefix longer than `start` parts |
| `TagPolicy.GenTags` | tests/ci/docker_server.py:210-229 | the loops produce exactly the tags of the specification, or its error |
| `TagPolicy.MajorTags` | tests/ci/docker_server.py:216-218 | `major` gives one tag per part; tag `i` is the first `i + 1` parts joined with `.`; the last tag is the version itself |
| `TagPolicy.LatestIsLatestThenMajor` | tests/ci/docker_server.py:212-218 | `latest` is `"latest"` followed by exactly the `major` tags |
| `TagPolicy.MinorPatchDropFromMajor` | tests/ci/docker_server.py:219-224 | `minor` is the `major` list without its first tag, so prefixes of 2..n parts; `patch` is the list without its first two tags, so prefixes of 3..n parts |
| `TagPolicy.MajorTagsAreDotPrefixes` | tests/ci/docker_server.py:216-218 | for `i < j`, `major` tag `i` followed by `.` is a prefix of tag `j` and of the version, and tag `i` is strictly shorter than tag `j` |
| `TagPolicy.ExampleParts` | tests/ci/docker_server.py:188-210 | `22.2.2.2` splits into `["22", "2", "2", "2"]` |
| `TagPolicy.ExampleMajor` | tests/ci/docker_server.py:195-199 | `22.2.2.2` with `major` gives `22`, `22.2`, `22.2.2`, `22.2.2.2` |
| `TagPolicy.ExampleLatest` | tests/ci/docker_server.py:189-194 | `22.2.2.2` with `latest` gives `latest`, `22`, `22.2`, `22.2.2`, `22.2.2.2` |
| `TagPolicy.ExampleMinorPatch` | tests/ci/docker_server.py:200-206 | `22.2.2.2` with `minor` gives `22.2`, `22.2.2`, `22.2.2.2`; with `patch` it gives `22.2.2`, `22.2.2.2` |
| `BuildOrchestrator.EffectiveTag` | tests/ci/docker_server.py:102-103 | the tag is kept exactly when the OS is `ubuntu`; otherwise it is extended by `-{os}` |
| `BuildOrchestrator.BucketUrl` | tests/ci/docker_server.py:181 | the package URL starts with the whole bucket prefix and ends with `/` and the architecture's bucket; a trailing `/` of the prefix is reused, otherwise exactly one `/` is added between them |
| `BuildOrchestrator.BucketUrlDetermined` | tests/ci/docker_server.py:181 | the facts `BucketUrl` promises leave only one URL possible, so they describe the join completely |
| `BuildOrchestrator.BuildxArgs` | tests/ci/docker_server.py:178-184 | the first argument is `--platform=linux/{arch}`; without a bucket prefix there is one argument; with one there are three, and both build-args carry the same URL |
| `BuildOrchestrator.InitArgTexts` | tests/ci/docker_server.py:104-110 | spelt out, every build starts `docker buildx build`, then `--push --output=type=image,push-by-digest=true --tag={repo}` when pushing, else `--output=type=docker` |
| `BuildOrchestrator.BuildxArgTexts` | tests/ci/docker_server.py:179-183 | spelt out, `buildx_args` gives `--platform=linux/{arch}` and, with a bucket prefix, `--build-arg=REPOSITORY='{url}'` and `--build-arg=deb_location_url='{url}'` |
| `BuildOrchestrator.BuildWords` | tests/ci/docker_server.py:104-131 | the bare words of every build command are `docker buildx build` followed by the build context (the image path) |
| `BuildOrchestrator.ContextLast` | tests/ci/docker_server.py:123-131 | the build context is the last argument of every build command |
| `BuildOrchestrator.BuildTagOption` | tests/ci/docker_server.py:105-122 | a build has exactly one `--tag`: the bare repository when pushing, `{repo}:{tag}-{arch}` otherwise |
| `BuildOrchestrator.BuildOutputOption` | tests/ci/docker_server.py:105-110 | a build has exactly one `--output`: push by digest when pushing, the local docker store otherwise |
| `BuildOrchestrator.BuildPushOption` | tests/ci/docker_server.py:105-106 | `--push` appears once when pushing and never otherwise |
| `BuildOrchestrator.BuildPlatformOption` | tests/ci/docker_server.py:178-179 | a build has exactly one `--platform`, `linux/{arch}` |
| `BuildOrchestrator.BuildArgOptions` | tests/ci/docker_server.py:120-126 | the build-args are the `REPOSITORY` and `deb_location_url` URLs (only with a bucket prefix), then `VERSION`, in that order |
| `BuildOrchestrator.BuildMetadataOption` | tests/ci/docker_server.py:116-125 | a build has exactly one `--metadata-file`: the scratch directory joined with `{tag}-{arch}` |
| `BuildOrchestrator.BuildDockerfileOption` | tests/ci/docker_server.py:118-128 | a build has exactly one `--file`: the image path joined with `Dockerfile.{os}` |
| `BuildOrchestrator.BuildProgressOption` | tests/ci/docker_server.py:127 | a build has exactly one `--progress`, `plain` |
| `BuildOrchestrator.FirstFailure` | tests/ci/docker_server.py:144-146 | the position in `BUCKETS` order of the first failing build: every earlier build succeeded, and the build at that position failed if it is in range |
| `BuildOrchestrator.Digests` | tests/ci/docker_server.py:148-150 | one digest per architecture, in `BUCKETS` order |
| `BuildOrchestrator.BuildFailureStops` | tests/ci/docker_server.py:115-147 | when the build at position `k` is the first to fail, the results are OK for each earlier architecture and one FAIL for `k`; only builds `0..k` run, and no merge runs |
| `BuildOrchestrator.AllBuildsSucceed` | tests/ci/docker_server.py:147-168 | when every build succeeds, all results are OK, plus one FAIL only if the merge ran (pushing) and failed; every build runs, followed when pushing by one merge of all the digests |
| `BuildOrchestrator.MergeOnlyAfterAllBuilds` | tests/ci/docker_server.py:151-155 | a merge runs exactly when pushing and every build succeeded; it is then the last process and names one digest per architecture, in `BUCKETS` order |
| `BuildOrchestrator.ResultEntries` | tests/ci/docker_server.py:145-168 | every entry names `{repo}:{tag}-{arch}` or `{repo}:{tag}`; there are 1 to `\|BUCKETS\| + 1` entries; only the last can be FAIL; all are OK exactly when every build succeeded and no merge failed |
| `BuildOrchestrator.BuildAndPushImage` | tests/ci/docker_server.py:98-175 | the result list and the processes started are those of the specification, for the effective tag |
| `OsFlags.NoBuild` | tests/ci/docker_server.py:22 | the OS is the destination without a leading `no_`, or the whole destination when it has none |
| `OsFlags.FirstIndex` | tests/ci/docker_server.py:23-24 | the position of the first occurrence; it equals the length exactly when the OS is not listed |
| `OsFlags.RemoveAbsent` | tests/ci/docker_server.py:23 | an OS that is not listed leaves the list unchanged |
| `OsFlags.RemovePresent` | tests/ci/docker_server.py:24 | a listed OS loses exactly one occurrence, its first; the list shrinks by one and every other entry keeps its multiplicity and order |
| `OsFlags.RemoveFromDistinct` | tests/ci/docker_server.py:23-24 | on a list without repeats the OS is gone afterwards, and giving the same flag again changes nothing |
| `OsFlags.DefaultFlags` | tests/ci/docker_server.py:79-92 | on the default list `ubuntu, alpine`, `--no-ubuntu` leaves `alpine` and `--no-alpine` leaves `ubuntu` |
| `OsFlags.DelOS.Call` | tests/ci/docker_server.py:20-24 | the namespace's OS list becomes that list with the first occurrence of the named OS removed |

## Left out

- Process execution is not modelled: the shell command string (`" ".join`), `subprocess.Popen`, streaming the output, and `docker login`. Build and merge commands are argument lists. `Arg.Text` gives each argument as it is spelt. `InitArgTexts` and `BuildxArgTexts` state the spelt-out push choice and `buildx_args`; the other options are stated by key and value. The exit codes are inputs.
- Reading and parsing the JSON metadata file is not modelled. The digest each file would hold is an input, `Env.digest`.
- The secret fetch from SSM, `version_arg`, `validate_version` and `get_version_from_repo` are left out. They are external I/O, or helpers not part of this model.
- The argparse wiring (`parse_args`) is left out. `OsFlags` models only the `DelOS` action, with its destinations `no_ubuntu` and `no_alpine` and the default OS list.
- The `main` driver is not modelled. It is plain iteration over OS × tags, and its results are discarded. `logging` and `makedirs` are left out too.
- `TEMP_PATH` (from `RUNNER_TEMP`) is an input, `Env.tempPath`.
- An unset bucket prefix (`None`) and the empty string are both falsy in `if bucket_prefix:`. Both are modelled as `""`.
- `BUCKETS[arch]` cannot raise `KeyError`, because `Arch` has only the two keys.
- `DockerImage` is a plain record of the two fields the script uses, `full_path` and `repo`.
- `BuildOrchestrator.BuildAndPushImage`: the early `return` inside the `with` block does not model closing the process.
