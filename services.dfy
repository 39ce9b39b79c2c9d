/**
 * Listing the builds of a service stage from the S3 "common prefixes" of the
 * account bucket.  A build pushed as `(sha1, timestamp)` is stored below
 * `builds/stages/{stage}/services/{service}/{sha1}/{timestamp}/`, next to its
 * `yolo.yaml`; listing with the delimiter `/yolo.yaml` returns one common
 * prefix per build, which is parsed back into the pair.
 *
 * The `list_objects_v2` call is an input: `commonPrefixes` is the
 * `CommonPrefixes` entry of its reply (None when the key is absent), each
 * element being the `Prefix` string.
 */
module Services {
  import opened Wrappers
  import opened Exceptions
  import opened Strings
  import opened Const

  datatype Build = Build(sha1: string, timestamp: string)

  /** The characters `str.strip(YOLO_YAML)` removes: a set, not the suffix. */
  const YOLO_YAML_CHARS: set<char> := {'y', 'o', 'l', '.', 'a', 'm'}

  lemma YoloYamlChars()
    ensures CharSet(YOLO_YAML) == YOLO_YAML_CHARS
  {
    assert YOLO_YAML == ['y', 'o', 'l', 'o', '.', 'y', 'a', 'm', 'l'];
  }

  /**
   * The S3 prefix searched: all builds of the stage's service, or the builds
   * of one version.
   */
  function BuildSearchPrefix(stage: string, service: string, version: Option<string>): (r: string)
    ensures version.None? ==> r == StageBuildsFolder(stage, service) + "/"
    ensures version.Some? ==> r == StageBuildByVersionFolder(stage, service, version.value)
    ensures version.Some? ==> r == StageBuildsFolder(stage, service) + "/" + version.value
    ensures |r| > 0
  {
    match version
    case None => StageBuildsFolder(stage, service) + "/"
    case Some(sha1) => StageBuildByVersionFolder(stage, service, sha1)
  }

  /**
   * One common prefix, listed without a version: strip the `yolo.yaml`
   * characters from both ends, take what follows the first occurrence of the
   * search prefix (`IndexError` if there is none) and split it on `/`; exactly
   * three parts make a build.
   */
  function ParseBuildPrefix(commonPrefix: string, searchPrefix: string): Result<Option<Build>, Error>
    requires |searchPrefix| > 0
  {
    var parts := Split(Strip(commonPrefix, CharSet(YOLO_YAML)), searchPrefix);
    if |parts| < 2 then Err(IndexError)
    else
      var details := Split(parts[1], "/");
      if |details| != 3 then Ok(None) else Ok(Some(Build(details[0], details[1])))
  }

  /** One common prefix, listed for a version: `rsplit('/', 3)` must give four parts. */
  function ParseVersionedPrefix(commonPrefix: string): Option<Build> {
    var details := RSplit(commonPrefix, '/', 3);
    if |details| != 4 then None else Some(Build(details[1], details[2]))
  }

  function ParseCommonPrefix(commonPrefix: string, searchPrefix: string, versioned: bool): Result<Option<Build>, Error>
    requires |searchPrefix| > 0
  {
    if versioned then Ok(ParseVersionedPrefix(commonPrefix))
    else ParseBuildPrefix(commonPrefix, searchPrefix)
  }

  /** The builds of the listed prefixes, in order; the first parse error aborts the listing. */
  function BuildsFrom(prefixes: seq<string>, searchPrefix: string, versioned: bool): Result<seq<Build>, Error>
    requires |searchPrefix| > 0
  {
    if prefixes == [] then Ok([])
    else match BuildsFrom(prefixes[..|prefixes| - 1], searchPrefix, versioned)
      case Err(e) => Err(e)
      case Ok(builds) =>
        match ParseCommonPrefix(prefixes[|prefixes| - 1], searchPrefix, versioned)
        case Err(e) => Err(e)
        case Ok(None) => Ok(builds)
        case Ok(Some(b)) => Ok(builds + [b])
  }

  /** `_get_builds_list`: the loop over the common prefixes of the listing. */
  method GetBuildsList(stage: string, service: string, version: Option<string>, commonPrefixes: Option<seq<string>>)
    returns (r: Result<seq<Build>, Error>)
    ensures var search := BuildSearchPrefix(stage, service, version);
      |search| > 0 && r == BuildsFrom(if commonPrefixes.Some? then commonPrefixes.value else [], search, version.Some?)
  {
    var search := BuildSearchPrefix(stage, service, version);
    var prefixes := if commonPrefixes.Some? then commonPrefixes.value else [];
    var builds: seq<Build> := [];
    var i := 0;
    while i < |prefixes|
      invariant i <= |prefixes|
      invariant BuildsFrom(prefixes[..i], search, version.Some?) == Ok(builds)
    {
      var commonPrefix := prefixes[i];
      assert prefixes[..i + 1][..i] == prefixes[..i];
      if version.None? {
        var parts := Split(Strip(commonPrefix, CharSet(YOLO_YAML)), search);
        if |parts| < 2 {
          assert ParseCommonPrefix(commonPrefix, search, version.Some?) == Err(IndexError);
          assert BuildsFrom(prefixes[..i + 1], search, version.Some?) == Err(IndexError);
          ErrorPersists(prefixes[..i + 1], prefixes[i + 1..], search, version.Some?);
          assert prefixes[..i + 1] + prefixes[i + 1..] == prefixes;
          return Err(IndexError);
        }
        var details := Split(parts[1], "/");
        if |details| == 3 {
          builds := builds + [Build(details[0], details[1])];
        }
      } else {
        var details := RSplit(commonPrefix, '/', 3);
        if |details| == 4 {
          builds := builds + [Build(details[1], details[2])];
        }
      }
      i := i + 1;
    }
    assert prefixes[..i] == prefixes;
    return Ok(builds);
  }

  /** Once a prefix fails to parse, the whole listing fails with that error. */
  lemma {:induction false} ErrorPersists(prefixes: seq<string>, more: seq<string>, searchPrefix: string, versioned: bool)
    requires |searchPrefix| > 0
    requires BuildsFrom(prefixes, searchPrefix, versioned).Err?
    ensures BuildsFrom(prefixes + more, searchPrefix, versioned) == BuildsFrom(prefixes, searchPrefix, versioned)
    decreases |more|
  {
    if more == [] {
      assert prefixes + more == prefixes;
    } else {
      var init := more[..|more| - 1];
      ErrorPersists(prefixes, init, searchPrefix, versioned);
      assert (prefixes + more)[..|prefixes + more| - 1] == prefixes + init;
    }
  }

  /** Each common prefix contributes at most one build. */
  lemma {:induction false} AtMostOneBuildPerPrefix(prefixes: seq<string>, searchPrefix: string, versioned: bool)
    requires |searchPrefix| > 0
    ensures BuildsFrom(prefixes, searchPrefix, versioned).Ok? ==>
      |BuildsFrom(prefixes, searchPrefix, versioned).value| <= |prefixes|
  {
    if prefixes != [] {
      AtMostOneBuildPerPrefix(prefixes[..|prefixes| - 1], searchPrefix, versioned);
    }
  }

  // ---------------------------------------------------------------------------
  // Parsing gives back what was pushed

  /** The common prefix S3 reports for a pushed build. */
  function BuildKey(stage: string, service: string, b: Build): string {
    StageBuildFolder(stage, service, b.sha1, b.timestamp) + "/" + YOLO_YAML
  }

  /** A build whose parts can be told apart in a key. */
  predicate WellFormed(b: Build) {
    '/' !in b.sha1 && '/' !in b.timestamp
  }

  lemma SlashesOfSlice(s: string, j: nat, n: nat)
    requires j + n <= |s|
    ensures multiset(s[j..j + n])['/'] <= multiset(s)['/']
  {
    assert s == s[..j] + s[j..j + n] + s[j + n..];
  }

  /** A string with fewer slashes than `p` cannot contain `p`. */
  lemma FewerSlashesNoOccurrence(s: string, p: string)
    requires multiset(s)['/'] < multiset(p)['/']
    ensures !Contains(s, p)
  {
    FindLeftmost(s, p);
    if Contains(s, p) {
      var j := Find(s, p).value;
      SlashesOfSlice(s, j, |p|);
    }
  }

  lemma ThreeSlashes(x: string, y: string, z: string, w: string)
    ensures multiset(x + "/" + y + "/" + z + "/" + w)['/'] >= 3
  {
  }

  lemma RegroupSearchPrefix(stage: string, service: string)
    ensures "builds/stages/" + stage + "/services/" + service + "/"
      == "builds" + "/" + "stages" + "/" + stage + "/" + ("services/" + service + "/")
  {
  }

  lemma SearchPrefixSlashes(stage: string, service: string)
    ensures multiset(BuildSearchPrefix(stage, service, None))['/'] >= 3
  {
    RegroupSearchPrefix(stage, service);
    ThreeSlashes("builds", "stages", stage, "services/" + service + "/");
  }

  /** A prefix followed by a tail that does not contain it splits into the empty string and the tail. */
  /** Splitting `a/b/` on `/` gives `a`, `b` and the empty string. */
  lemma SplitTwoSlashes(a: string, b: string)
    requires '/' !in a && '/' !in b
    ensures Split(a + "/" + b + "/", "/") == [a, b, ""]
  {
    JoinCons(b, [""], "/");
    assert [b] + [""] == [b, ""];
    JoinCons(a, [b, ""], "/");
    assert [a] + [b, ""] == [a, b, ""];
    assert Join([a, b, ""], "/") == a + "/" + b + "/";
    SplitJoinChar([a, b, ""], '/');
  }

  lemma TwoSlashes(a: string, b: string)
    requires '/' !in a && '/' !in b
    ensures multiset(a + "/" + b + "/")['/'] == 2
  {
    assert multiset(a)['/'] == 0 && multiset(b)['/'] == 0;
  }

  /** Stripping the `yolo.yaml` characters from a build key leaves its folder and trailing slash. */
  lemma StripBuildKey(stage: string, service: string, b: Build)
    ensures Strip(BuildKey(stage, service, b), CharSet(YOLO_YAML))
      == BuildSearchPrefix(stage, service, None) + (b.sha1 + "/" + b.timestamp + "/")
  {
    var m := BuildSearchPrefix(stage, service, None) + (b.sha1 + "/" + b.timestamp + "/");
    assert BuildKey(stage, service, b) == "" + m + YOLO_YAML;
    YoloYamlChars();
    assert m[0] == 'b';
    assert m[|m| - 1] == '/';
    StripBetween("", m, YOLO_YAML, CharSet(YOLO_YAML));
  }

  /** The search prefix occurs once in a stripped build key, at its start. */
  lemma SplitStrippedKey(stage: string, service: string, b: Build)
    requires WellFormed(b)
    ensures var rest := b.sha1 + "/" + b.timestamp + "/";
      Split(BuildSearchPrefix(stage, service, None) + rest, BuildSearchPrefix(stage, service, None)) == ["", rest]
  {
    var p := BuildSearchPrefix(stage, service, None);
    var rest := b.sha1 + "/" + b.timestamp + "/";
    SearchPrefixSlashes(stage, service);
    TwoSlashes(b.sha1, b.timestamp);
    FewerSlashesNoOccurrence(rest, p);
    SplitAfterPrefix(p, rest);
  }

  /** Without a version, the common prefix of a pushed build parses back to that build. */
  lemma ParseBuildKey(stage: string, service: string, b: Build)
    requires WellFormed(b)
    ensures ParseBuildPrefix(BuildKey(stage, service, b), BuildSearchPrefix(stage, service, None)) == Ok(Some(b))
  {
    StripBuildKey(stage, service, b);
    SplitStrippedKey(stage, service, b);
    SplitTwoSlashes(b.sha1, b.timestamp);
  }

  /** With a version, the common prefix of a pushed build parses back to that build. */
  lemma ParseVersionedBuildKey(stage: string, service: string, b: Build)
    requires WellFormed(b)
    ensures ParseVersionedPrefix(BuildKey(stage, service, b)) == Some(b)
  {
    var key := BuildKey(stage, service, b);
    assert key == StageBuildsFolder(stage, service) + "/" + b.sha1 + "/" + b.timestamp + "/" + YOLO_YAML;
    assert YOLO_YAML == ['y', 'o', 'l', 'o', '.', 'y', 'a', 'm', 'l'];
    RSplitThree(StageBuildsFolder(stage, service), b.sha1, b.timestamp, YOLO_YAML, '/');
  }

  /** The common prefix of a pushed build parses back to that build, with or without a version. */
  lemma ParseKey(stage: string, service: string, version: Option<string>, b: Build)
    requires WellFormed(b)
    ensures ParseCommonPrefix(BuildKey(stage, service, b), BuildSearchPrefix(stage, service, version), version.Some?) == Ok(Some(b))
  {
    if version.Some? {
      ParseVersionedBuildKey(stage, service, b);
    } else {
      ParseBuildKey(stage, service, b);
    }
  }

  /** Prefixes that each parse to a build list exactly those builds, in order. */
  lemma {:induction false} BuildsFromParsed(prefixes: seq<string>, searchPrefix: string, versioned: bool, builds: seq<Build>)
    requires |searchPrefix| > 0 && |prefixes| == |builds|
    requires forall i :: 0 <= i < |prefixes| ==> ParseCommonPrefix(prefixes[i], searchPrefix, versioned) == Ok(Some(builds[i]))
    ensures BuildsFrom(prefixes, searchPrefix, versioned) == Ok(builds)
    decreases |prefixes|
  {
    if prefixes != [] {
      var n := |prefixes| - 1;
      BuildsFromParsed(prefixes[..n], searchPrefix, versioned, builds[..n]);
      assert builds[..n] + [builds[n]] == builds;
    }
  }

  function BuildKeys(stage: string, service: string, builds: seq<Build>): (keys: seq<string>)
    ensures |keys| == |builds|
    ensures forall i :: 0 <= i < |builds| ==> keys[i] == BuildKey(stage, service, builds[i])
  {
    seq(|builds|, i requires 0 <= i < |builds| => BuildKey(stage, service, builds[i]))
  }

  /**
   * Listing the keys of pushed builds gives back exactly those builds, in the
   * listing's order, whether or not a version is given.
   */
  lemma ListingRoundTrip(stage: string, service: string, version: Option<string>, builds: seq<Build>)
    requires forall b :: b in builds ==> WellFormed(b)
    ensures BuildsFrom(BuildKeys(stage, service, builds), BuildSearchPrefix(stage, service, version), version.Some?) == Ok(builds)
  {
    var keys := BuildKeys(stage, service, builds);
    var search := BuildSearchPrefix(stage, service, version);
    forall i | 0 <= i < |keys|
      ensures ParseCommonPrefix(keys[i], search, version.Some?) == Ok(Some(builds[i]))
    {
      ParseKey(stage, service, version, builds[i]);
    }
    BuildsFromParsed(keys, search, version.Some?, builds);
  }


  // ---------------------------------------------------------------------------
  // list_builds

  /**
   * The table `list_builds` prints: None for "No builds found.", otherwise the
   * builds sorted by timestamp, newest first, ties in listing order.
   */
  function ListBuilds(builds: seq<Build>): (r: Option<seq<Build>>)
    ensures r.None? <==> builds == []
    ensures r.Some? ==> multiset(r.value) == multiset(builds)
    ensures r.Some? ==> OrderedBy(r.value, (b: Build) => b.timestamp, true)
  {
    if builds == [] then None
    else
      SortedByOrdered(builds, (b: Build) => b.timestamp, true);
      Some(SortedBy(builds, (b: Build) => b.timestamp, true))
  }

  /** The first row is the earliest-listed build among those with the newest timestamp. */
  lemma ListBuildsNewestFirst(builds: seq<Build>)
    requires builds != []
    ensures exists i: nat ::
      IsFirstBest(builds, (b: Build) => b.timestamp, true, i) && ListBuilds(builds).value[0] == builds[i]
  {
    SortedByHead(builds, (b: Build) => b.timestamp, true);
  }
}
