/**
 * The bookkeeping `LambdaService` does around a deployment: the list of
 * published function versions and the next one, the SSM configuration
 * version the function is pointed at, the copy of the stage's parameters to
 * that version (after checking none is missing), the sanity check on the
 * published version, the API Gateway base path mapping decision, the
 * default integration responses, and the build a deployment picks.
 *
 * Paginated AWS listings are given as the finite sequence of replies up to
 * and including the last one; the marker or token that links two replies is
 * not modelled.
 */
module LambdaService {
  import opened Wrappers
  import opened Exceptions
  import opened Strings
  import opened Const
  import opened YoloFiles
  import opened Services
  import opened Client

  // ---------------------------------------------------------------------------
  // Published function versions

  const LATEST: string := "$LATEST"
  const RESOURCE_NOT_FOUND: string := "ResourceNotFoundException"

  /** One reply of `list_versions_by_function`: a page of version strings, or a client error. */
  datatype VersionsReply = VersionsPage(versions: seq<string>, more: bool) | VersionsFailure(message: string)

  /** The replies run until a page without a next marker, or a failure. */
  predicate VersionListingEnds(replies: seq<VersionsReply>) {
    |replies| >= 1 &&
    (forall k :: 0 <= k < |replies| - 1 ==> replies[k].VersionsPage? && replies[k].more) &&
    (replies[|replies| - 1].VersionsFailure? || !replies[|replies| - 1].more)
  }

  /** The numbered versions of one page: `$LATEST` skipped, the rest read with `int()`. */
  function PageVersions(vs: seq<string>): (r: Result<seq<nat>, Error>)
    ensures r.Err? <==> exists s :: s in vs && s != LATEST && ParseDecimal(s).None?
    ensures r.Err? ==> r.error.ValueError?
    ensures r.Ok? ==> forall v :: v in r.value <==> exists s :: s in vs && s != LATEST && ParseDecimal(s) == Some(v)
  {
    if vs == [] then Ok([])
    else
      var init := vs[..|vs| - 1];
      var last := vs[|vs| - 1];
      assert vs == init + [last];
      match PageVersions(init)
      case Err(e) => Err(e)
      case Ok(done) =>
        if last == LATEST then Ok(done)
        else match ParseDecimal(last)
          case None => Err(ValueError(last))
          case Some(v) => Ok(done + [v])
  }

  /**
   * The versions listed from reply `i` on. A missing function on the first
   * page means no versions; any other failure is re-raised.
   */
  function VersionsFrom(replies: seq<VersionsReply>, i: nat): Result<seq<nat>, Error>
    requires i < |replies|
    decreases |replies| - i
  {
    match replies[i]
    case VersionsFailure(message) =>
      if i == 0 && Contains(message, RESOURCE_NOT_FOUND) then Ok([]) else Err(ClientError(message))
    case VersionsPage(vs, more) =>
      match PageVersions(vs)
      case Err(e) => Err(e)
      case Ok(here) =>
        if more && i + 1 < |replies| then
          match VersionsFrom(replies, i + 1)
          case Err(e) => Err(e)
          case Ok(rest) => Ok(here + rest)
        else Ok(here)
  }

  /** The versions collected so far followed by those still to come. */
  function Prepend(done: seq<nat>, rest: Result<seq<nat>, Error>): Result<seq<nat>, Error> {
    match rest
    case Err(e) => Err(e)
    case Ok(vs) => Ok(done + vs)
  }

  lemma PrependAssoc(a: seq<nat>, b: seq<nat>, rest: Result<seq<nat>, Error>)
    ensures Prepend(a, Prepend(b, rest)) == Prepend(a + b, rest)
  {
    if rest.Ok? {
      assert a + (b + rest.value) == a + b + rest.value;
    }
  }

  /** Every version in the listing is the number of some non-`$LATEST` entry of a page. */
  lemma {:induction false} VersionsFromListed(replies: seq<VersionsReply>, i: nat, v: nat)
    requires i < |replies| && VersionsFrom(replies, i).Ok?
    ensures v in VersionsFrom(replies, i).value ==>
      exists k, s :: i <= k < |replies| && replies[k].VersionsPage? && s in replies[k].versions && s != LATEST && ParseDecimal(s) == Some(v)
    decreases |replies| - i
  {
    if replies[i].VersionsPage? && v in VersionsFrom(replies, i).value {
      var here := PageVersions(replies[i].versions).value;
      if v in here {
        var s :| s in replies[i].versions && s != LATEST && ParseDecimal(s) == Some(v);
      } else {
        VersionsFromListed(replies, i + 1, v);
      }
    }
  }

  /** Every numbered entry of every page the listing reaches is kept. */
  lemma {:induction false} VersionsFromComplete(replies: seq<VersionsReply>, i: nat, k: nat, s: string)
    requires VersionListingEnds(replies)
    requires i <= k < |replies| && VersionsFrom(replies, i).Ok?
    requires replies[k].VersionsPage? && s in replies[k].versions && s != LATEST
    ensures ParseDecimal(s).Some? && ParseDecimal(s).value in VersionsFrom(replies, i).value
    decreases |replies| - i
  {
    var here := PageVersions(replies[i].versions);
    if k == i {
      assert here.Ok?;
    } else {
      assert replies[i].VersionsPage? && replies[i].more;
      VersionsFromComplete(replies, i + 1, k, s);
    }
  }

  /** The next version is above every numbered version on any page. */
  lemma NextVersionAboveListed(replies: seq<VersionsReply>, k: nat, s: string)
    requires VersionListingEnds(replies) && VersionsFrom(replies, 0).Ok?
    requires k < |replies| && replies[k].VersionsPage? && s in replies[k].versions && s != LATEST
    ensures ParseDecimal(s).Some? && ParseDecimal(s).value < NextVersion(VersionsFrom(replies, 0).value)
  {
    VersionsFromComplete(replies, 0, k, s);
  }

  /** The loop of the nested page fetcher: appends the numbered versions of one page. */
  method FetchVersionPage(vs: seq<string>) returns (r: Result<seq<nat>, Error>)
    ensures r == PageVersions(vs)
  {
    var found: seq<nat> := [];
    for j := 0 to |vs|
      invariant PageVersions(vs[..j]) == Ok(found)
    {
      assert vs[..j + 1][..j] == vs[..j];
      assert vs[..j + 1][j] == vs[j];
      if vs[j] == LATEST {
        continue;
      }
      match ParseDecimal(vs[j]) {
        case None =>
          PageErrorPersists(vs, j + 1);
          return Err(ValueError(vs[j]));
        case Some(v) =>
          found := found + [v];
      }
    }
    assert vs[..|vs|] == vs;
    return Ok(found);
  }

  /** A page that already failed stays failed when one more version is read. */
  lemma PageErrorStep(vs: seq<string>, n: nat)
    requires n < |vs| && PageVersions(vs[..n]).Err?
    ensures PageVersions(vs[..n + 1]) == PageVersions(vs[..n])
  {
    assert vs[..n + 1][..n] == vs[..n];
  }

  lemma {:induction false} PageErrorPersists(vs: seq<string>, n: nat)
    requires n <= |vs| && PageVersions(vs[..n]).Err?
    ensures PageVersions(vs) == PageVersions(vs[..n])
    decreases |vs| - n
  {
    if n == |vs| {
      assert vs[..n] == vs;
    } else {
      PageErrorStep(vs, n);
      PageErrorPersists(vs, n + 1);
    }
  }

  /** `_get_all_lambda_fn_versions`: the first page, then more pages while a marker is returned. */
  method GetAllLambdaFnVersions(replies: seq<VersionsReply>) returns (r: Result<seq<nat>, Error>)
    requires VersionListingEnds(replies)
    ensures r == VersionsFrom(replies, 0)
  {
    var fnVersions: seq<nat> := [];
    if replies[0].VersionsFailure? {
      if Contains(replies[0].message, RESOURCE_NOT_FOUND) {
        return Ok([]);
      }
      return Err(ClientError(replies[0].message));
    }
    var i := 0;
    assert Prepend([], VersionsFrom(replies, 0)) == VersionsFrom(replies, 0) by {
      if VersionsFrom(replies, 0).Ok? {
        assert [] + VersionsFrom(replies, 0).value == VersionsFrom(replies, 0).value;
      }
    }
    while true
      invariant 0 <= i < |replies| && replies[i].VersionsPage?
      invariant VersionsFrom(replies, 0) == Prepend(fnVersions, VersionsFrom(replies, i))
      decreases |replies| - i
    {
      var page := FetchVersionPage(replies[i].versions);
      if page.Err? {
        return Err(page.error);
      }
      if !replies[i].more {
        return Ok(fnVersions + page.value);
      }
      assert i + 1 < |replies|;
      PrependAssoc(fnVersions, page.value, VersionsFrom(replies, i + 1));
      fnVersions := fnVersions + page.value;
      i := i + 1;
      if replies[i].VersionsFailure? {
        return Err(ClientError(replies[i].message));
      }
    }
  }

  /** The version the next publication should get: 1, or one above the highest. */
  function NextVersion(versions: seq<nat>): (n: nat)
    ensures n >= 1
    ensures forall v :: v in versions ==> v < n
    ensures versions == [] ==> n == 1
    ensures versions != [] ==> n - 1 in versions
  {
    if versions == [] then 1
    else
      var rest := versions[1..];
      if rest == [] then versions[0] + 1
      else
        var m := NextVersion(rest);
        assert versions == [versions[0]] + rest;
        if versions[0] + 1 > m then versions[0] + 1 else m
  }

  // ---------------------------------------------------------------------------
  // The SSM configuration version of a deployment

  /** `/{service}/{stage}/{version}/`: where a deployment's parameters are copied and what the function is told. */
  function ConfigVersionPath(service: string, stage: string, version: nat): string {
    "/" + service + "/" + stage + "/" + DecimalString(version) + "/"
  }

  /** A deployment's configuration never is the editable `latest` path. */
  lemma ConfigVersionIsNotLatest(service: string, stage: string, version: nat)
    ensures ConfigVersionPath(service, stage, version) != SsmParameterPath(service, stage)
  {
    var p := "/" + service + "/" + stage + "/";
    assert ConfigVersionPath(service, stage, version) == p + (DecimalString(version) + "/");
    assert SsmParameterPath(service, stage) == p + "latest/";
    assert (p + (DecimalString(version) + "/"))[|p|] == DecimalString(version)[0];
    assert IsDigit(DecimalString(version)[0]);
    assert (p + "latest/")[|p|] == 'l';
  }

  /** Different versions get different configuration paths. */
  lemma ConfigVersionPathsDiffer(service: string, stage: string, m: nat, n: nat)
    requires m != n
    ensures ConfigVersionPath(service, stage, m) != ConfigVersionPath(service, stage, n)
  {
    var p := "/" + service + "/" + stage + "/";
    var a := ConfigVersionPath(service, stage, m);
    var b := ConfigVersionPath(service, stage, n);
    assert a == p + DecimalString(m) + "/";
    assert b == p + DecimalString(n) + "/";
    if a == b {
      assert a[|p|..|a| - 1] == DecimalString(m);
      assert b[|p|..|b| - 1] == DecimalString(n);
      DecimalStringInjective(m, n);
    }
  }

  /** The `Environment` block of a function configuration; `Variables` may be absent. */
  datatype Environment = Environment(variables: Option<map<string, string>>)

  /** The `lambda_function_configuration` of a service, updated in place before deploying. */
  class LambdaFunctionConfiguration {
    const functionName: string
    var environment: Option<Environment>

    constructor(functionName: string, environment: Option<Environment>)
      ensures this.functionName == functionName && this.environment == environment
    {
      this.functionName := functionName;
      this.environment := environment;
    }

    /**
     * Points the function at its configuration version: an absent
     * `Environment` is created empty first; an `Environment` without
     * `Variables` is a `KeyError`. Other variables are kept.
     */
    method SetConfigVersion(service: string, stage: string, version: nat) returns (r: Result<(), Error>)
      modifies this
      ensures old(environment).None? ==>
        r.Ok? && environment == Some(Environment(Some(map[SSM_CONFIG_VERSION := ConfigVersionPath(service, stage, version)])))
      ensures old(environment).Some? && old(environment).value.variables.None? ==>
        r == Err(KeyError("Variables")) && environment == old(environment)
      ensures old(environment).Some? && old(environment).value.variables.Some? ==>
        r.Ok? && environment == Some(Environment(Some(
          old(environment).value.variables.value[SSM_CONFIG_VERSION := ConfigVersionPath(service, stage, version)])))
    {
      if environment.None? {
        environment := Some(Environment(Some(map[])));
      }
      if environment.value.variables.None? {
        return Err(KeyError("Variables"));
      }
      var variables := environment.value.variables.value;
      environment := Some(Environment(Some(variables[SSM_CONFIG_VERSION := ConfigVersionPath(service, stage, version)])));
      return Ok(());
    }
  }

  /** The sanity check after publishing: the version Lambda published must be the one computed. */
  function CheckPublishedVersion(published: string, expected: nat): (r: Result<(), Error>)
    ensures r.Ok? <==> ParseDecimal(published) == Some(expected)
    ensures ParseDecimal(published).None? ==> r.Err? && r.error.ValueError?
    ensures ParseDecimal(published).Some? && r.Err? ==> r.error == YoloError(VersionMismatch(expected, ParseDecimal(published).value))
  {
    match ParseDecimal(published)
    case None => Err(ValueError(published))
    case Some(v) => if v == expected then Ok(()) else Err(YoloError(VersionMismatch(expected, v)))
  }

  /** Without a concurrent deployment Lambda publishes exactly the next version, and the check passes. */
  lemma PublishedNextVersionPasses(versions: seq<nat>)
    ensures CheckPublishedVersion(DecimalString(NextVersion(versions)), NextVersion(versions)).Ok?
  {
    ParseDecimalString(NextVersion(versions));
  }

  // ---------------------------------------------------------------------------
  // Copying the stage's parameters to the configuration version

  /** One page of `get_parameters_by_path`: (name, value) pairs and whether a next token follows. */
  datatype SsmPage = SsmPage(parameters: seq<(string, string)>, more: bool)

  predicate SsmListingEnds(pages: seq<SsmPage>) {
    |pages| >= 1 && (forall k :: 0 <= k < |pages| - 1 ==> pages[k].more) && !pages[|pages| - 1].more
  }

  /** All parameters of the pages, in order. */
  function AllParameters(pages: seq<SsmPage>): seq<(string, string)> {
    if pages == [] then [] else AllParameters(pages[..|pages| - 1]) + pages[|pages| - 1].parameters
  }

  /** The names the parameters have below the source path (`split(path)[1]`). */
  function ListedNames(path: string, params: seq<(string, string)>): (r: Result<seq<string>, Error>)
    requires |path| > 0
    ensures r.Err? <==> exists i :: 0 <= i < |params| && !Contains(params[i].0, path)
    ensures r.Err? ==> r.error == IndexError
    ensures r.Ok? ==> |r.value| == |params| && forall i :: 0 <= i < |params| ==> ParameterKey(path, params[i].0) == Ok(r.value[i])
  {
    if params == [] then Ok([])
    else
      var init := params[..|params| - 1];
      match ListedNames(path, init)
      case Err(e) => Err(e)
      case Ok(names) =>
        match ParameterKey(path, params[|params| - 1].0)
        case Err(e) => Err(e)
        case Ok(n) => Ok(names + [n])
  }

  /**
   * The declared parameters a deployment needs, as written: the `default`
   * list is looked up eagerly as the fallback of `get`, so it must exist even
   * for a stage with its own list.
   */
  function RequiredParametersAsWritten(stages: map<string, seq<ParamSpec>>, stage: string): (r: Result<seq<ParamSpec>, Error>)
    ensures r.Err? <==> DEFAULT_STAGE !in stages
  {
    if DEFAULT_STAGE !in stages then Err(KeyError(DEFAULT_STAGE))
    else Ok(if stage in stages then stages[stage] else stages[DEFAULT_STAGE])
  }

  /** A stage with its own parameter list and no `default` list cannot be deployed as written. */
  lemma RequiredParametersAsWrittenRejectsOwnList()
    ensures var stages := map["prod" := [ParamSpec("db_password", None, false)]];
      RequiredParametersAsWritten(stages, "prod") == Err(KeyError(DEFAULT_STAGE)) &&
      RequiredParameters(stages, "prod") == Ok([ParamSpec("db_password", None, false)])
  {
  }

  /** The declared parameters a deployment needs: the stage's list, else the `default` list. */
  function RequiredParameters(stages: map<string, seq<ParamSpec>>, stage: string): (r: Result<seq<ParamSpec>, Error>)
    ensures stage in stages ==> r == Ok(stages[stage])
    ensures stage !in stages && DEFAULT_STAGE in stages ==> r == Ok(stages[DEFAULT_STAGE])
    ensures r.Err? <==> stage !in stages && DEFAULT_STAGE !in stages
    ensures r.Err? ==> r.error == KeyError(DEFAULT_STAGE)
  {
    if stage in stages then Ok(stages[stage])
    else if DEFAULT_STAGE in stages then Ok(stages[DEFAULT_STAGE])
    else Err(KeyError(DEFAULT_STAGE))
  }

  /** Whenever a `default` list exists the two lookups agree. */
  lemma RequiredParametersAgree(stages: map<string, seq<ParamSpec>>, stage: string)
    requires DEFAULT_STAGE in stages
    ensures RequiredParametersAsWritten(stages, stage) == RequiredParameters(stages, stage)
  {
  }

  /** The declared names absent from SSM, sorted, each once. */
  function MissingNames(required: seq<ParamSpec>, present: seq<string>): (r: seq<string>)
    ensures Distinct(r) && OrderedBy(r, (x: string) => x, false)
    ensures forall n :: n in r <==> n in Names(required) && n !in present
  {
    SortedSet(Filter(Names(required), (n: string) => n !in present))
  }

  /**
   * What `_copy_ssm_parameters` decides before copying: whether to copy
   * (not when the service declares no parameters), or the error it raises.
   */
  function CopyDecision(yf: YoloFile, service: string, stage: string, params: seq<(string, string)>): (r: Result<bool, Error>)
    ensures r.Ok? && r.value ==> (
      service in yf.services && yf.services[service].parameters.Some? &&
      RequiredParameters(yf.services[service].parameters.value, stage).Ok? &&
      ListedNames(SsmParameterPath(service, stage), params).Ok? &&
      forall n :: n in Names(RequiredParameters(yf.services[service].parameters.value, stage).value) ==>
        n in ListedNames(SsmParameterPath(service, stage), params).value)
    ensures r.Ok? && !r.value ==> service in yf.services && yf.services[service].parameters.None?
    ensures r.Err? && r.error.YoloError? ==> r.error.reason.MissingParameters? && r.error.reason.names != []
    ensures var listed := ListedNames(SsmParameterPath(service, stage), params);
      listed.Err? ==> r == Err(listed.error)
    ensures ListedNames(SsmParameterPath(service, stage), params).Ok? && service !in yf.services ==> r == Err(KeyError(service))
    ensures var listed := ListedNames(SsmParameterPath(service, stage), params);
      listed.Ok? && service in yf.services && yf.services[service].parameters.Some? ==>
        var required := RequiredParameters(yf.services[service].parameters.value, stage);
        var missing := if required.Ok? then MissingNames(required.value, listed.value) else [];
        r == (if required.Err? then Err(required.error)
              else if missing == [] then Ok(true)
              else Err(YoloError(MissingParameters(missing))))
  {
    match ListedNames(SsmParameterPath(service, stage), params)
    case Err(e) => Err(e)
    case Ok(present) =>
      if service !in yf.services then Err(KeyError(service))
      else match yf.services[service].parameters
        case None => Ok(false)
        case Some(stages) =>
          match RequiredParameters(stages, stage)
          case Err(e) => Err(e)
          case Ok(required) =>
            var missing := MissingNames(required, present);
            if missing != [] then Err(YoloError(MissingParameters(missing)))
            else Ok(true)
  }

  /**
   * The same decision with the `default` list looked up as written: a
   * service with a `parameters` section but no `default` stage fails with
   * `KeyError('default')` before anything is checked.
   */
  function CopyDecisionAsWritten(yf: YoloFile, service: string, stage: string, params: seq<(string, string)>): (r: Result<bool, Error>)
    ensures var listed := ListedNames(SsmParameterPath(service, stage), params);
      (listed.Ok? && service in yf.services && yf.services[service].parameters.Some? &&
       DEFAULT_STAGE !in yf.services[service].parameters.value) ==> r == Err(KeyError(DEFAULT_STAGE))
  {
    match ListedNames(SsmParameterPath(service, stage), params)
    case Err(e) => Err(e)
    case Ok(present) =>
      if service !in yf.services then Err(KeyError(service))
      else match yf.services[service].parameters
        case None => Ok(false)
        case Some(stages) =>
          match RequiredParametersAsWritten(stages, stage)
          case Err(e) => Err(e)
          case Ok(required) =>
            var missing := MissingNames(required, present);
            if missing != [] then Err(YoloError(MissingParameters(missing)))
            else Ok(true)
  }

  /**
   * The two decisions differ only for a `parameters` section without a
   * `default` stage; there a stage with its own list is decided on that
   * list by the corrected decision and refused as written.
   */
  lemma CopyDecisionAgrees(yf: YoloFile, service: string, stage: string, params: seq<(string, string)>)
    ensures (service in yf.services && yf.services[service].parameters.Some? &&
             DEFAULT_STAGE !in yf.services[service].parameters.value &&
             ListedNames(SsmParameterPath(service, stage), params).Ok?) ==>
        CopyDecisionAsWritten(yf, service, stage, params) == Err(KeyError(DEFAULT_STAGE)) &&
        (stage in yf.services[service].parameters.value ==>
          CopyDecision(yf, service, stage, params).Ok? || CopyDecision(yf, service, stage, params).error.YoloError?)
    ensures !(service in yf.services && yf.services[service].parameters.Some? &&
              DEFAULT_STAGE !in yf.services[service].parameters.value) ==>
        CopyDecisionAsWritten(yf, service, stage, params) == CopyDecision(yf, service, stage, params)
  {
    if service in yf.services && yf.services[service].parameters.Some? {
      var stages := yf.services[service].parameters.value;
      if DEFAULT_STAGE in stages {
        RequiredParametersAgree(stages, stage);
      }
    }
  }

  /** Python `os.path.basename`: what follows the last `/`. */
  function Basename(name: string): string {
    match LastIndexOf(name, '/')
    case None => name
    case Some(i) => name[i + 1..]
  }

  lemma BasenameAfterSlash(dir: string, name: string)
    requires |dir| > 0 && dir[|dir| - 1] == '/' && '/' !in name
    ensures Basename(dir + name) == name
  {
    var s := dir + name;
    var a := dir[..|dir| - 1];
    assert s == a + ['/'] + name;
    LastIndexOfBefore(a, '/', name);
    assert s[|a| + 1..] == name;
  }

  /** The store after copying each parameter to `dest` under its base name. */
  function CopiedInto(before: map<string, string>, dest: string, params: seq<(string, string)>): map<string, string> {
    if params == [] then before
    else
      var last := params[|params| - 1];
      CopiedInto(before, dest, params[..|params| - 1])[dest + Basename(last.0) := last.1]
  }

  /** A copied name stays in the store. */
  lemma {:induction false} CopiedKeyPresent(before: map<string, string>, dest: string, params: seq<(string, string)>, i: nat)
    requires i < |params|
    ensures dest + Basename(params[i].0) in CopiedInto(before, dest, params)
    decreases |params|
  {
    if i < |params| - 1 {
      assert params[..|params| - 1][i] == params[i];
      CopiedKeyPresent(before, dest, params[..|params| - 1], i);
    }
  }

  /** The `NextToken` loop of `get_parameters_by_path`: all parameters of the pages, in order. */
  method ListSourceParameters(pages: seq<SsmPage>) returns (params: seq<(string, string)>)
    requires SsmListingEnds(pages)
    ensures params == AllParameters(pages)
  {
    params := [];
    var i := 0;
    while true
      invariant 0 <= i < |pages|
      invariant params + pages[i].parameters == AllParameters(pages[..i + 1])
      decreases |pages| - i
    {
      params := params + pages[i].parameters;
      if !pages[i].more {
        break;
      }
      assert pages[..i + 2][..i + 1] == pages[..i + 1];
      i := i + 1;
    }
    assert pages[..i + 1] == pages;
  }

  /** The `put_parameter` loop: each parameter is stored under `dest` by its base name, later ones overwriting. */
  method CopyInto(store: ParameterStore, dest: string, params: seq<(string, string)>)
    modifies store
    ensures store.values == CopiedInto(old(store.values), dest, params)
  {
    var j := 0;
    while j < |params|
      invariant 0 <= j <= |params|
      invariant store.values == CopiedInto(old(store.values), dest, params[..j])
    {
      assert params[..j + 1][..j] == params[..j];
      store.Put(dest + Basename(params[j].0), params[j].1);
      j := j + 1;
    }
    assert params[..j] == params;
  }

  /** `_copy_ssm_parameters`: read every page, check, then copy to the version's path. */
  method CopySsmParameters(store: ParameterStore, yf: YoloFile, service: string, stage: string, version: nat, pages: seq<SsmPage>)
    returns (r: Result<(), Error>)
    requires SsmListingEnds(pages)
    modifies store
    ensures var decision := CopyDecision(yf, service, stage, AllParameters(pages));
      (r.Ok? <==> decision.Ok?) && (r.Err? ==> r.error == decision.error)
    ensures r.Ok? && CopyDecision(yf, service, stage, AllParameters(pages)) == Ok(true) ==>
      store.values == CopiedInto(old(store.values), ConfigVersionPath(service, stage, version), AllParameters(pages))
    ensures !(r.Ok? && CopyDecision(yf, service, stage, AllParameters(pages)) == Ok(true)) ==> store.values == old(store.values)
  {
    var ssmParams := ListSourceParameters(pages);
    var decision := CopyDecision(yf, service, stage, ssmParams);
    if decision.Err? {
      return Err(decision.error);
    }
    if !decision.value {
      return Ok(());
    }
    CopyInto(store, ConfigVersionPath(service, stage, version), ssmParams);
    return Ok(());
  }


  /**
   * After a successful copy, every parameter the deployment needs is stored
   * under the new configuration version (given the listing holds the direct
   * children of the source path, as a non-recursive listing does).
   */
  lemma CopiedConfigurationComplete(before: map<string, string>, yf: YoloFile, service: string, stage: string, version: nat,
                                    params: seq<(string, string)>, n: string)
    requires CopyDecision(yf, service, stage, params) == Ok(true)
    requires forall i :: 0 <= i < |params| ==> exists m :: '/' !in m && params[i].0 == SsmParameterName(service, stage, m)
    requires n in Names(RequiredParameters(yf.services[service].parameters.value, stage).value)
    ensures ConfigVersionPath(service, stage, version) + n in CopiedInto(before, ConfigVersionPath(service, stage, version), params)
  {
    var path := SsmParameterPath(service, stage);
    var listed := ListedNames(path, params).value;
    assert n in listed;
    var i :| 0 <= i < |listed| && listed[i] == n;
    var m :| '/' !in m && params[i].0 == SsmParameterName(service, stage, m);
    ParameterNameRoundTrip(service, stage, m);
    assert m == n;
    BasenameAfterSlash(path, m);
    CopiedKeyPresent(before, ConfigVersionPath(service, stage, version), params, i);
  }

  // ---------------------------------------------------------------------------
  // Choosing the build to deploy

  /** The build a deployment of `version` uses: the one with the newest timestamp. */
  function LatestBuild(version: string, builds: seq<Build>): (r: Result<Build, Error>)
    ensures r.Err? <==> builds == []
    ensures r.Err? ==> r.error == YoloError(NoBuildsForVersion(version))
    ensures r.Ok? ==> r.value in builds
  {
    if builds == [] then Err(YoloError(NoBuildsForVersion(version)))
    else
      var sorted := SortedBy(builds, (b: Build) => b.timestamp, true);
      assert multiset(sorted) == multiset(builds);
      assert sorted[0] in multiset(sorted);
      Ok(sorted[0])
  }

  /** No build is newer than the chosen one, and it is the first listed among the newest. */
  lemma LatestBuildIsNewest(version: string, builds: seq<Build>)
    requires builds != []
    ensures exists i: nat :: IsFirstBest(builds, (b: Build) => b.timestamp, true, i) && LatestBuild(version, builds) == Ok(builds[i])
  {
    SortedByHead(builds, (b: Build) => b.timestamp, true);
  }

  /** `deploy` up to the choice of build: look the service up, list the builds of the version and take the newest. */
  method FindBuildToDeploy(yf: YoloFile, stage: string, service: string, version: string, commonPrefixes: Option<seq<string>>)
    returns (r: Result<Build, Error>)
    ensures service !in yf.services ==> r == Err(KeyError(service))
    ensures var listed := BuildsFrom(if commonPrefixes.Some? then commonPrefixes.value else [],
                                     BuildSearchPrefix(stage, service, Some(version)), true);
      service in yf.services ==> r == (if listed.Err? then Err(listed.error) else LatestBuild(version, listed.value))
  {
    if service !in yf.services {
      return Err(KeyError(service));
    }
    var builds := GetBuildsList(stage, service, Some(version), commonPrefixes);
    if builds.Err? {
      return Err(builds.error);
    }
    if builds.value == [] {
      return Err(YoloError(NoBuildsForVersion(version)));
    }
    r := LatestBuild(version, builds.value);
  }

  // ---------------------------------------------------------------------------
  // API Gateway base path mapping

  const NONE_BASE_PATH: string := "(none)"

  /** An existing base path mapping as API Gateway lists it (`(none)` for the root). */
  datatype BasePathMapping = BasePathMapping(basePath: string, restApiId: string, stage: string)

  /** The domain an API Gateway configuration maps, with both of its keys read. */
  datatype Domain = Domain(domainName: string, basePath: string)

  /** A `domains` entry as configured: the schema leaves both of its keys optional. */
  datatype DomainEntry = DomainEntry(domainName: Option<string>, basePath: Option<string>)

  /** An API Gateway configuration: its REST API and its `domains` list, which the schema leaves optional. */
  datatype ApiGatewayConfig = ApiGatewayConfig(restApiId: string, domains: Option<seq<DomainEntry>>)

  /**
   * The one domain a configuration maps, read as the mapping loop reads it:
   * the `domains` key, its single entry, then `domain_name` and `base_path`;
   * the first of these that is missing raises. Both keys are read before the
   * domain name is compared with the empty string.
   */
  function ConfigDomain(config: ApiGatewayConfig): (r: Result<Domain, Error>)
    ensures r.Ok? <==> config.domains.Some? && |config.domains.value| == 1 &&
                       config.domains.value[0].domainName.Some? && config.domains.value[0].basePath.Some?
    ensures r.Ok? ==> r.value == Domain(config.domains.value[0].domainName.value, config.domains.value[0].basePath.value)
    ensures config.domains.None? ==> r == Err(KeyError("domains"))
    ensures config.domains.Some? && |config.domains.value| != 1 ==> r.Err? && r.error.ValueError?
    ensures (config.domains.Some? && |config.domains.value| == 1 && config.domains.value[0].domainName.None?) ==>
              r == Err(KeyError("domain_name"))
    ensures (config.domains.Some? && |config.domains.value| == 1 && config.domains.value[0].domainName.Some? &&
             config.domains.value[0].basePath.None?) ==>
              r == Err(KeyError("base_path"))
  {
    match config.domains
    case None => Err(KeyError("domains"))
    case Some(entries) =>
      if |entries| != 1 then Err(ValueError("expected exactly one domain"))
      else match entries[0].domainName
        case None => Err(KeyError("domain_name"))
        case Some(domainName) =>
          match entries[0].basePath
          case None => Err(KeyError("base_path"))
          case Some(basePath) => Ok(Domain(domainName, basePath))
  }

  datatype MappingStep =
    | MappingInPlace
    | MappingNeedsManualUpdate
    | CreateMapping(domainName: string, basePath: string, restApiId: string, stage: string)

  /** The root base path is given as `/` but must be sent as the empty string. */
  function NormalizedBasePath(basePath: string): string {
    if basePath == "/" then "" else basePath
  }

  /** A listed base path with `(none)` read as the empty string. */
  function ListedBasePath(raw: string): string {
    Replace(raw, NONE_BASE_PATH, "")
  }

  lemma NoneIsRoot()
    ensures ListedBasePath(NONE_BASE_PATH) == ""
  {
    assert !Contains("", NONE_BASE_PATH) by {
      FindLeftmost("", NONE_BASE_PATH);
    }
    SplitAfterPrefix(NONE_BASE_PATH, "");
    assert NONE_BASE_PATH + "" == NONE_BASE_PATH;
  }

  /** The first listed mapping whose raw base path is `key`. */
  function MappingFor(existing: seq<BasePathMapping>, key: string): (r: Option<BasePathMapping>)
    ensures r.Some? ==> r.value in existing && r.value.basePath == key
    ensures r.None? ==> forall m :: m in existing ==> m.basePath != key
  {
    if existing == [] then None
    else if existing[0].basePath == key then Some(existing[0])
    else MappingFor(existing[1..], key)
  }

  /**
   * The base path mapping step for one domain: create the mapping when its
   * base path is not listed yet; otherwise compare the listed mapping with
   * the API and stage (a differing one can only be fixed by hand).
   */
  function BasePathStep(domain: Domain, restApiId: string, stage: string, existing: seq<BasePathMapping>): (r: Result<MappingStep, Error>)
    ensures var basePath := NormalizedBasePath(domain.basePath);
      var listed := seq(|existing|, i requires 0 <= i < |existing| => ListedBasePath(existing[i].basePath));
      (r.Ok? && r.value.CreateMapping? <==> basePath !in listed) &&
      (r.Ok? && r.value.CreateMapping? ==> r.value == CreateMapping(domain.domainName, basePath, restApiId, stage))
    ensures var basePath := NormalizedBasePath(domain.basePath);
      var listed := seq(|existing|, i requires 0 <= i < |existing| => ListedBasePath(existing[i].basePath));
      var found := MappingFor(existing, if basePath == "" then NONE_BASE_PATH else basePath);
      basePath in listed ==>
        r == (if found.None? then Err(ClientError("NotFoundException"))
              else if found.value.restApiId == restApiId && found.value.stage == stage then Ok(MappingInPlace)
              else Ok(MappingNeedsManualUpdate))
  {
    var basePath := NormalizedBasePath(domain.basePath);
    var listed := seq(|existing|, i requires 0 <= i < |existing| => ListedBasePath(existing[i].basePath));
    if basePath in listed then
      var key := if basePath == "" then NONE_BASE_PATH else basePath;
      match MappingFor(existing, key)
      case None => Err(ClientError("NotFoundException"))
      case Some(m) =>
        if m.restApiId != restApiId || m.stage != stage then Ok(MappingNeedsManualUpdate) else Ok(MappingInPlace)
    else Ok(CreateMapping(domain.domainName, basePath, restApiId, stage))
  }

  /** `/` and the empty base path are the same mapping. */
  lemma RootBasePathSpellings(domainName: string, restApiId: string, stage: string, existing: seq<BasePathMapping>)
    ensures BasePathStep(Domain(domainName, "/"), restApiId, stage, existing) == BasePathStep(Domain(domainName, ""), restApiId, stage, existing)
  {
  }

  /** An existing root mapping, listed as `(none)`, is found: no second root mapping is created. */
  lemma RootMappingNotDuplicated(domainName: string, restApiId: string, stage: string, existing: seq<BasePathMapping>, k: nat)
    requires k < |existing| && existing[k].basePath == NONE_BASE_PATH
    ensures var r := BasePathStep(Domain(domainName, "/"), restApiId, stage, existing);
      r.Ok? && !r.value.CreateMapping?
  {
    NoneIsRoot();
    var listed := seq(|existing|, i requires 0 <= i < |existing| => ListedBasePath(existing[i].basePath));
    assert listed[k] == "";
    var m := MappingFor(existing, NONE_BASE_PATH);
    assert existing[k] in existing;
  }

  /** The mappings API Gateway lists for a domain; a domain it does not know lists none. */
  function ListingOf(mappings: map<string, seq<BasePathMapping>>, domainName: string): seq<BasePathMapping> {
    if domainName in mappings then mappings[domainName] else []
  }

  /** The key a base path is listed and fetched under: the root base path is `(none)`. */
  function MappingKey(basePath: string): string {
    if basePath == "" then NONE_BASE_PATH else basePath
  }

  /**
   * The mappings API Gateway lists after a step: a created mapping is listed
   * for its domain from then on; the other steps change nothing.
   */
  function AfterStep(mappings: map<string, seq<BasePathMapping>>, step: MappingStep): (after: map<string, seq<BasePathMapping>>)
    ensures forall d :: d in mappings ==> d in after
  {
    match step
    case CreateMapping(domainName, basePath, restApiId, stage) =>
      mappings[domainName := ListingOf(mappings, domainName) + [BasePathMapping(MappingKey(basePath), restApiId, stage)]]
    case _ => mappings
  }

  /**
   * The mapping steps for the API Gateway configurations from the `i`-th on,
   * in order, against what API Gateway lists when each is reached. Each
   * needs exactly one domain; an empty domain name ends the whole loop.
   */
  function MappingStepsFrom(configs: seq<ApiGatewayConfig>, i: nat, stage: string, mappings: map<string, seq<BasePathMapping>>)
    : (r: Result<seq<MappingStep>, Error>)
    requires i <= |configs|
    ensures r.Ok? ==> |r.value| <= |configs| - i
    decreases |configs| - i
  {
    if i == |configs| then Ok([])
    else
      match ConfigDomain(configs[i])
      case Err(e) => Err(e)
      case Ok(domain) =>
        if domain.domainName == "" then Ok([])
        else match BasePathStep(domain, configs[i].restApiId, stage, ListingOf(mappings, domain.domainName))
          case Err(e) => Err(e)
          case Ok(step) => PrependSteps([step], MappingStepsFrom(configs, i + 1, stage, AfterStep(mappings, step)))
  }

  function PrependSteps(done: seq<MappingStep>, rest: Result<seq<MappingStep>, Error>): Result<seq<MappingStep>, Error> {
    match rest
    case Err(e) => Err(e)
    case Ok(steps) => Ok(done + steps)
  }

  lemma PrependStepsAssoc(a: seq<MappingStep>, b: seq<MappingStep>, rest: Result<seq<MappingStep>, Error>)
    ensures PrependSteps(a, PrependSteps(b, rest)) == PrependSteps(a + b, rest)
  {
    if rest.Ok? {
      assert a + (b + rest.value) == a + b + rest.value;
    }
  }

  /** A configuration after an empty domain name is never mapped: the steps are those of the list cut after it. */
  lemma {:induction false} EmptyDomainEndsMapping(configs: seq<ApiGatewayConfig>, i: nat, k: nat, stage: string,
                                                    mappings: map<string, seq<BasePathMapping>>)
    requires i < |configs| && ConfigDomain(configs[i]).Ok? && ConfigDomain(configs[i]).value.domainName == "" && k <= i
    ensures MappingStepsFrom(configs, k, stage, mappings) == MappingStepsFrom(configs[..i + 1], k, stage, mappings)
    decreases i - k
  {
    var cut := configs[..i + 1];
    assert |cut| == i + 1 && cut[k] == configs[k];
    if k < i && ConfigDomain(configs[k]).Ok? && ConfigDomain(configs[k]).value.domainName != "" {
      var domain := ConfigDomain(configs[k]).value;
      var step := BasePathStep(domain, configs[k].restApiId, stage, ListingOf(mappings, domain.domainName));
      if step.Ok? {
        EmptyDomainEndsMapping(configs, i, k + 1, stage, AfterStep(mappings, step.value));
        assert MappingStepsFrom(configs, k, stage, mappings) == PrependSteps([step.value], MappingStepsFrom(configs, k + 1, stage, AfterStep(mappings, step.value)));
        assert MappingStepsFrom(cut, k, stage, mappings) == PrependSteps([step.value], MappingStepsFrom(cut, k + 1, stage, AfterStep(mappings, step.value)));
      }
    }
  }

  /** A missing `base_path` raises even beside an empty domain name: the loop does not end quietly there. */
  lemma MissingBasePathRaises(configs: seq<ApiGatewayConfig>, i: nat, stage: string, mappings: map<string, seq<BasePathMapping>>)
    requires i < |configs| && configs[i].domains == Some([DomainEntry(Some(""), None)])
    ensures MappingStepsFrom(configs, i, stage, mappings) == Err(KeyError("base_path"))
  {
  }

  /** A base path with its mapping just created is listed, under its key, for the next configuration. */
  lemma CreatedIsListed(existing: seq<BasePathMapping>, basePath: string, restApiId: string, stage: string)
    requires !Contains(basePath, NONE_BASE_PATH)
    requires forall m :: m in existing ==> m.basePath != MappingKey(basePath)
    ensures var after := existing + [BasePathMapping(MappingKey(basePath), restApiId, stage)];
      var listed := seq(|after|, i requires 0 <= i < |after| => ListedBasePath(after[i].basePath));
      basePath in listed && MappingFor(after, MappingKey(basePath)) == Some(BasePathMapping(MappingKey(basePath), restApiId, stage))
  {
    var after := existing + [BasePathMapping(MappingKey(basePath), restApiId, stage)];
    var listed := seq(|after|, i requires 0 <= i < |after| => ListedBasePath(after[i].basePath));
    if basePath == "" {
      NoneIsRoot();
    } else {
      ReplaceAbsent(basePath, NONE_BASE_PATH, "");
    }
    assert listed[|existing|] == basePath;
    MappingForAppended(existing, BasePathMapping(MappingKey(basePath), restApiId, stage));
  }

  /** A key no listed mapping has is found in the one appended after them. */
  lemma {:induction false} MappingForAppended(existing: seq<BasePathMapping>, m: BasePathMapping)
    requires forall x :: x in existing ==> x.basePath != m.basePath
    ensures MappingFor(existing + [m], m.basePath) == Some(m)
  {
    if existing != [] {
      assert (existing + [m])[1..] == existing[1..] + [m];
      MappingForAppended(existing[1..], m);
    }
  }

  /**
   * Two configurations mapping the same base path of a domain that does not
   * list it yet: the first creates the mapping, the second finds it, in
   * place when it is for the same API.
   */
  lemma SecondConfigurationFindsMapping(first: ApiGatewayConfig, second: ApiGatewayConfig, domain: Domain, stage: string,
                                        mappings: map<string, seq<BasePathMapping>>)
    requires ConfigDomain(first) == Ok(domain) && ConfigDomain(second) == Ok(domain) && domain.domainName != ""
    requires !Contains(NormalizedBasePath(domain.basePath), NONE_BASE_PATH)
    requires forall m :: m in ListingOf(mappings, domain.domainName) ==> ListedBasePath(m.basePath) != NormalizedBasePath(domain.basePath)
    ensures MappingStepsFrom([first, second], 0, stage, mappings) ==
      Ok([CreateMapping(domain.domainName, NormalizedBasePath(domain.basePath), first.restApiId, stage),
          if second.restApiId == first.restApiId then MappingInPlace else MappingNeedsManualUpdate])
  {
    var configs := [first, second];
    var basePath := NormalizedBasePath(domain.basePath);
    var existing := ListingOf(mappings, domain.domainName);
    var listed := seq(|existing|, i requires 0 <= i < |existing| => ListedBasePath(existing[i].basePath));
    assert basePath !in listed by {
      forall i | 0 <= i < |existing| ensures listed[i] != basePath {
        assert existing[i] in existing;
      }
    }
    assert ListedBasePath(MappingKey(basePath)) == basePath by {
      if basePath == "" {
        NoneIsRoot();
      } else {
        ReplaceAbsent(basePath, NONE_BASE_PATH, "");
      }
    }
    var created := CreateMapping(domain.domainName, basePath, first.restApiId, stage);
    assert BasePathStep(domain, first.restApiId, stage, existing) == Ok(created);
    var after := AfterStep(mappings, created);
    assert ListingOf(after, domain.domainName) == existing + [BasePathMapping(MappingKey(basePath), first.restApiId, stage)];
    CreatedIsListed(existing, basePath, first.restApiId, stage);
    var found := if second.restApiId == first.restApiId then MappingInPlace else MappingNeedsManualUpdate;
    assert BasePathStep(domain, second.restApiId, stage, ListingOf(after, domain.domainName)) == Ok(found);
    assert |configs| == 2 && configs[0] == first && configs[1] == second;
    assert MappingStepsFrom(configs, 2, stage, AfterStep(after, found)) == Ok([]);
    assert MappingStepsFrom(configs, 1, stage, after) == PrependSteps([found], Ok([]));
    assert [found] + [] == [found] && [created] + [found] == [created, found];
  }

  /**
   * The loop over the API Gateway configurations, with its early `return` on
   * an empty domain name. API Gateway's mappings are listed afresh for each
   * configuration, so a mapping created for one is seen by the later ones.
   */
  method ConfigureBasePathMappings(configs: seq<ApiGatewayConfig>, stage: string, existing: map<string, seq<BasePathMapping>>)
    returns (r: Result<seq<MappingStep>, Error>)
    ensures r == MappingStepsFrom(configs, 0, stage, existing)
  {
    var steps: seq<MappingStep> := [];
    var mappings := existing;
    var i := 0;
    assert PrependSteps([], MappingStepsFrom(configs, 0, stage, existing)) == MappingStepsFrom(configs, 0, stage, existing) by {
      if MappingStepsFrom(configs, 0, stage, existing).Ok? {
        assert [] + MappingStepsFrom(configs, 0, stage, existing).value == MappingStepsFrom(configs, 0, stage, existing).value;
      }
    }
    while i < |configs|
      invariant 0 <= i <= |configs|
      invariant MappingStepsFrom(configs, 0, stage, existing) == PrependSteps(steps, MappingStepsFrom(configs, i, stage, mappings))
    {
      var config := configs[i];
      var read := ConfigDomain(config);
      if read.Err? {
        return Err(read.error);
      }
      var domain := read.value;
      if domain.domainName == "" {
        assert steps + [] == steps;
        return Ok(steps);
      }
      var step := BasePathStep(domain, config.restApiId, stage, ListingOf(mappings, domain.domainName));
      if step.Err? {
        return Err(step.error);
      }
      PrependStepsAssoc(steps, [step.value], MappingStepsFrom(configs, i + 1, stage, AfterStep(mappings, step.value)));
      steps := steps + [step.value];
      mappings := AfterStep(mappings, step.value);
      i := i + 1;
    }
    assert steps + [] == steps;
    return Ok(steps);
  }

  // ---------------------------------------------------------------------------
  // Default integration responses

  const RESPONSE_CODES: seq<nat> := [
    300, 301, 302, 303, 304, 305, 307,
    400, 401, 402, 403, 404, 405, 406, 407, 408, 409, 410, 411, 412, 413, 414,
    415, 416, 417, 418, 422, 423,
    500, 501, 502, 503, 504, 505
  ]

  const PASSTHROUGH: string := "__passthrough__"

  /** An integration response: its JSON response template, selection pattern (if any) and status code. */
  datatype IntegrationResponse = IntegrationResponse(template: string, selectionPattern: Option<string>, statusCode: string)

  /** The JSON error body for a listed status code. */
  function ErrorTemplate(code: nat): string {
    "{\"error\": {\"code\": " + DecimalString(code) + ", \"message\": $input.json('$.errorMessage')}}"
  }

  /** A listed code: its own status, selected by an error message starting with `{code}:`. */
  function CodeResponse(code: nat): IntegrationResponse {
    IntegrationResponse(ErrorTemplate(code), Some("^" + DecimalString(code) + ":.*"), DecimalString(code))
  }

  /** Every other code: status 200 and the Lambda result passed through. */
  const DEFAULT_RESPONSE: IntegrationResponse := IntegrationResponse(PASSTHROUGH, None, "200")

  /** One entry per listed code, keyed by its decimal form. */
  function CodeTable(codes: seq<nat>): map<string, IntegrationResponse> {
    map c | c in codes :: DecimalString(c) := CodeResponse(c)
  }

  /** A code's decimal form finds its own entry exactly when the code is listed. */
  lemma CodeTableLookup(codes: seq<nat>, n: nat)
    ensures n in codes ==> DecimalString(n) in CodeTable(codes) && CodeTable(codes)[DecimalString(n)] == CodeResponse(n)
    ensures n !in codes ==> DecimalString(n) !in CodeTable(codes)
  {
    var table := CodeTable(codes);
    var key := DecimalString(n);
    if n in codes {
      assert key in table;
      var c :| c in codes && DecimalString(c) == key && table[key] == CodeResponse(c);
      DecimalStringInjective(c, n);
    } else if key in table {
      var c :| c in codes && DecimalString(c) == key;
      DecimalStringInjective(c, n);
    }
  }

  /** `DEFAULT_INTEGRATION_RESPONSES`, keyed by the decimal code and `default`. */
  function DefaultIntegrationResponses(): (t: map<string, IntegrationResponse>)
    ensures "default" in t && t["default"] == DEFAULT_RESPONSE
  {
    CodeTable(RESPONSE_CODES)["default" := DEFAULT_RESPONSE]
  }

  /** The integration response set up for a response code of the Swagger document. */
  function IntegrationResponseFor(code: string): IntegrationResponse {
    var table := DefaultIntegrationResponses();
    if code in table then table[code] else table["default"]
  }

  /** A numeric response code gets its own entry when listed, and the passthrough default otherwise. */
  lemma IntegrationResponseOfCode(n: nat)
    ensures n in RESPONSE_CODES ==> IntegrationResponseFor(DecimalString(n)) == CodeResponse(n)
    ensures n !in RESPONSE_CODES ==> IntegrationResponseFor(DecimalString(n)) == DEFAULT_RESPONSE
  {
    var key := DecimalString(n);
    assert key != "default" by {
      assert IsDigit(key[0]);
    }
    CodeTableLookup(RESPONSE_CODES, n);
  }
}
