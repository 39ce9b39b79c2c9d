/**
 * The parsed contents of a `yolo.yaml` file and the lookups the tool makes in
 * it: the configuration of a stage (falling back to the `default` stage) and
 * the normalisation of an account given by alias or by number.
 *
 * Loading, schema validation and Jinja rendering are not modelled: a value of
 * `YoloFile` is a file that has already passed validation.
 */
module YoloFiles {
  import opened Wrappers
  import opened Exceptions

  const DEFAULT_STAGE: string := "default"

  /** An entry of the `accounts` section (also the `AWSAccount` tuple). */
  datatype Account = Account(name: string, accountNumber: string, defaultRegion: string)

  /** An entry of the `stages` section; an absent `protected` key reads as false. */
  datatype StageConfig = StageConfig(account: string, region: string, protected: bool, params: map<string, string>)

  /** An entry of the `templates` section. */
  datatype TemplateConfig = TemplateConfig(path: string, params: map<string, string>)

  /** One declared SSM parameter of a service stage. */
  datatype ParamSpec = ParamSpec(name: string, value: Option<string>, multiline: bool)

  /** The `build` section of a service. */
  datatype BuildConfig = BuildConfig(workingDir: string, distDir: string, includes: seq<string>, dependencies: Option<string>)

  /** A service: its type, its build section, and `deploy.parameters.stages` when present. */
  datatype ServiceConfig = ServiceConfig(
    serviceType: string,
    build: Option<BuildConfig>,
    parameters: Option<map<string, seq<ParamSpec>>>)

  datatype YoloFile = YoloFile(
    appName: string,
    accounts: seq<Account>,
    templates: map<string, TemplateConfig>,
    stages: map<string, StageConfig>,
    services: map<string, ServiceConfig>)

  /**
   * The configuration of `stage`: its own entry, else the `default` entry,
   * else a `YoloError`.
   */
  function GetStageConfig(yf: YoloFile, stage: string): (r: Result<StageConfig, Error>)
    ensures stage in yf.stages ==> r == Ok(yf.stages[stage])
    ensures stage !in yf.stages && DEFAULT_STAGE in yf.stages ==> r == Ok(yf.stages[DEFAULT_STAGE])
    ensures r.Err? <==> stage !in yf.stages && DEFAULT_STAGE !in yf.stages
    ensures r.Err? ==> r.error == YoloError(NoDefaultStage)
  {
    if stage in yf.stages then Ok(yf.stages[stage])
    else if DEFAULT_STAGE in yf.stages then Ok(yf.stages[DEFAULT_STAGE])
    else Err(YoloError(NoDefaultStage))
  }

  /** Every stage without its own entry is configured exactly like `default`. */
  lemma UnconfiguredStageIsDefault(yf: YoloFile, stage: string)
    requires stage !in yf.stages
    ensures GetStageConfig(yf, stage) == GetStageConfig(yf, DEFAULT_STAGE)
  {
  }

  /** Account templates exist: the account ("baseline") stack can be deployed. */
  predicate IsBaselineInfrastructureDefined(yf: YoloFile) {
    "account" in yf.templates
  }

  // ---------------------------------------------------------------------------
  // Account normalisation

  /** The entry is the account given by alias or by number. */
  predicate Matches(entry: Account, account: string) {
    entry.name == account || entry.accountNumber == account
  }

  /** The index of the first entry, at or after `from`, matching `account`. */
  function FirstMatch(accounts: seq<Account>, account: string, from: nat): (r: Option<nat>)
    requires from <= |accounts|
    ensures r.Some? ==> from <= r.value < |accounts| && Matches(accounts[r.value], account)
    ensures r.Some? ==> forall k :: from <= k < r.value ==> !Matches(accounts[k], account)
    ensures r.None? ==> forall k :: from <= k < |accounts| ==> !Matches(accounts[k], account)
    decreases |accounts| - from
  {
    if from == |accounts| then None
    else if Matches(accounts[from], account) then Some(from)
    else FirstMatch(accounts, account, from + 1)
  }

  /**
   * The account `account` names: from the first matching entry, the alias
   * checked before the number; the given string fills the field it matched.
   */
  function NormalizedAccount(accounts: seq<Account>, account: string): Result<Account, Error> {
    match FirstMatch(accounts, account, 0)
    case None => Err(YoloError(UnknownAccount(account)))
    case Some(i) =>
      var entry := accounts[i];
      if entry.name == account then Ok(Account(account, entry.accountNumber, entry.defaultRegion))
      else Ok(Account(entry.name, account, entry.defaultRegion))
  }

  /** The for-else loop over the `accounts` section. */
  method NormalizeAccount(yf: YoloFile, account: string) returns (r: Result<Account, Error>)
    ensures r == NormalizedAccount(yf.accounts, account)
  {
    var i := 0;
    while i < |yf.accounts|
      invariant i <= |yf.accounts|
      invariant forall k :: 0 <= k < i ==> !Matches(yf.accounts[k], account)
    {
      var acct := yf.accounts[i];
      if acct.name == account {
        return Ok(Account(account, acct.accountNumber, acct.defaultRegion));
      } else if acct.accountNumber == account {
        return Ok(Account(acct.name, account, acct.defaultRegion));
      }
      i := i + 1;
    }
    return Err(YoloError(UnknownAccount(account)));
  }

  /**
   * Normalisation returns the first entry, in list order, that has `account`
   * as its alias or its number, unchanged; it fails exactly when no entry does.
   */
  lemma NormalizedAccountIsFirstMatch(accounts: seq<Account>, account: string)
    ensures NormalizedAccount(accounts, account).Err? <==>
      forall k :: 0 <= k < |accounts| ==> !Matches(accounts[k], account)
    ensures NormalizedAccount(accounts, account).Err? ==>
      NormalizedAccount(accounts, account).error == YoloError(UnknownAccount(account))
    ensures NormalizedAccount(accounts, account).Ok? ==>
      exists i :: 0 <= i < |accounts| && NormalizedAccount(accounts, account).value == accounts[i]
        && Matches(accounts[i], account)
        && forall k :: 0 <= k < i ==> !Matches(accounts[k], account)
  {
    match FirstMatch(accounts, account, 0)
    case None =>
    case Some(i) =>
      assert NormalizedAccount(accounts, account).value == accounts[i];
  }

  /** An account found by its alias keeps the alias; one found by its number keeps the number. */
  lemma NormalizedAccountKeepsInput(accounts: seq<Account>, account: string)
    requires NormalizedAccount(accounts, account).Ok?
    ensures var a := NormalizedAccount(accounts, account).value;
      a.name == account || a.accountNumber == account
  {
  }
}
