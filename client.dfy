/**
 * The decisions `YoloClient` makes before and around its AWS calls: the names
 * it gives stacks and buckets, which stages an operation covers, which command
 * line flag combinations it refuses, what it does with an existing stack, which
 * files of a template directory it deploys, and how it assembles and stores
 * the SSM parameters of a service.
 *
 * AWS replies (does the stack exist, its details, the stack events, the SSM
 * listing), the directory listing and the values typed at the prompts are
 * parameters.
 */
module Client {
  import opened Wrappers
  import opened Exceptions
  import opened Strings
  import opened Const
  import opened YoloFiles
  import Waiter

  // ---------------------------------------------------------------------------
  // Stack and bucket names

  /** The application bucket of an account: `{app}-{account}`. */
  function AppBucketName(appName: string, accountNumber: string): string {
    appName + "-" + accountNumber
  }

  /** The account ("baseline") stack: upper-case `BASELINE`, kept for existing stacks. */
  function AccountStackName(appName: string, accountNumber: string): string {
    appName + "-BASELINE-" + accountNumber
  }

  /** The account bucket: lower-case `baseline`, because S3 outside us-east-1 needs it. */
  function AccountBucketName(appName: string, accountNumber: string): string {
    appName + "-baseline-" + accountNumber
  }

  /** The stack of a stage: `{app}-{account}-{stage}`. */
  function StageStackName(appName: string, accountNumber: string, stage: string): string {
    appName + "-" + accountNumber + "-" + stage
  }

  /** Reads account and stage back from a stage stack name of application `appName`. */
  function ParseStageStackName(appName: string, name: string): Option<(string, string)> {
    var p := appName + "-";
    if StartsWith(name, p) then
      var rest := name[|p|..];
      FindLeftmost(rest, "-");
      match Find(rest, "-")
      case None => None
      case Some(i) => Some((rest[..i], rest[i + 1..]))
    else None
  }

  /** A stage stack name determines its account and stage when the account has no dash (account numbers are digits). */
  lemma StageStackNameRoundTrip(appName: string, accountNumber: string, stage: string)
    requires '-' !in accountNumber
    ensures ParseStageStackName(appName, StageStackName(appName, accountNumber, stage)) == Some((accountNumber, stage))
  {
    var name := StageStackName(appName, accountNumber, stage);
    var p := appName + "-";
    var rest := accountNumber + "-" + stage;
    assert name == p + rest;
    assert name[..|p|] == p;
    assert name[|p|..] == rest;
    assert rest == accountNumber + ['-'] + stage;
    FindCharAfter(accountNumber, '-', stage);
    assert rest[..|accountNumber|] == accountNumber;
    assert rest[|accountNumber| + 1..] == stage;
  }

  /** The three per-account resources never share a name. */
  lemma AccountResourceNamesDiffer(appName: string, accountNumber: string)
    ensures AccountStackName(appName, accountNumber) != AccountBucketName(appName, accountNumber)
    ensures AppBucketName(appName, accountNumber) != AccountStackName(appName, accountNumber)
    ensures AppBucketName(appName, accountNumber) != AccountBucketName(appName, accountNumber)
  {
    var k := |appName| + 1;
    assert AccountStackName(appName, accountNumber)[k] == 'B';
    assert AccountBucketName(appName, accountNumber)[k] == 'b';
    assert |AppBucketName(appName, accountNumber)| + 9 == |AccountStackName(appName, accountNumber)|;
    assert |AppBucketName(appName, accountNumber)| + 9 == |AccountBucketName(appName, accountNumber)|;
  }

  /** With a numeric account, no stage stack can be mistaken for an account stack. */
  lemma StageStackIsNotBaseline(appName: string, accountNumber: string, stage: string, other: string)
    requires |accountNumber| > 0 && AllDigits(accountNumber)
    ensures StageStackName(appName, accountNumber, stage) != AccountStackName(appName, other)
  {
    var k := |appName| + 1;
    assert StageStackName(appName, accountNumber, stage)[k] == accountNumber[0];
    assert IsDigit(accountNumber[0]);
    assert AccountStackName(appName, other)[k] == 'B';
  }

  // ---------------------------------------------------------------------------
  // Which stages an operation covers

  /** One `(stage, account, region)` triple. */
  datatype StageTarget = StageTarget(stage: string, account: string, region: string)

  /**
   * The targets of a stage-scoped command: the named stage, configured or
   * ad hoc, or every configured stage. The `default` stage itself cannot be
   * named, and an ad-hoc stage without a `default` entry is a `KeyError`.
   */
  function StagesAccountsRegions(yf: YoloFile, stage: Option<string>): (r: Result<set<StageTarget>, Error>)
    ensures stage == Some(DEFAULT_STAGE) ==> r == Err(YoloError(InvalidStage(DEFAULT_STAGE)))
    ensures stage.Some? && stage.value != DEFAULT_STAGE ==>
      (r.Ok? <==> GetStageConfig(yf, stage.value).Ok?) &&
      (r.Ok? ==> var cfg := GetStageConfig(yf, stage.value).value;
        r.value == {StageTarget(stage.value, cfg.account, cfg.region)}) &&
      (r.Err? ==> r.error == KeyError(DEFAULT_STAGE))
    ensures stage.None? ==> (r.Ok? &&
      forall t :: t in r.value <==>
        t.stage in yf.stages && t.account == yf.stages[t.stage].account && t.region == yf.stages[t.stage].region)
  {
    match stage
    case Some(s) =>
      if s == DEFAULT_STAGE then Err(YoloError(InvalidStage(s)))
      else if s in yf.stages then Ok({StageTarget(s, yf.stages[s].account, yf.stages[s].region)})
      else if DEFAULT_STAGE in yf.stages then
        Ok({StageTarget(s, yf.stages[DEFAULT_STAGE].account, yf.stages[DEFAULT_STAGE].region)})
      else Err(KeyError(DEFAULT_STAGE))
    case None =>
      Ok(set n | n in yf.stages :: StageTarget(n, yf.stages[n].account, yf.stages[n].region))
  }

  /** Listing every stage yields exactly one target per configured stage. */
  lemma OneTargetPerStage(yf: YoloFile, n: string)
    requires n in yf.stages
    ensures var r := StagesAccountsRegions(yf, None);
      r.Ok? && (exists t :: t in r.value && t.stage == n) &&
      forall t, u :: t in r.value && u in r.value && t.stage == n && u.stage == n ==> t == u
  {
    var r := StagesAccountsRegions(yf, None);
    assert StageTarget(n, yf.stages[n].account, yf.stages[n].region) in r.value;
  }

  // ---------------------------------------------------------------------------
  // Command line flag checks

  /**
   * `deploy-infra`: exactly one of `--stage` and `--account`; an account stack
   * is never recreated and needs `account` templates.
   */
  function DeployInfraCheck(yf: YoloFile, stage: Option<string>, account: Option<string>, recreate: bool): (r: Result<(), Error>)
    ensures r.Ok? <==> ((stage.Some? <==> account.None?) &&
      (account.Some? ==> !recreate && IsBaselineInfrastructureDefined(yf)))
    ensures r.Err? ==> r.error.YoloError?
    ensures r == Err(YoloError(StageXorAccount)) <==> (stage.Some? <==> account.Some?)
    ensures r == Err(YoloError(RecreateAccountStack)) <==> stage.None? && account.Some? && recreate
  {
    if stage.Some? == account.Some? then Err(YoloError(StageXorAccount))
    else if account.Some? && recreate then Err(YoloError(RecreateAccountStack))
    else if account.Some? && !IsBaselineInfrastructureDefined(yf) then Err(YoloError(NoAccountTemplates))
    else Ok(())
  }

  /** `deploy-lambda`: exactly one of `--version` and `--from-local`. */
  function DeployLambdaCheck(version: Option<string>, fromLocal: bool): (r: Result<(), Error>)
    ensures r.Ok? <==> (version.Some? != fromLocal)
    ensures version.None? && !fromLocal ==> r == Err(YoloError(NoVersionNorLocal))
    ensures version.Some? && fromLocal ==> r == Err(YoloError(VersionAndLocal))
  {
    if version.None? && !fromLocal then Err(YoloError(NoVersionNorLocal))
    else if version.Some? && fromLocal then Err(YoloError(VersionAndLocal))
    else Ok(())
  }

  // ---------------------------------------------------------------------------
  // Stack tags and the create / update / recreate decision

  /** The tags every deployed stack carries: the tool version, and the protection tag when protected. */
  function StackTags(toolVersion: string, protected: bool): (tags: seq<Tag>)
    ensures |tags| >= 1 && tags[0] == CreatedWithVersionTag(toolVersion)
    ensures PROTECTED_TAG in tags <==> protected
    ensures forall t :: t in tags ==> t == CreatedWithVersionTag(toolVersion) || t == PROTECTED_TAG
  {
    assert CreatedWithVersionTag(toolVersion).key != PROTECTED_TAG.key;
    [CreatedWithVersionTag(toolVersion)] + (if protected then [PROTECTED_TAG] else [])
  }

  /** What `describe_stacks` says about one stack; an absent termination-protection flag reads as false. */
  datatype StackDetails = StackDetails(terminationProtection: bool, tags: seq<Tag>)

  /** Protected either by CloudFormation termination protection or by the exact protection tag. */
  predicate IsProtected(details: StackDetails) {
    details.terminationProtection || PROTECTED_TAG in details.tags
  }

  datatype StackAction = CreateStack | UpdateStack | RecreateStack | DryRunChangeSet

  /**
   * The outcome of the decision, and whether termination protection is
   * switched on first (a stack protected only by the tag gets it on the way
   * to the refusal).
   */
  datatype StackPlan = StackPlan(enableTerminationProtection: bool, outcome: Result<StackAction, Error>)

  /**
   * What a deployment does with stack `stackName`, given whether it exists
   * and the stacks `describe_stacks` returned for it.
   */
  function DecideStackAction(stackName: string, stackExists: bool, stacks: seq<StackDetails>, recreate: bool, dryRun: bool): (r: StackPlan)
    ensures dryRun ==> (!r.enableTerminationProtection &&
      r.outcome == (if stackExists then Ok(DryRunChangeSet) else Err(YoloError(NoStackForDryRun))))
    ensures !dryRun && !stackExists ==> r == StackPlan(false, Ok(CreateStack))
    ensures !dryRun && stackExists && !recreate ==> r == StackPlan(false, Ok(UpdateStack))
    ensures !dryRun && stackExists && recreate && |stacks| != 1 ==> r.outcome.Err? && r.outcome.error.ValueError?
    ensures !dryRun && stackExists && recreate && |stacks| == 1 ==>
      (r.outcome == Ok(RecreateStack) <==> !IsProtected(stacks[0])) &&
      (r.outcome.Err? <==> IsProtected(stacks[0])) &&
      (r.outcome.Err? ==> r.outcome.error == YoloError(StackProtected(stackName))) &&
      (r.enableTerminationProtection <==> !stacks[0].terminationProtection && PROTECTED_TAG in stacks[0].tags)
  {
    if dryRun then
      StackPlan(false, if stackExists then Ok(DryRunChangeSet) else Err(YoloError(NoStackForDryRun)))
    else if !stackExists then StackPlan(false, Ok(CreateStack))
    else if recreate then
      if |stacks| != 1 then StackPlan(false, Err(ValueError("expected exactly one stack")))
      else
        var theStack := stacks[0];
        if theStack.terminationProtection then StackPlan(false, Err(YoloError(StackProtected(stackName))))
        else if PROTECTED_TAG in theStack.tags then StackPlan(true, Err(YoloError(StackProtected(stackName))))
        else StackPlan(false, Ok(RecreateStack))
    else StackPlan(false, Ok(UpdateStack))
  }

  /** A stack is only ever torn down and recreated when it was asked for and nothing protects it. */
  lemma NeverRecreatesProtected(stackName: string, stackExists: bool, stacks: seq<StackDetails>, recreate: bool, dryRun: bool)
    requires DecideStackAction(stackName, stackExists, stacks, recreate, dryRun).outcome == Ok(RecreateStack)
    ensures stackExists && recreate && !dryRun && |stacks| == 1 && !IsProtected(stacks[0])
  {
  }

  /** A stack deployed for a protected stage carries the tag, so a later recreate is refused. */
  lemma ProtectedStackRefusesRecreate(stackName: string, toolVersion: string, terminationProtection: bool)
    ensures DecideStackAction(stackName, true, [StackDetails(terminationProtection, StackTags(toolVersion, true))], true, false).outcome
      == Err(YoloError(StackProtected(stackName)))
  {
    assert PROTECTED_TAG in StackTags(toolVersion, true);
  }

  // ---------------------------------------------------------------------------
  // Errors of a stack operation

  const NO_UPDATES: string := "No updates are to be performed"
  const TERMINATION_PROTECTION_ENABLED: string := "TerminationProtection is enabled"
  const VALIDATION_ERROR: string := "ValidationError"
  const UNKNOWN_CAUSE: string := "unknown"

  /** The first `ResourceStatusReason` among the stack events, in event order. */
  function FirstReason(events: seq<Option<string>>): (r: Option<string>)
    ensures r.Some? <==> exists i :: 0 <= i < |events| && events[i].Some?
    ensures r.Some? ==> exists i :: 0 <= i < |events| && events[i] == r && forall k :: 0 <= k < i ==> events[k].None?
  {
    if events == [] then None
    else if events[0].Some? then events[0]
    else
      var r := FirstReason(events[1..]);
      assert r.Some? ==> exists i :: 0 <= i < |events| && events[i] == r && forall k :: 0 <= k < i ==> events[k].None? by {
        if r.Some? {
          var i :| 0 <= i < |events[1..]| && events[1..][i] == r && forall k :: 0 <= k < i ==> events[1..][k].None?;
          assert events[i + 1] == r;
        }
      }
      r
  }

  /** The possible cause reported for a failed stack: the first event reason, else `unknown`. */
  function CauseOf(events: seq<Option<string>>): string {
    match FirstReason(events)
    case Some(reason) => reason
    case None => UNKNOWN_CAUSE
  }

  /** The loop over the stack events that stops at the first one with a reason. */
  method PossibleCause(events: seq<Option<string>>) returns (cause: string)
    ensures cause == CauseOf(events)
  {
    cause := UNKNOWN_CAUSE;
    var i := 0;
    while i < |events|
      invariant 0 <= i <= |events|
      invariant forall k :: 0 <= k < i ==> events[k].None?
    {
      if events[i].Some? {
        cause := events[i].value;
        assert FirstReason(events).Some?;
        return;
      }
      i := i + 1;
    }
  }

  /**
   * How a stack operation's failure reaches the user. `outcome` is how the
   * create, update or recreate call and the wait after it ended. A
   * `ClientError` saying "no updates" is not an error, and any other
   * `ClientError` becomes a `YoloError`. A `CloudFormationError` from the
   * waiter is a failed stack status: it becomes a `YoloError` with the first
   * event reason as its possible cause. Every other exception, such as the
   * waiter's timeout or its `IndexError` on an empty reply, passes through
   * unchanged.
   */
  function StackOperationResult(stackName: string, outcome: Result<(), Error>, events: seq<Option<string>>): (r: Result<(), Error>)
    ensures r.Ok? <==> outcome.Ok? || (outcome.error.ClientError? && Contains(outcome.error.message, NO_UPDATES))
    ensures outcome.Err? && outcome.error.CloudFormationError? ==> r == Err(YoloError(DeployFailed(CauseOf(events))))
    ensures outcome.Err? && outcome.error.ClientError? && !Contains(outcome.error.message, NO_UPDATES) ==>
      r.Err? && r.error.YoloError? &&
      (Contains(outcome.error.message, TERMINATION_PROTECTION_ENABLED) ==> r == Err(YoloError(TerminationProtected(stackName))))
    ensures outcome.Err? && !outcome.error.ClientError? && !outcome.error.CloudFormationError? ==> r == outcome
    ensures (r.Err? && !r.error.YoloError?) <==>
      (outcome.Err? && !outcome.error.ClientError? && !outcome.error.CloudFormationError? && !outcome.error.YoloError?)
  {
    match outcome
    case Ok(_) => Ok(())
    case Err(ClientError(message)) =>
      if Contains(message, NO_UPDATES) then Ok(())
      else if Contains(message, TERMINATION_PROTECTION_ENABLED) then Err(YoloError(TerminationProtected(stackName)))
      else if Contains(message, VALIDATION_ERROR) then Err(YoloError(TemplateInvalid(message)))
      else Err(YoloError(StackOperationFailed(message)))
    case Err(CloudFormationError(_)) => Err(YoloError(DeployFailed(CauseOf(events))))
    case Err(e) => Err(e)
  }

  /**
   * Of the exceptions the waiter raises, exactly its timeout and its
   * `IndexError` on an empty `Stacks` reply reach the user as something
   * other than a `YoloError`.
   */
  lemma WaiterErrorsEscape(stackName: string, t: Waiter.WaiterType, replies: nat -> Waiter.Reply, events: seq<Option<string>>)
    ensures var waited := Waiter.WaitFrom(t, replies, 0).0;
      var r := StackOperationResult(stackName, waited, events);
      (r.Err? && !r.error.YoloError?) <==> (waited == Err(IndexError) || waited == Err(RuntimeError(Waiter.TIMEOUT_MESSAGE)))
  {
    Waiter.WaitOutcome(t, replies);
  }

  // ---------------------------------------------------------------------------
  // The template directory

  /** A CloudFormation template file: its name ends in `yaml`, `yml` or `json`. */
  predicate IsTemplateFile(f: string) {
    EndsWith(f, "yaml") || EndsWith(f, "yml") || EndsWith(f, "json")
  }

  predicate IsMasterTemplate(f: string) {
    StartsWith(f, "master.")
  }

  /** The master template and all template files to upload, in listing order. */
  datatype Templates = Templates(master: string, files: seq<string>)

  /**
   * The selection as written: the single master template is unpacked before
   * the empty-directory check, so that check can never stop the deployment
   * and an empty directory raises `ValueError` instead.
   */
  function SelectTemplatesAsWritten(files: seq<string>): (r: Result<Option<Templates>, Error>)
    ensures r != Ok(None)
    ensures r.Err? <==> |Filter(Filter(files, IsTemplateFile), IsMasterTemplate)| != 1
  {
    var cfFiles := Filter(files, IsTemplateFile);
    var masters := Filter(cfFiles, IsMasterTemplate);
    if |masters| != 1 then Err(ValueError("expected exactly one master template"))
    else if |cfFiles| == 0 then Ok(None)
    else Ok(Some(Templates(masters[0], cfFiles)))
  }

  /** A directory without template files raises `ValueError`, not the friendly message. */
  lemma AsWrittenEmptyDirectoryRaises(files: seq<string>)
    requires forall f :: f in files ==> !IsTemplateFile(f)
    ensures SelectTemplatesAsWritten(files).Err? && SelectTemplatesAsWritten(files).error.ValueError?
  {
    var cfFiles := Filter(files, IsTemplateFile);
    FilterNone(files, IsTemplateFile);
    assert Filter(cfFiles, IsMasterTemplate) == [];
  }

  /**
   * The selection with the empty-directory check first: stop quietly when
   * there is no template file, else require exactly one master template.
   */
  function SelectTemplates(files: seq<string>): (r: Result<Option<Templates>, Error>)
    ensures r == Ok(None) <==> forall f :: f in files ==> !IsTemplateFile(f)
    ensures r.Err? ==> r.error.ValueError?
    ensures (exists f :: f in files && IsTemplateFile(f)) ==>
      (r.Err? <==> |Filter(Filter(files, IsTemplateFile), IsMasterTemplate)| != 1)
    ensures r.Ok? && r.value.Some? ==> var t := r.value.value;
      t.files == Filter(files, IsTemplateFile) &&
      t.master in files && IsTemplateFile(t.master) && IsMasterTemplate(t.master) &&
      forall f :: f in t.files && IsMasterTemplate(f) ==> f == t.master
  {
    var cfFiles := Filter(files, IsTemplateFile);
    if |cfFiles| == 0 then Ok(None)
    else
      assert cfFiles[0] in cfFiles;
      var masters := Filter(cfFiles, IsMasterTemplate);
      if |masters| != 1 then Err(ValueError("expected exactly one master template"))
      else
        assert masters[0] in masters;
        assert forall f :: f in masters ==> f == masters[0];
        Ok(Some(Templates(masters[0], cfFiles)))
  }

  /** Whenever there is a template file, the corrected selection behaves exactly as written. */
  lemma SelectTemplatesAgrees(files: seq<string>)
    requires exists f :: f in files && IsTemplateFile(f)
    ensures SelectTemplates(files) == SelectTemplatesAsWritten(files)
  {
    var f :| f in files && IsTemplateFile(f);
    assert f in Filter(files, IsTemplateFile);
  }

  /** The S3 key a template file is uploaded to. */
  function UploadKey(folderPrefix: string, file: string): string {
    folderPrefix + "/" + file
  }

  /** The URL CloudFormation is given for the master template. */
  function MasterUrl(bucket: string, folderPrefix: string, master: string): string {
    "https://s3.amazonaws.com/" + bucket + "/" + folderPrefix + "/" + master
  }

  /** The master template URL points at one of the uploaded keys. */
  lemma MasterIsUploaded(files: seq<string>, bucket: string, folderPrefix: string)
    requires SelectTemplates(files).Ok? && SelectTemplates(files).value.Some?
    ensures var t := SelectTemplates(files).value.value;
      exists f :: f in t.files &&
        MasterUrl(bucket, folderPrefix, t.master) == "https://s3.amazonaws.com/" + bucket + "/" + UploadKey(folderPrefix, f)
  {
    var t := SelectTemplates(files).value.value;
    assert t.master in t.files;
    assert MasterUrl(bucket, folderPrefix, t.master) == "https://s3.amazonaws.com/" + bucket + "/" + UploadKey(folderPrefix, t.master);
  }

  // ---------------------------------------------------------------------------
  // SSM parameters: merging, selection, values and storage

  /** The parameter names, in list order. */
  function Names(ps: seq<ParamSpec>): (r: seq<string>)
    ensures |r| == |ps|
    ensures forall i :: 0 <= i < |ps| ==> r[i] == ps[i].name
  {
    seq(|ps|, i requires 0 <= i < |ps| => ps[i].name)
  }

  /** The last entry named `name`: the one a dict keyed by name keeps. */
  function LastNamed(ps: seq<ParamSpec>, name: string): (r: Option<ParamSpec>)
    ensures r.Some? <==> name in Names(ps)
    ensures r.Some? ==> r.value in ps && r.value.name == name
  {
    if ps == [] then None
    else
      var init := ps[..|ps| - 1];
      assert Names(ps) == Names(init) + [ps[|ps| - 1].name];
      if ps[|ps| - 1].name == name then Some(ps[|ps| - 1]) else LastNamed(init, name)
  }

  /** Later entries win: the last entry of `a + b` is in `b` whenever `b` has one. */
  lemma {:induction false} LastNamedAppend(a: seq<ParamSpec>, b: seq<ParamSpec>, name: string)
    ensures LastNamed(a + b, name) == if LastNamed(b, name).Some? then LastNamed(b, name) else LastNamed(a, name)
    decreases |b|
  {
    if b == [] {
      assert a + b == a;
    } else {
      var init := b[..|b| - 1];
      assert (a + b)[..|a + b| - 1] == a + init;
      LastNamedAppend(a, init, name);
    }
  }

  /**
   * The default parameters overridden by the stage-specific ones: one entry
   * per declared name, in order of first declaration, each the last
   * declaration of that name.
   */
  function Merged(defaults: seq<ParamSpec>, stageParams: seq<ParamSpec>): (r: seq<ParamSpec>)
    ensures Names(r) == Dedup(Names(defaults + stageParams))
  {
    var all := defaults + stageParams;
    var keys := Dedup(Names(all));
    seq(|keys|, j requires 0 <= j < |keys| => LastNamed(all, keys[j]).value)
  }

  /** Every merged entry is the last declaration of its name. */
  lemma MergedEntries(defaults: seq<ParamSpec>, stageParams: seq<ParamSpec>, i: nat)
    requires i < |Merged(defaults, stageParams)|
    ensures Some(Merged(defaults, stageParams)[i]) == LastNamed(defaults + stageParams, Merged(defaults, stageParams)[i].name)
  {
  }

  /** A stage-specific parameter overrides the default one of the same name. */
  lemma StageParameterWins(defaults: seq<ParamSpec>, stageParams: seq<ParamSpec>, name: string)
    requires name in Names(stageParams)
    ensures LastNamed(defaults + stageParams, name) == LastNamed(stageParams, name)
  {
    LastNamedAppend(defaults, stageParams, name);
  }

  /** A default parameter the stage does not mention is kept. */
  lemma DefaultParameterKept(defaults: seq<ParamSpec>, stageParams: seq<ParamSpec>, name: string)
    requires name !in Names(stageParams)
    ensures LastNamed(defaults + stageParams, name) == LastNamed(defaults, name)
  {
    LastNamedAppend(defaults, stageParams, name);
  }

  lemma NamesAppendOne(ps: seq<ParamSpec>, p: ParamSpec)
    ensures Names(ps + [p]) == Names(ps) + [p.name]
  {
  }

  /** Declaring one more parameter adds its name once and makes it the one kept under that name. */
  lemma MergeStep(ps: seq<ParamSpec>, p: ParamSpec)
    ensures Dedup(Names(ps + [p])) ==
      if p.name in Dedup(Names(ps)) then Dedup(Names(ps)) else Dedup(Names(ps)) + [p.name]
    ensures forall k :: LastNamed(ps + [p], k) == if k == p.name then Some(p) else LastNamed(ps, k)
  {
    NamesAppendOne(ps, p);
    var ns := Names(ps + [p]);
    assert ns[..|ns| - 1] == Names(ps);
    assert (ps + [p])[..|ps + [p]| - 1] == ps;
  }

  /**
   * The insertion-ordered dict after the declarations `ps`: its keys in
   * first-declaration order, each holding the last declaration of its name.
   */
  ghost predicate TableOf(ps: seq<ParamSpec>, keys: seq<string>, table: map<string, ParamSpec>) {
    && keys == Dedup(Names(ps))
    && (forall k :: k in table <==> k in keys)
    && (forall k :: k in table ==> Some(table[k]) == LastNamed(ps, k))
  }

  /** Inserting one more declaration keeps the dict's keys in first-declaration order and its values the last declared. */
  lemma TableStep(ps: seq<ParamSpec>, p: ParamSpec, keys: seq<string>, table: map<string, ParamSpec>)
    requires TableOf(ps, keys, table)
    ensures TableOf(ps + [p], if p.name in table then keys else keys + [p.name], table[p.name := p])
  {
    MergeStep(ps, p);
  }

  /** Inserting a declaration into the dict: a new name is appended to the keys, and the value is overwritten. */
  function DictInsert(dict: (seq<string>, map<string, ParamSpec>), p: ParamSpec): (seq<string>, map<string, ParamSpec>) {
    (if p.name in dict.1 then dict.0 else dict.0 + [p.name], dict.1[p.name := p])
  }

  /** The dict (keys in insertion order, and the table) after inserting `ps` in order. */
  function DictOf(ps: seq<ParamSpec>): (seq<string>, map<string, ParamSpec>)
    decreases |ps|
  {
    if ps == [] then ([], map[]) else DictInsert(DictOf(ps[..|ps| - 1]), ps[|ps| - 1])
  }

  lemma {:induction false} DictOfTable(ps: seq<ParamSpec>)
    ensures TableOf(ps, DictOf(ps).0, DictOf(ps).1)
    decreases |ps|
  {
    if ps != [] {
      var init := ps[..|ps| - 1];
      DictOfTable(init);
      assert ps == init + [ps[|ps| - 1]];
      TableStep(init, ps[|ps| - 1], DictOf(init).0, DictOf(init).1);
    }
  }

  /** The values of the dict, in the order of its keys. */
  function Values(keys: seq<string>, table: map<string, ParamSpec>): seq<ParamSpec>
    requires forall k :: k in keys ==> k in table
  {
    seq(|keys|, j requires 0 <= j < |keys| => table[keys[j]])
  }

  /** A dict holding the last declaration of each name, read in first-declaration order, is the merge. */
  lemma MergedFromTable(defaults: seq<ParamSpec>, stageParams: seq<ParamSpec>, keys: seq<string>, table: map<string, ParamSpec>)
    requires TableOf(defaults + stageParams, keys, table)
    ensures (forall k :: k in keys ==> k in table) && Values(keys, table) == Merged(defaults, stageParams)
  {
    var all := defaults + stageParams;
    var m := Merged(defaults, stageParams);
    var t := Values(keys, table);
    assert |m| == |keys|;
    forall j | 0 <= j < |keys| ensures t[j] == m[j] {
      assert keys[j] in table;
      assert m[j] == LastNamed(all, keys[j]).value;
    }
  }

  /** The dict built from the defaults and then the stage parameters holds exactly the merge. */
  lemma DictOfMerged(defaults: seq<ParamSpec>, stageParams: seq<ParamSpec>)
    ensures var dict := DictOf(defaults + stageParams);
      (forall k :: k in dict.0 ==> k in dict.1) && Values(dict.0, dict.1) == Merged(defaults, stageParams)
  {
    var dict := DictOf(defaults + stageParams);
    DictOfTable(defaults + stageParams);
    MergedFromTable(defaults, stageParams, dict.0, dict.1);
  }

  /**
   * The two dict comprehensions and `update`: inserting the defaults and then
   * the stage parameters one by one into an insertion-ordered dict keyed by
   * name gives the same keys, order and values.
   */
  method MergeParameters(defaults: seq<ParamSpec>, stageParams: seq<ParamSpec>) returns (merged: seq<ParamSpec>)
    ensures merged == Merged(defaults, stageParams)
  {
    var all := defaults + stageParams;
    var keys: seq<string> := [];
    var table: map<string, ParamSpec> := map[];
    var i := 0;
    while i < |all|
      invariant 0 <= i <= |all|
      invariant (keys, table) == DictOf(all[..i])
    {
      var p := all[i];
      assert all[..i + 1][..i] == all[..i];
      if p.name !in table {
        keys := keys + [p.name];
      }
      table := table[p.name := p];
      i := i + 1;
    }
    assert all[..i] == all;
    DictOfMerged(defaults, stageParams);
    merged := Values(keys, table);
  }


  /**
   * Restricts the merged parameters to the names asked for (all of them when
   * none are); names that are not declared are an error listing them sorted.
   */
  function SelectParameters(merged: seq<ParamSpec>, requested: seq<string>): (r: Result<seq<ParamSpec>, Error>)
    ensures r.Err? <==> exists n :: n in requested && n !in Names(merged)
    ensures r.Err? ==> (r.error.YoloError? && r.error.reason.UnknownParameters? &&
      var unknown := r.error.reason.names;
      Distinct(unknown) && OrderedBy(unknown, (x: string) => x, false) &&
      forall n :: n in unknown <==> n in requested && n !in Names(merged))
    ensures |requested| == 0 ==> r == Ok(merged)
    ensures r.Ok? ==> forall p :: p in r.value <==> p in merged && (|requested| == 0 || p.name in requested)
  {
    if |requested| == 0 then Ok(merged)
    else
      var names := Names(merged);
      var unknown := SortedSet(Filter(requested, (n: string) => n !in names));
      if |unknown| > 0 then
        assert unknown[0] in unknown;
        Err(YoloError(UnknownParameters(unknown)))
      else
        Ok(Filter(merged, (p: ParamSpec) => p.name in requested))
  }

  /** Where a parameter's value comes from, in order of precedence. */
  datatype ValueSource = Copied(value: string) | Default(value: string) | PromptMultiline | PromptHidden

  /**
   * With a stage to copy from, only a copied value is used; otherwise, with
   * `--use-defaults`, the declared default; failing both the user is
   * prompted, for multi-line input when the parameter is declared multiline.
   */
  function ValueSourceFor(p: ParamSpec, copied: Option<map<string, string>>, useDefaults: bool): (r: ValueSource)
    ensures r.Copied? <==> copied.Some? && p.name in copied.value
    ensures r.Copied? ==> r.value == copied.value[p.name]
    ensures r.Default? <==> copied.None? && useDefaults && p.value.Some?
    ensures r.Default? ==> r.value == p.value.value
    ensures r.PromptMultiline? <==> p.multiline && !r.Copied? && !r.Default?
  {
    if copied.Some? then
      if p.name in copied.value then Copied(copied.value[p.name])
      else if p.multiline then PromptMultiline else PromptHidden
    else if useDefaults && p.value.Some? then Default(p.value.value)
    else if p.multiline then PromptMultiline else PromptHidden
  }

  /** Copying from a stage disables the declared defaults. */
  lemma CopyIgnoresDefaults(p: ParamSpec, copied: map<string, string>)
    ensures ValueSourceFor(p, Some(copied), true) == ValueSourceFor(p, Some(copied), false)
  {
  }

  /** The value stored for `p`; `entered` is what the user types at the prompt for a name. */
  function ParameterValue(p: ParamSpec, copied: Option<map<string, string>>, useDefaults: bool, entered: string -> string): string {
    match ValueSourceFor(p, copied, useDefaults)
    case Copied(v) => v
    case Default(v) => v
    case _ => entered(p.name)
  }

  /** The SSM path holding the latest parameters of a service stage. */
  function SsmParameterPath(service: string, stage: string): string {
    "/" + service + "/" + stage + "/latest/"
  }

  /** The SSM name of one parameter. */
  function SsmParameterName(service: string, stage: string, name: string): string {
    SsmParameterPath(service, stage) + name
  }

  /** The parameter store after writing `params` in order, each overwriting. */
  function Stored(before: map<string, string>, service: string, stage: string, params: seq<ParamSpec>,
                  copied: Option<map<string, string>>, useDefaults: bool, entered: string -> string): map<string, string>
  {
    if params == [] then before
    else
      var last := params[|params| - 1];
      Stored(before, service, stage, params[..|params| - 1], copied, useDefaults, entered)
        [SsmParameterName(service, stage, last.name) := ParameterValue(last, copied, useDefaults, entered)]
  }

  /**
   * After the writes, each written name holds the value of the last
   * parameter of that name, and every other entry of the store is unchanged.
   */
  lemma {:induction false} StoredValues(before: map<string, string>, service: string, stage: string, params: seq<ParamSpec>,
                      copied: Option<map<string, string>>, useDefaults: bool, entered: string -> string, key: string)
    ensures var after := Stored(before, service, stage, params, copied, useDefaults, entered);
      (forall n :: n in Names(params) && key == SsmParameterName(service, stage, n) ==>
        key in after && after[key] == ParameterValue(LastNamed(params, n).value, copied, useDefaults, entered)) &&
      ((forall n :: n in Names(params) ==> key != SsmParameterName(service, stage, n)) ==>
        (key in after <==> key in before) && (key in before ==> after[key] == before[key]))
    decreases |params|
  {
    if params != [] {
      var init := params[..|params| - 1];
      var last := params[|params| - 1];
      assert Names(params) == Names(init) + [last.name];
      StoredValues(before, service, stage, init, copied, useDefaults, entered, key);
      forall n | n in Names(params) && key == SsmParameterName(service, stage, n)
        ensures n == last.name || SsmParameterName(service, stage, last.name) != key
      {
        if SsmParameterName(service, stage, last.name) == key {
          var path := SsmParameterPath(service, stage);
          assert key[|path|..] == n;
          assert key[|path|..] == last.name;
        }
      }
    }
  }

  /** The SSM parameter store: names to values, every write overwriting. */
  class ParameterStore {
    var values: map<string, string>

    constructor(values: map<string, string>)
      ensures this.values == values
    {
      this.values := values;
    }

    /** `put_parameter` with `Overwrite=True`. */
    method Put(name: string, value: string)
      modifies this
      ensures values == old(values)[name := value]
    {
      values := values[name := value];
    }
  }

  /** The loop of `put_parameters` that resolves each value and writes it under the stage's path. */
  method PutParameters(store: ParameterStore, service: string, stage: string, params: seq<ParamSpec>,
                       copied: Option<map<string, string>>, useDefaults: bool, entered: string -> string)
    modifies store
    ensures store.values == Stored(old(store.values), service, stage, params, copied, useDefaults, entered)
  {
    var i := 0;
    while i < |params|
      invariant 0 <= i <= |params|
      invariant store.values == Stored(old(store.values), service, stage, params[..i], copied, useDefaults, entered)
    {
      var p := params[i];
      var value: string;
      match ValueSourceFor(p, copied, useDefaults) {
        case Copied(v) => value := v;
        case Default(v) => value := v;
        case PromptMultiline => value := entered(p.name);
        case PromptHidden => value := entered(p.name);
      }
      assert params[..i + 1][..i] == params[..i];
      store.Put(SsmParameterName(service, stage, p.name), value);
      i := i + 1;
    }
    assert params[..i] == params;
  }

  /**
   * The parameters `put_parameters` sets for a service stage: the declared
   * defaults overridden by the stage's own, restricted to the requested names.
   * A service without a `deploy.parameters` section is a `KeyError`.
   */
  function ParametersToSet(yf: YoloFile, service: string, stage: string, requested: seq<string>): (r: Result<seq<ParamSpec>, Error>)
    ensures service !in yf.services ==> r == Err(KeyError(service))
    ensures r.Ok? ==> (service in yf.services && yf.services[service].parameters.Some? &&
      var stages := yf.services[service].parameters.value;
      var defaults := if DEFAULT_STAGE in stages then stages[DEFAULT_STAGE] else [];
      var own := if stage in stages then stages[stage] else [];
      forall p :: p in r.value ==> Some(p) == LastNamed(defaults + own, p.name))
    ensures service in yf.services && yf.services[service].parameters.None? ==> r == Err(KeyError("parameters"))
    ensures service in yf.services && yf.services[service].parameters.Some? ==>
      var stages := yf.services[service].parameters.value;
      var defaults := if DEFAULT_STAGE in stages then stages[DEFAULT_STAGE] else [];
      var own := if stage in stages then stages[stage] else [];
      r == SelectParameters(Merged(defaults, own), requested)
  {
    if service !in yf.services then Err(KeyError(service))
    else match yf.services[service].parameters
      case None => Err(KeyError("parameters"))
      case Some(stages) =>
        var defaults := if DEFAULT_STAGE in stages then stages[DEFAULT_STAGE] else [];
        var own := if stage in stages then stages[stage] else [];
        var merged := Merged(defaults, own);
        var r := SelectParameters(merged, requested);
        assert r.Ok? ==> forall p :: p in r.value ==> Some(p) == LastNamed(defaults + own, p.name) by {
          forall p | r.Ok? && p in r.value ensures Some(p) == LastNamed(defaults + own, p.name) {
            var i :| 0 <= i < |merged| && merged[i] == p;
            MergedEntries(defaults, own, i);
          }
        }
        r
  }

  /** The parameters of the stage to copy from, when one is given (its name and its listing page). */
  function CopiedValues(service: string, copyFrom: Option<(string, seq<(string, string)>)>): Result<Option<map<string, string>>, Error> {
    match copyFrom
    case None => Ok(None)
    case Some((copyStage, page)) =>
      match ParametersOfPage(SsmParameterPath(service, copyStage), page)
      case Err(e) => Err(e)
      case Ok(m) => Ok(Some(m))
  }

  /**
   * `put_parameters`: fetch the parameters of the stage to copy from (when
   * given), select the parameters to set, and store each one's value.
   * Nothing is stored when any step fails.
   */
  method PutParametersCommand(store: ParameterStore, yf: YoloFile, service: string, stage: string, requested: seq<string>,
                              copyFrom: Option<(string, seq<(string, string)>)>, useDefaults: bool, entered: string -> string)
    returns (r: Result<(), Error>)
    modifies store
    ensures CopiedValues(service, copyFrom).Err? ==> r == Err(IndexError)
    ensures CopiedValues(service, copyFrom).Ok? ==> (r.Ok? <==> ParametersToSet(yf, service, stage, requested).Ok?)
    ensures CopiedValues(service, copyFrom).Ok? && ParametersToSet(yf, service, stage, requested).Err? ==>
      r == Err(ParametersToSet(yf, service, stage, requested).error)
    ensures r.Err? ==> store.values == old(store.values)
    ensures r.Ok? ==> (CopiedValues(service, copyFrom).Ok? && ParametersToSet(yf, service, stage, requested).Ok? &&
      store.values == Stored(old(store.values), service, stage, ParametersToSet(yf, service, stage, requested).value,
                             CopiedValues(service, copyFrom).value, useDefaults, entered))
  {
    ghost var copiedSpec := CopiedValues(service, copyFrom);
    var copied: Option<map<string, string>> := None;
    if copyFrom.Some? {
      var fetched := GetSsmParameters(service, copyFrom.value.0, copyFrom.value.1);
      if fetched.Err? {
        return Err(fetched.error);
      }
      copied := Some(fetched.value);
    }
    assert copiedSpec == Ok(copied);
    ghost var expected := ParametersToSet(yf, service, stage, requested);
    if service !in yf.services {
      return Err(KeyError(service));
    }
    if yf.services[service].parameters.None? {
      return Err(KeyError("parameters"));
    }
    var stages := yf.services[service].parameters.value;
    var defaults := if DEFAULT_STAGE in stages then stages[DEFAULT_STAGE] else [];
    var own := if stage in stages then stages[stage] else [];
    var merged := MergeParameters(defaults, own);
    var selected := SelectParameters(merged, requested);
    assert expected == selected;
    if selected.Err? {
      return Err(selected.error);
    }
    PutParameters(store, service, stage, selected.value, copied, useDefaults, entered);
    return Ok(());
  }

  /** The parameter name `_get_ssm_parameters` reads from a full SSM name: the piece between the first and the second occurrence of the path (or to the end when it occurs once). */
  function ParameterKey(path: string, fullName: string): (r: Result<string, Error>)
    requires |path| > 0
    ensures r.Err? ==> r.error == IndexError
    ensures r.Err? <==> !Contains(fullName, path)
  {
    var parts := Split(fullName, path);
    FindLeftmost(fullName, path);
    if |parts| < 2 then Err(IndexError) else Ok(parts[1])
  }

  /** A parameter written under a stage's path reads back under its own name. */
  lemma ParameterNameRoundTrip(service: string, stage: string, name: string)
    requires '/' !in name
    ensures ParameterKey(SsmParameterPath(service, stage), SsmParameterName(service, stage, name)) == Ok(name)
  {
    var path := SsmParameterPath(service, stage);
    AbsentFirstChar(name, path);
    SplitAfterPrefix(path, name);
  }

  /** The parameters of one listing page, keyed by name; a later entry of the same name wins. */
  function ParametersOfPage(path: string, page: seq<(string, string)>): (r: Result<map<string, string>, Error>)
    requires |path| > 0
    ensures r.Err? ==> r.error == IndexError
    ensures r.Err? <==> exists i :: 0 <= i < |page| && !Contains(page[i].0, path)
  {
    if page == [] then Ok(map[])
    else
      var init := page[..|page| - 1];
      var last := page[|page| - 1];
      match ParametersOfPage(path, init)
      case Err(e) => Err(e)
      case Ok(m) =>
        match ParameterKey(path, last.0)
        case Err(e) => Err(e)
        case Ok(k) => Ok(m[k := last.1])
  }

  /** `_get_ssm_parameters`: the loop over the single page `get_parameters_by_path` returned. */
  method GetSsmParameters(service: string, stage: string, page: seq<(string, string)>) returns (r: Result<map<string, string>, Error>)
    ensures r == ParametersOfPage(SsmParameterPath(service, stage), page)
  {
    var path := SsmParameterPath(service, stage);
    var params: map<string, string> := map[];
    var i := 0;
    while i < |page|
      invariant 0 <= i <= |page|
      invariant ParametersOfPage(path, page[..i]) == Ok(params)
    {
      assert page[..i + 1][..i] == page[..i];
      var key := ParameterKey(path, page[i].0);
      if key.Err? {
        ErrorStaysError(path, page, i + 1);
        return Err(IndexError);
      }
      params := params[key.value := page[i].1];
      i := i + 1;
    }
    assert page[..i] == page;
    return Ok(params);
  }

  lemma {:induction false} ErrorStaysError(path: string, page: seq<(string, string)>, n: nat)
    requires |path| > 0 && n <= |page|
    requires ParametersOfPage(path, page[..n]).Err?
    ensures ParametersOfPage(path, page) == Err(IndexError)
    decreases |page| - n
  {
    if n == |page| {
      assert page[..n] == page;
    } else {
      assert page[..n + 1][..n] == page[..n];
      ErrorStaysError(path, page, n + 1);
    }
  }

  /** Each name of the page holds the value of its last entry. */
  lemma {:induction false} PageValueLast(path: string, page: seq<(string, string)>, i: nat, k: string)
    requires |path| > 0 && i < |page| && ParametersOfPage(path, page).Ok?
    requires ParameterKey(path, page[i].0) == Ok(k)
    requires forall j :: i < j < |page| ==> ParameterKey(path, page[j].0) != Ok(k)
    ensures k in ParametersOfPage(path, page).value && ParametersOfPage(path, page).value[k] == page[i].1
    decreases |page|
  {
    if i < |page| - 1 {
      var init := page[..|page| - 1];
      assert init[i] == page[i];
      assert forall j :: i < j < |init| ==> init[j] == page[j];
      PageValueLast(path, init, i, k);
    }
  }

  /** Parameters stored for a stage read back, by name, from a listing of that stage's path. */
  lemma {:induction false} ReadBackStored(service: string, stage: string, names: seq<string>, values: seq<string>)
    requires |names| == |values|
    requires forall n :: n in names ==> '/' !in n
    ensures var path := SsmParameterPath(service, stage);
      var page := seq(|names|, i requires 0 <= i < |names| => (SsmParameterName(service, stage, names[i]), values[i]));
      ParametersOfPage(path, page).Ok? &&
      forall n :: n in ParametersOfPage(path, page).value <==> n in names
    decreases |names|
  {
    var path := SsmParameterPath(service, stage);
    var page := seq(|names|, i requires 0 <= i < |names| => (SsmParameterName(service, stage, names[i]), values[i]));
    if names != [] {
      var k := |names| - 1;
      var ni := names[..k];
      var vi := values[..k];
      ReadBackStored(service, stage, ni, vi);
      var pi := seq(|ni|, i requires 0 <= i < |ni| => (SsmParameterName(service, stage, ni[i]), vi[i]));
      assert page[..|page| - 1] == pi;
      ParameterNameRoundTrip(service, stage, names[k]);
      assert names == ni + [names[k]];
    }
  }

  /** A parameter stored for a stage reads back with the value of its last entry. */
  lemma ReadBackValue(service: string, stage: string, names: seq<string>, values: seq<string>, i: nat)
    requires |names| == |values| && i < |names|
    requires forall n :: n in names ==> '/' !in n
    requires forall j :: i < j < |names| ==> names[j] != names[i]
    ensures var path := SsmParameterPath(service, stage);
      var page := seq(|names|, i requires 0 <= i < |names| => (SsmParameterName(service, stage, names[i]), values[i]));
      ParametersOfPage(path, page).Ok? && names[i] in ParametersOfPage(path, page).value &&
      ParametersOfPage(path, page).value[names[i]] == values[i]
  {
    var path := SsmParameterPath(service, stage);
    var page := seq(|names|, i requires 0 <= i < |names| => (SsmParameterName(service, stage, names[i]), values[i]));
    ReadBackStored(service, stage, names, values);
    forall j | 0 <= j < |names|
      ensures ParameterKey(path, page[j].0) == Ok(names[j])
    {
      assert names[j] in names;
      ParameterNameRoundTrip(service, stage, names[j]);
    }
    PageValueLast(path, page, i, names[i]);
  }
}
