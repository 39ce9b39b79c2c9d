# yolo deployment core, modelled in Dafny

This project models the decision procedures inside `yolo`, a command-line tool
that deploys applications to AWS with CloudFormation, S3, SSM Parameter Store,
Lambda and API Gateway. Every AWS or Docker reply is an input to the model:

- the stack statuses `describe_stacks` returns on each poll;
- the common prefixes of an S3 listing;
- the pages of a Lambda version listing or an SSM listing;
- the status trace of a build container.

Each module follows one source file:

| module | source file | what it holds |
|---|---|---|
| `Waiter` | `waiter.py` | The CloudFormation waiter class. It polls up to 120 times. A status still `IN_PROGRESS` means poll again. The target status means success. Any other status raises `CloudFormationError`. "does not exist" counts as success only when waiting for a delete. |
| `YoloFiles` | `yolo_file.py` | The parsed `yolo.yaml` (its `name` is `appName`). A stage's configuration falls back to `default`. Accounts are normalised by alias or number, and the first match wins. `IsBaselineInfrastructureDefined` is the `"account" in templates` test that `Client.DeployInfraCheck` uses. |
| `Const` | `const.py` | Folder-prefix templates and tag constants. |
| `Services` | `services/__init__.py` | The parser that turns S3 common prefixes into `(sha1, timestamp)` builds. It keeps the `str.strip('yolo.yaml')` character-set strip. It also holds the newest-first build table. |
| `Client` | `client.py` | Stack and bucket names. The choice of stage, account and region. The flag checks of `deploy-infra` and `deploy-lambda`. The create / update / recreate / refuse decision. Stack tags and template selection. Parameter merging, selection, value precedence and storage for SSM. |
| `LambdaService` | `services/lambda_service.py` | Version listing across pages and the next-version number. The `SSM_CONFIG_VERSION` path and the published-version check. The missing-parameter check and the parameter copy. The choice of the newest build. API-Gateway base-path mappings and the integration-response table. |
| `Utils` | `utils.py` | `DottedDict` as a class with an item map and an attribute map. The identifier check that guards its keys. |
| `DockerBuild` | `build.py` | The dependency-cache decision and the build environment. The container wait loop with its once-a-minute feedback. Exit-code handling, and container removal that never raises. |

`Wrappers`, `Exceptions` and `Strings` are shared support:

- `Result` and `Option`;
- the exceptions the tool raises;
- the Python string builtins the source relies on: `split`, `rsplit`,
  `strip` with a character set, `replace`, `str(int)`/`int(str)` on
  decimals, and a stable sort.

State the source changes in place is modelled as classes:

- the waiter;
- `DottedDict`;
- the SSM parameter store;
- a Lambda function configuration;
- a build container.

Loops become methods proved against a specification function. Examples are
`Wait`, `_get_builds_list`, the version and parameter listings, `put_parameters`,
the base-path loop and the container wait.

## Model

| member | source | states |
|---|---|---|
| Waiter.ParseWaiterType | Lib/site-packages/yolo/waiter.py:47-55 | Only the three waiter names are accepted, and each gives back its own type; any other name is `ValueError("Unknown waiter type: …")` |
| Waiter.WaiterTypeNameRoundTrip | Lib/site-packages/yolo/waiter.py:31-38 | Parsing the name of a waiter type gives that type back |
| Waiter.VerboseCloudFormationWaiter.constructor | Lib/site-packages/yolo/waiter.py:47-55 | The target status and action word are fixed by the type: CREATE_COMPLETE/creating, UPDATE_COMPLETE/updating, DELETE_COMPLETE/deleting |
| Waiter.VerboseCloudFormationWaiter.Wait | Lib/site-packages/yolo/waiter.py:57-94 | The polling loop returns the outcome and poll count of the reference `WaitFrom` state machine |
| Waiter.DecisiveStep | Lib/site-packages/yolo/waiter.py:78-94 | A poll that does not ask to retry ends the wait with its own decision, one poll later |
| Waiter.InProgressPollsAgain | Lib/site-packages/yolo/waiter.py:82-86 | A non-target status containing `IN_PROGRESS` does not decide the wait: it goes on exactly as from the next poll |
| Waiter.NewWaiter | Lib/site-packages/yolo/waiter.py:47-55 | A waiter is built exactly for the three known names; an unknown name raises `ValueError` |
| Waiter.WaitFromOutcome | Lib/site-packages/yolo/waiter.py:57-94 | Each wait makes at most `MAX_TRIES` polls, and every poll but the last asked to retry. Success means the last poll reached the target. A timeout means all 120 polls asked to retry. Any other error comes from the last poll |
| Waiter.WaitOutcome | Lib/site-packages/yolo/waiter.py:57-94 | The same from the first poll: between 1 and 120 polls are made |
| Waiter.FirstDecisiveReply | Lib/site-packages/yolo/waiter.py:59-94 | The first reply that does not ask to retry decides the wait, at that poll |
| Waiter.ReachesTarget | Lib/site-packages/yolo/waiter.py:78-81 | Reaching the target status after in-progress polls returns normally |
| Waiter.UnexpectedStatus | Lib/site-packages/yolo/waiter.py:82-94 | Any other status after in-progress polls raises `CloudFormationError` carrying that status |
| Waiter.TimesOut | Lib/site-packages/yolo/waiter.py:58-64 | A stack that stays in progress is polled exactly 120 times, then `RuntimeError` is raised |
| Waiter.StackMissingOnlyEndsDelete | Lib/site-packages/yolo/waiter.py:67-77 | A "ValidationError … does not exist" client error is success exactly for the delete waiter; create and update re-raise it |
| YoloFiles.GetStageConfig | Lib/site-packages/yolo/yolo_file.py:235-246 | A configured stage gets its own entry, otherwise the `default` entry; `YoloError` exactly when neither exists |
| YoloFiles.UnconfiguredStageIsDefault | Lib/site-packages/yolo/yolo_file.py:235-246 | An unconfigured stage is configured exactly as `default` |
| YoloFiles.FirstMatch | Lib/site-packages/yolo/yolo_file.py:267-279 | The index found matches by alias or number, and no earlier entry matches; none is found only when no entry matches |
| YoloFiles.NormalizeAccount | Lib/site-packages/yolo/yolo_file.py:248-290 | The for-else loop returns the reference normalisation, checking the alias before the number in each entry |
| YoloFiles.NormalizedAccountIsFirstMatch | Lib/site-packages/yolo/yolo_file.py:263-290 | The result is the first entry, in list order, whose alias or number is the input, with its region. `YoloError` is raised exactly when no entry matches |
| YoloFiles.NormalizedAccountKeepsInput | Lib/site-packages/yolo/yolo_file.py:268-278 | The input string fills the field it matched |
| Const.StageBuildByVersionFolder | Lib/site-packages/yolo/const.py:42-48 | A version's folder sits directly below the service's builds folder |
| Const.StageBuildFolder | Lib/site-packages/yolo/const.py:43-48 | A build's folder sits directly below its version's folder |
| Services.YoloYamlChars | Lib/site-packages/yolo/services/__init__.py:117 | The characters `strip('yolo.yaml')` removes are the set {y, o, l, ., a, m}, not a suffix |
| Services.BuildSearchPrefix | Lib/site-packages/yolo/services/__init__.py:95-106 | Without a version the prefix is `builds/stages/{stage}/services/{service}/`; with one it is that path followed by the version |
| Services.GetBuildsList | Lib/site-packages/yolo/services/__init__.py:77-135 | The loop over common prefixes returns the reference listing `BuildsFrom`; a missing `CommonPrefixes` is an empty listing |
| Services.ErrorPersists | Lib/site-packages/yolo/services/__init__.py:116-119 | A prefix that lacks the search prefix (`IndexError`) aborts the whole listing |
| Services.AtMostOneBuildPerPrefix | Lib/site-packages/yolo/services/__init__.py:114-135 | A listing holds at most one build per common prefix |
| Services.StripBuildKey | Lib/site-packages/yolo/services/__init__.py:117 | The character-set strip leaves a pushed build's folder intact, up to its trailing slash |
| Services.SplitStrippedKey | Lib/site-packages/yolo/services/__init__.py:117-119 | The search prefix splits a stripped build key into the empty string and `sha1/timestamp/` |
| Services.ParseBuildKey | Lib/site-packages/yolo/services/__init__.py:116-125 | Without a version, the three-part split gives back the pushed build |
| Services.ParseVersionedBuildKey | Lib/site-packages/yolo/services/__init__.py:127-134 | With a version, `rsplit('/', 3)` gives four parts and the pushed build |
| Services.ListingRoundTrip | Lib/site-packages/yolo/services/__init__.py:77-135 | Listing the keys of pushed builds gives exactly those builds back, in order, with or without a version |
| Services.ListBuilds | Lib/site-packages/yolo/services/__init__.py:53-75 | "No builds found." exactly for an empty list; otherwise a permutation of the builds sorted newest first |
| Services.ListBuildsNewestFirst | Lib/site-packages/yolo/services/__init__.py:70-71 | The first row is the earliest-listed build with the newest timestamp |
| Client.StageStackNameRoundTrip | Lib/site-packages/yolo/client.py:347-352 | A stage stack name `{app}-{account}-{stage}` gives back its account and stage |
| Client.AccountResourceNamesDiffer | Lib/site-packages/yolo/client.py:196-220 | The app bucket, the `-BASELINE-` stack and the `-baseline-` bucket of an account never share a name |
| Client.StageStackIsNotBaseline | Lib/site-packages/yolo/client.py:347-352 | With a numeric account, a stage stack name is never an account stack name |
| Client.StagesAccountsRegions | Lib/site-packages/yolo/client.py:396-421 | The stage `default` is refused with `YoloError`. A configured stage gives its own singleton triple. An unconfigured stage takes `default`'s account and region, and is a `KeyError` when there is no `default`. No stage gives one triple per configured stage |
| Client.OneTargetPerStage | Lib/site-packages/yolo/client.py:416-420 | Listing every stage gives exactly one triple per configured stage |
| Client.DeployInfraCheck | Lib/site-packages/yolo/client.py:872-888 | It passes exactly when one of stage and account is given, an account is not recreated, and account templates exist for it. Each violation has its own `YoloError` |
| Client.DeployLambdaCheck | Lib/site-packages/yolo/client.py:1222-1231 | It passes exactly when one of `--version` and `--from-local` is given; the two other cases have their own `YoloError` |
| Client.StackTags | Lib/site-packages/yolo/client.py:1036-1038 | The created-with-version tag always comes first; the protected tag is present exactly when protected; no other tag |
| Client.DecideStackAction | Lib/site-packages/yolo/client.py:678-750 | No stack means create. An existing stack without `recreate` is updated. With `recreate` it is recreated exactly when unprotected, and a protected one is refused with `YoloError`. Termination protection is switched on when only the tag protects the stack. A dry run builds a change set and needs an existing stack (client.py:510-536) |
| Client.NeverRecreatesProtected | Lib/site-packages/yolo/client.py:696-745 | A stack is recreated only when it exists, recreation was asked for and nothing protects it |
| Client.ProtectedStackRefusesRecreate | Lib/site-packages/yolo/client.py:713-738 | A stack deployed with the protected tag refuses a later recreate |
| Client.FirstReason | Lib/site-packages/yolo/client.py:776-781 | The reason found is that of the first event that has one, and it is missing only when no event has one |
| Client.PossibleCause | Lib/site-packages/yolo/client.py:772-781 | The loop over the events yields the first reason, else `unknown` |
| Client.StackOperationResult | Lib/site-packages/yolo/client.py:751-787 | "No updates" is success. Any other `ClientError` becomes a `YoloError`, and a termination-protected stack has its own. A `CloudFormationError` becomes a `YoloError` with the first reason as its cause. Every other exception passes through unchanged |
| Client.WaiterErrorsEscape | Lib/site-packages/yolo/waiter.py:57-94 | Of the waiter's results, exactly the timeout `RuntimeError` and the `IndexError` on an empty `Stacks` reply escape the stack operation as something other than a `YoloError` |
| Client.SelectTemplatesAsWritten | Lib/site-packages/yolo/client.py:1055-1071 | As written, the empty-directory stop is never reached, and it fails exactly when the template files do not hold exactly one `master.*` |
| Client.AsWrittenEmptyDirectoryRaises | Lib/site-packages/yolo/client.py:1063-1071 | As written, a directory without template files raises `ValueError` |
| Client.SelectTemplates | Lib/site-packages/yolo/client.py:1055-1071 | It stops quietly exactly when there is no yaml/yml/json file. Otherwise it fails exactly when the template files do not hold exactly one `master.*`, and on success it uploads exactly the template files, in order, and the master is the only `master.*` among them. Anything else is `ValueError` |
| Client.SelectTemplatesAgrees | Lib/site-packages/yolo/client.py:1057-1071 | When a template file exists, the corrected selection is the one as written |
| Client.MasterIsUploaded | Lib/site-packages/yolo/client.py:1073-1096 | The master template URL points at one of the uploaded keys |
| Client.LastNamed | Lib/site-packages/yolo/client.py:1387 | A dict keyed by parameter name holds a name exactly when some entry declares it, and keeps an entry of that name |
| Client.LastNamedAppend | Lib/site-packages/yolo/client.py:1387-1394 | Later declarations win over earlier ones |
| Client.Merged | Lib/site-packages/yolo/client.py:1381-1396 | The merged names are the declared names without repeats, in order of first declaration |
| Client.MergedEntries | Lib/site-packages/yolo/client.py:1387-1396 | Every merged entry is the last declaration of its name |
| Client.StageParameterWins | Lib/site-packages/yolo/client.py:1393-1394 | A stage-specific parameter overrides the default of the same name |
| Client.DefaultParameterKept | Lib/site-packages/yolo/client.py:1381-1396 | A default the stage does not redeclare is kept |
| Client.DictOfMerged | Lib/site-packages/yolo/client.py:1381-1396 | Inserting the defaults and then the stage parameters into an insertion-ordered dict yields exactly the merge, in key order |
| Client.MergeParameters | Lib/site-packages/yolo/client.py:1381-1396 | The insertion-ordered dict built by the comprehensions and `update` is the reference merge |
| Client.SelectParameters | Lib/site-packages/yolo/client.py:1398-1415 | Undeclared requested names are a `YoloError` that lists exactly those names, sorted and without repeats. Otherwise the result is the merged parameters whose names were requested, or all of them when none were |
| Client.ValueSourceFor | Lib/site-packages/yolo/client.py:1424-1461 | A copied value is used exactly when a source stage has it. With no source stage and `--use-defaults`, the declared default is used. Otherwise the user is prompted, for multi-line input exactly when declared multiline |
| Client.CopyIgnoresDefaults | Lib/site-packages/yolo/client.py:1432-1441 | `--use-defaults` makes no difference when copying from a stage |
| Client.StoredValues | Lib/site-packages/yolo/client.py:1428-1478 | After the writes, each written name holds the value of its last declaration, and every other store entry is unchanged |
| Client.ParameterStore.Put | Lib/site-packages/yolo/client.py:1470-1478 | `put_parameter(Overwrite=True)` sets exactly one name |
| Client.PutParameters | Lib/site-packages/yolo/client.py:1428-1478 | The write loop leaves the store as the reference `Stored` |
| Client.ParametersToSet | Lib/site-packages/yolo/client.py:1380-1415 | An unknown service is a `KeyError`, as is a service without parameters. Otherwise the result is the selection of the requested names from the merged defaults and stage parameters: the sorted `UnknownParameters` error, or exactly those parameters. Every parameter set is the last declaration of its name |
| Client.PutParametersCommand | Lib/site-packages/yolo/client.py:1367-1479 | It succeeds exactly when the source stage can be read and the parameters can be selected. A failed read is an `IndexError`, and a failed selection is that selection's own error: the sorted `UnknownParameters` error or a `KeyError`. On success the store is the reference `Stored`. On failure nothing is written |
| Client.ParameterKey | Lib/site-packages/yolo/client.py:1363 | The key read from a full SSM name is `IndexError` exactly when the name lacks the path |
| Client.ParameterNameRoundTrip | Lib/site-packages/yolo/client.py:1361-1364 | A name written below a stage's path reads back as itself |
| Client.ParametersOfPage | Lib/site-packages/yolo/client.py:1361-1365 | A page is an `IndexError` exactly when some entry lies outside the path |
| Client.GetSsmParameters | Lib/site-packages/yolo/client.py:1337-1365 | The loop over the page returns the reference `ParametersOfPage` |
| Client.ErrorStaysError | Lib/site-packages/yolo/client.py:1362-1363 | An entry outside the path fails the whole page |
| Client.ReadBackStored | Lib/site-packages/yolo/client.py:1353-1365 | Parameters stored under a stage's path read back with exactly their names |
| Client.PageValueLast | Lib/site-packages/yolo/client.py:1361-1365 | A key read from a page holds the value of its last entry on the page |
| Client.ReadBackValue | Lib/site-packages/yolo/client.py:1353-1365 | A stored parameter whose name is not stored again later reads back with the value it was stored with |
| LambdaService.PageVersions | Lib/site-packages/yolo/services/lambda_service.py:546-556 | `$LATEST` is skipped, every other version is parsed with `int()`, and the page is `ValueError` exactly when one is not a decimal |
| LambdaService.VersionsFromListed | Lib/site-packages/yolo/services/lambda_service.py:509-572 | Every version listed comes from some page's numeric entry |
| LambdaService.VersionsFromComplete | Lib/site-packages/yolo/services/lambda_service.py:509-572 | Every non-`$LATEST` entry of every page is a number, and it is in the listing |
| LambdaService.NextVersionAboveListed | Lib/site-packages/yolo/services/lambda_service.py:409-415 | The next version is above every numbered version on any page of the listing |
| LambdaService.FetchVersionPage | Lib/site-packages/yolo/services/lambda_service.py:529-556 | The loop over one page returns the reference `PageVersions` |
| LambdaService.PageErrorPersists | Lib/site-packages/yolo/services/lambda_service.py:548-555 | A non-numeric version fails the whole page |
| LambdaService.GetAllLambdaFnVersions | Lib/site-packages/yolo/services/lambda_service.py:509-572 | The marker loop returns the reference listing. It fetches while a marker is present, and a first-page `ResourceNotFoundException` gives `[]` |
| LambdaService.NextVersion | Lib/site-packages/yolo/services/lambda_service.py:409-415 | The next version is 1 with no versions, else one more than the largest existing |
| LambdaService.ConfigVersionIsNotLatest | Lib/site-packages/yolo/services/lambda_service.py:586-593 | A deployment's config path is never the editable `latest` path |
| LambdaService.ConfigVersionPathsDiffer | Lib/site-packages/yolo/services/lambda_service.py:427-431 | Different versions get different config paths |
| LambdaService.LambdaFunctionConfiguration.SetConfigVersion | Lib/site-packages/yolo/services/lambda_service.py:421-431 | `SSM_CONFIG_VERSION` becomes `/{service}/{stage}/{version}/`. A missing `Environment` is created first. An `Environment` without `Variables` is a `KeyError` |
| LambdaService.CheckPublishedVersion | Lib/site-packages/yolo/services/lambda_service.py:496-506 | It passes exactly when the published version is the expected one. A mismatch is a `YoloError` and a non-number is a `ValueError` |
| LambdaService.PublishedNextVersionPasses | Lib/site-packages/yolo/services/lambda_service.py:492-506 | Publishing the computed next version passes the check |
| LambdaService.ListedNames | Lib/site-packages/yolo/services/lambda_service.py:624 | Each listed parameter's name below the path, in order; `IndexError` exactly when one lies outside it |
| LambdaService.RequiredParametersAsWritten | Lib/site-packages/yolo/services/lambda_service.py:634-638 | As written, the lookup fails exactly when there is no `default` stage, whichever stage is deployed |
| LambdaService.RequiredParametersAsWrittenRejectsOwnList | Lib/site-packages/yolo/services/lambda_service.py:634-638 | A stage that declares its own list, without a `default`, fails as written and passes corrected |
| LambdaService.RequiredParameters | Lib/site-packages/yolo/services/lambda_service.py:632-638 | The stage's own list, else `default`'s; `KeyError` only when neither exists |
| LambdaService.RequiredParametersAgree | Lib/site-packages/yolo/services/lambda_service.py:634-638 | With a `default` stage, the corrected lookup is the one as written |
| LambdaService.MissingNames | Lib/site-packages/yolo/services/lambda_service.py:639-656 | The missing names are exactly the required names not in SSM, sorted, without repeats |
| LambdaService.CopyDecision | Lib/site-packages/yolo/services/lambda_service.py:622-656 | With the corrected `default` lookup: a bad SSM name is an `IndexError`, and an unknown service a `KeyError`. No `parameters` section means nothing is checked or copied. Otherwise the copy goes ahead exactly when no required name is missing, and else a `YoloError` lists exactly the missing names, sorted |
| LambdaService.CopyDecisionAsWritten | Lib/site-packages/yolo/services/lambda_service.py:622-656 | As written, a `parameters` section without a `default` stage fails with `KeyError('default')` once the listing and the service are found |
| LambdaService.CopyDecisionAgrees | Lib/site-packages/yolo/services/lambda_service.py:634-638 | The two decisions agree unless the `parameters` section lacks a `default` stage. Then the one as written fails, while the corrected one decides a stage with its own list on that list |
| LambdaService.BasenameAfterSlash | Lib/site-packages/yolo/services/lambda_service.py:659-662 | `os.path.basename` of a name below a directory is that name |
| LambdaService.CopiedKeyPresent | Lib/site-packages/yolo/services/lambda_service.py:658-677 | Every copied parameter is in the store afterwards |
| LambdaService.ListSourceParameters | Lib/site-packages/yolo/services/lambda_service.py:600-619 | The page loop collects every parameter of every page, in order, until a page has no next token |
| LambdaService.CopyInto | Lib/site-packages/yolo/services/lambda_service.py:658-677 | The copy loop stores each parameter under the destination path by its base name, later ones overwriting |
| LambdaService.CopySsmParameters | Lib/site-packages/yolo/services/lambda_service.py:574-677 | It fails exactly as the corrected decision does. On a copy, the store is the reference `CopiedInto` the version's config path. Otherwise the store is unchanged |
| LambdaService.CopiedConfigurationComplete | Lib/site-packages/yolo/services/lambda_service.py:622-677 | After a copy, every required parameter exists under the version's config path |
| LambdaService.LatestBuild | Lib/site-packages/yolo/services/lambda_service.py:235-241 | No builds is a `YoloError` naming the version; otherwise one of the listed builds |
| LambdaService.LatestBuildIsNewest | Lib/site-packages/yolo/services/lambda_service.py:240 | The build deployed is the earliest-listed one with the greatest timestamp |
| LambdaService.FindBuildToDeploy | Lib/site-packages/yolo/services/lambda_service.py:212-241 | An unknown service is a `KeyError`; otherwise it lists the version's builds and deploys the newest, and a listing error propagates |
| LambdaService.NoneIsRoot | Lib/site-packages/yolo/services/lambda_service.py:1014-1023 | An existing `(none)` base path is read as the empty root path |
| LambdaService.MappingFor | Lib/site-packages/yolo/services/lambda_service.py:1027-1032 | The mapping found has the key as its base path, and none is found only when no mapping has it |
| LambdaService.BasePathStep | Lib/site-packages/yolo/services/lambda_service.py:1008-1061 | A mapping is created exactly when the normalised base path is not among the existing ones, and it targets the API and stage. A listed base path is in place when its mapping has the same API and stage, and needs a manual update otherwise. It is a `NotFoundException` when the mapping cannot be fetched |
| LambdaService.RootBasePathSpellings | Lib/site-packages/yolo/services/lambda_service.py:1008-1013 | Base path `/` is treated as `''` |
| LambdaService.RootMappingNotDuplicated | Lib/site-packages/yolo/services/lambda_service.py:1014-1032 | An existing `(none)` mapping stops a second root mapping |
| LambdaService.ConfigDomain | Lib/site-packages/yolo/services/lambda_service.py:998-1002 | A configuration without `domains` is a `KeyError`, and one with other than exactly one entry a `ValueError`. The entry's `domain_name` and then its `base_path` must be present, else `KeyError` for the first one missing; otherwise both are returned |
| LambdaService.MissingBasePathRaises | Lib/site-packages/yolo/services/lambda_service.py:1001-1007 | A missing `base_path` raises `KeyError` even when the domain name is empty, since both keys are read before the empty-name return |
| LambdaService.MappingStepsFrom | Lib/site-packages/yolo/services/lambda_service.py:993-1061 | There is at most one step per configured API Gateway. Each configuration is decided against the mappings listed when it is reached, including those created for earlier configurations |
| LambdaService.CreatedIsListed | Lib/site-packages/yolo/services/lambda_service.py:1014-1032 | A mapping just created is listed under its base path, `(none)` for the root, and is the one fetched for it |
| LambdaService.SecondConfigurationFindsMapping | Lib/site-packages/yolo/services/lambda_service.py:993-1061 | Two configurations with the same unlisted domain and base path: the first creates the mapping, and the second finds it in place for the same API, else needing a manual update |
| LambdaService.EmptyDomainEndsMapping | Lib/site-packages/yolo/services/lambda_service.py:998-1007 | An empty `domain_name` ends the mapping; later configurations are not looked at |
| LambdaService.ConfigureBasePathMappings | Lib/site-packages/yolo/services/lambda_service.py:970-1061 | The loop over the configurations returns the reference `MappingStepsFrom`, carrying the mappings it created into the later listings |
| LambdaService.CodeTableLookup | Lib/site-packages/yolo/services/lambda_service.py:1195-1206 | A code's decimal form has its own entry exactly when the code is listed |
| LambdaService.DefaultIntegrationResponses | Lib/site-packages/yolo/services/lambda_service.py:1195-1212 | The table has a `default` entry: status `200`, passthrough |
| LambdaService.IntegrationResponseOfCode | Lib/site-packages/yolo/services/lambda_service.py:919-923 | A listed code gets status `str(code)` and pattern `^{code}:.*`; any other gets the default entry |
| Utils.KeywordsRaise | Lib/site-packages/yolo/utils.py:149-161 | Every listed Python keyword raises `SyntaxError` |
| Utils.IdentifierRun | Lib/site-packages/yolo/utils.py:157 | The longest prefix of identifier characters |
| Utils.IdentifierPatternMatch | Lib/site-packages/yolo/utils.py:157 | A match of `[a-zA-Z_][a-zA-Z0-9_]*` is anchored at the start only and is maximal |
| Utils.CheckIdentifier | Lib/site-packages/yolo/utils.py:144-161 | A key is accepted exactly when it is no keyword, is non-empty and starts with a letter or underscore; later characters are unchecked; otherwise `SyntaxError` |
| Utils.Wrapped | Lib/site-packages/yolo/utils.py:106-107 | Wrapping leaves no plain dict at any depth, keeps atoms, and keeps a dict's keys |
| Utils.WrappedKeepsContents | Lib/site-packages/yolo/utils.py:106-107 | Read back as plain dicts, a wrapped value is the value given: the same keys and atoms at every depth |
| Utils.Wrap | Lib/site-packages/yolo/utils.py:106-107 | Wrapping a nested dict succeeds exactly when all its keys are valid identifiers, else `SyntaxError` |
| Utils.WrapIdempotent | Lib/site-packages/yolo/utils.py:106-107 | Wrapping twice is wrapping once |
| Utils.DictOfPairs | Lib/site-packages/yolo/utils.py:102 | `dict(pairs)` has exactly the keys of the pairs |
| Utils.DictOfPairsLast | Lib/site-packages/yolo/utils.py:102 | A repeated key keeps the value of its last pair |
| Utils.Applied | Lib/site-packages/yolo/utils.py:103-114 | Setting entries one by one yields the keys of their dict, or `SyntaxError` |
| Utils.AppliedValue | Lib/site-packages/yolo/utils.py:103-114 | Each key set holds its dict's value for that key, wrapped when the loop wraps |
| Utils.AppliedFailsOnRefusal | Lib/site-packages/yolo/utils.py:103-114 | Setting fails exactly when some key is not a valid identifier, or some dict value holds one |
| Utils.AppliedWrapsDicts | Lib/site-packages/yolo/utils.py:110-114 | Every dict value set at construction is a `DottedDict` |
| Utils.AppliedErrorPersists | Lib/site-packages/yolo/utils.py:105-108 | The first refused key aborts the construction |
| Utils.Constructed | Lib/site-packages/yolo/utils.py:101-119 | The constructed items have the keys of the argument and the keywords, or `SyntaxError` |
| Utils.ConstructedValue | Lib/site-packages/yolo/utils.py:101-114 | Built from a dict and keywords, each item is the value `dict` stored for it, wrapped |
| Utils.ConstructedFromPairs | Lib/site-packages/yolo/utils.py:101-119 | Built from pairs alone, each item is the value `dict(pairs)` keeps for it, unwrapped |
| Utils.ConstructedSynced | Lib/site-packages/yolo/utils.py:101-119 | When built from a dict, from pairs alone, or from keywords alone, the item view and the attribute view agree |
| Utils.PairsWithKeywordsNotMirrored | Lib/site-packages/yolo/utils.py:101-119 | Pairs combined with keywords leave the pair keys out of the attribute view |
| Utils.ConstructedWrapsDicts | Lib/site-packages/yolo/utils.py:103-114 | Built from a dict or from keywords, no item value is a plain dict |
| Utils.DottedDict.GetItem | Lib/site-packages/yolo/utils.py:90-100 | An item reads back its stored value; a missing one is a `KeyError` |
| Utils.DottedDict.GetAttr | Lib/site-packages/yolo/utils.py:121-126 | An attribute reads back its stored value; a missing one is an `AttributeError` |
| Utils.DottedDict.SetItem | Lib/site-packages/yolo/utils.py:132-135 | With a valid key, both the item and the attribute read back the value. An invalid key raises `SyntaxError` and changes nothing. The two views stay in agreement |
| Utils.DottedDict.SetAttr | Lib/site-packages/yolo/utils.py:128-130 | Attribute assignment sets both views, like item assignment |
| Utils.DottedDict.DelItem | Lib/site-packages/yolo/utils.py:140-142 | Deleting removes the key from both views, and neither reads it back afterwards. A missing key is a `KeyError` |
| Utils.DottedDict.DelAttr | Lib/site-packages/yolo/utils.py:137-138 | Attribute deletion removes the key from both views |
| Utils.DottedDict.SetEach | Lib/site-packages/yolo/utils.py:103-114 | The constructor's loops add the reference `Applied` entries to both views, or fail with `SyntaxError` |
| Utils.NewDottedDict | Lib/site-packages/yolo/utils.py:101-119 | The constructor ends with the reference `Constructed` items and attributes |
| DockerBuild.BuildEnvironment | Lib/site-packages/yolo/build.py:45-75 | `PY_VERSION` comes from the runtime map, and an unknown runtime is a `KeyError`. `INCLUDE` is the list joined by spaces. `REBUILD_DEPENDENCIES='1'` is present exactly when a rebuild is due |
| DockerBuild.IncludeRoundTrip | Lib/site-packages/yolo/build.py:46 | Splitting `INCLUDE` on spaces gives the include list back |
| DockerBuild.CacheVersionMatch | Lib/site-packages/yolo/build.py:61-72 | A cache file holding a version plus a newline forces a rebuild exactly when the version differs from the dependencies' SHA-1 |
| DockerBuild.Container.Reload | Lib/site-packages/yolo/build.py:109 | Reloading moves the status to the next one in the container's trace |
| DockerBuild.Container.Remove | Lib/site-packages/yolo/build.py:144 | Removal succeeds exactly when the container is removable and not yet removed; otherwise it is a client error |
| DockerBuild.FirstExit | Lib/site-packages/yolo/build.py:100 | The first `exited` status at or after a position |
| DockerBuild.FeedbackOncePerMinute | Lib/site-packages/yolo/build.py:105-107 | Over `n` polls of 10 seconds, feedback is given `n / 6` times, the j-th at `60 * (j + 1)` seconds |
| DockerBuild.JoinPath | Lib/site-packages/yolo/build.py:120-123 | `os.path.join` ends with the file name |
| DockerBuild.LogFile | Lib/site-packages/yolo/build.py:115-123 | On CircleCI the log goes to the artifacts folder, which must be set (else `KeyError`); elsewhere `./container_{id}.log` |
| DockerBuild.ExitOutcome | Lib/site-packages/yolo/build.py:111-138 | Exit code 0 returns normally. Any other code raises `ContainerFailed` naming the log file `LogFile` chooses; on CircleCI without `CIRCLE_ARTIFACTS` it raises `KeyError` for that variable instead |
| DockerBuild.WaitForContainerToFinish | Lib/site-packages/yolo/build.py:98-138 | The loop stops at the first `exited` status. Feedback is given every 60 seconds. The outcome is that of the exit code |
| DockerBuild.RemoveContainer | Lib/site-packages/yolo/build.py:141-151 | Removal never raises |
| DockerBuild.BuildLambdaFunction | Lib/site-packages/yolo/build.py:24-95 | An unknown runtime fails before the container is touched. Otherwise it waits for the container and returns the environment when the exit code is 0. The container is removed only after a successful build, so a failed build leaves it for inspection |

## Left out

- Input and output are not modelled:
  - prompts, progress and log messages;
  - `time.sleep` (30 seconds in the waiter, 10 seconds in the container wait);
  - the content of the container log file;
  - reading the dependency-cache file and computing the SHA-1 of the requirements;
  - temporary files and S3 uploads and downloads.

  Replies and file contents are parameters instead.
- Pagination markers and tokens are not modelled. The version and SSM listings are finite sequences of pages. The container trace must reach `exited`: the source loops forever otherwise, and a loop that never ends has no result to state.
- The Docker client, `containers.run`, and the CloudFormation, S3, SSM, Lambda and API Gateway calls themselves are not modelled. Only their replies are.
- `int()` is modelled on plain decimal digits only. A leading sign, surrounding whitespace and underscores, which Python also accepts, are not modelled.
- The `Type` of an SSM parameter (`String` or `SecureString`) is not modelled.
- `VERSION_HASH` and `BUILD_TIME` come from git and from the clock. They are parameters of the model.
- `DottedDict.__getattr__` first finds real attributes and methods of the object. The model only holds the stored keys.
- Utils.Constructed: a stored key that names a method of the object is not modelled. Setting it writes the instance `__dict__`, which then hides that method. A key `items` makes the constructor raise `TypeError` when it calls `self.items()`. A key `_is_valid_identifier` makes every later key raise `TypeError`, at every depth of the wrapped values. A key `self`, at any depth, raises `TypeError` because it clashes with the constructor's own `self` argument, both for a nested dict wrapped with `DottedDict(**value)` and for a keyword given to the constructor. The model accepts all three.
- Utils.DottedDict.SetItem: after a key `_is_valid_identifier` has been stored, the source raises `TypeError` for every later item or attribute assignment (SetAttr too). The model checks the key as usual.
- Aliasing of nested `DottedDict`s is not modelled: nested values are values.
- Races between concurrent deployments are not modelled. Only the sequential version check is.
- Jinja rendering, YAML loading and schema validation are not modelled. A `YoloFile` value is a file that already passed validation.
- Finding the REST API id is not modelled: the id is given.
- A single API Gateway configuration that the source wraps into a list is not modelled: the model takes the list.
- LambdaService.CopyDecision: it uses the corrected `default` lookup. For a `parameters` section without a `default` stage it decides on the stage's own list, where the source raises `KeyError('default')`. LambdaService.CopyDecisionAsWritten is the decision as written.
- LambdaService.CopySsmParameters: it follows the corrected CopyDecision. For a `parameters` section without a `default` stage it may copy, where the source raises `KeyError('default')` before copying anything.
- Client.PutParametersCommand: it raises `KeyError("parameters")` for a service without a `deploy` section, where the source raises `KeyError('deploy')`.
- The Python 2 branch of writing the container log is not modelled.
- The command-line wiring, the credential clients and the thin boto3 wrappers are not modelled. Neither is the unrelated licence-plate web application that shares the repository.

## Findings

| source | as written | input that shows it | evidently intended | confidence | as-written member | corrected member |
|---|---|---|---|---|---|---|
| Lib/site-packages/yolo/client.py:1063-1071 | The single `master.*` template is unpacked before the check for an empty template list, so that check is never reached | A directory with no yaml, yml or json file raises `ValueError` while unpacking | Stop with the "no templates" message when there is nothing to deploy | not executed | Client.SelectTemplatesAsWritten, Client.AsWrittenEmptyDirectoryRaises | Client.SelectTemplates, Client.SelectTemplatesAgrees |
| Lib/site-packages/yolo/services/lambda_service.py:634-638 | `stages.get(stage, stages['default'])` evaluates its default first, so a file without a `default` stage fails even for a stage that declares its own list | `stages = {"prod": [db_password]}` deploying `prod` raises `KeyError('default')` | Use the stage's own list, and fall back to `default` only when the stage has none | not executed | LambdaService.RequiredParametersAsWritten, LambdaService.RequiredParametersAsWrittenRejectsOwnList, LambdaService.CopyDecisionAsWritten | LambdaService.RequiredParameters, LambdaService.RequiredParametersAgree, LambdaService.CopyDecision, LambdaService.CopyDecisionAgrees |
