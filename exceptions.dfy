/**
 * The exceptions the deployment tool raises, as values.  `YoloError` carries a
 * structured reason instead of the formatted message text; the other cases are
 * the Python built-in or library exceptions that escape the modelled code.
 */
module Exceptions {

  datatype Reason =
    | NoDefaultStage                          // get_stage_config without a 'default' stage
    | UnknownAccount(account: string)         // normalize_account found no entry
    | InvalidStage(stage: string)             // the literal stage 'default' was requested
    | StageXorAccount                         // neither or both of --stage/--account
    | RecreateAccountStack                    // --recreate together with --account
    | NoAccountTemplates                      // --account without 'account' templates
    | NoVersionNorLocal                       // deploy-lambda with neither --version nor --from-local
    | VersionAndLocal                         // deploy-lambda with both --version and --from-local
    | StackProtected(stackName: string)       // recreate refused on a protected stack
    | NoStackForDryRun                        // dry run against a missing stack
    | UnknownParameters(names: seq<string>)   // put-parameters with undeclared names (sorted)
    | MissingParameters(names: seq<string>)   // deploy with parameters absent from SSM (sorted)
    | VersionMismatch(expected: int, got: int)
    | NoBuildsForVersion(version: string)
    | TerminationProtected(stackName: string) // CloudFormation refused because of termination protection
    | TemplateInvalid(message: string)        // a ValidationError from a stack operation
    | StackOperationFailed(message: string)   // any other client error of a stack operation
    | DeployFailed(possibleCause: string)     // the waiter reported a failed stack status

  datatype Error =
    | YoloError(reason: Reason)
    | ValueError(what: string)
    | KeyError(key: string)
    | IndexError
    | RuntimeError(what: string)
    | CloudFormationError(status: string)
    | ClientError(message: string)
    | SyntaxError
    | AttributeError(name: string)
    | ContainerFailed(logFile: string)      // a build container exited non-zero; its logs were saved here
}
