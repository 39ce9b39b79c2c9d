/**
 * Names, tags and S3 folder layouts shared by the deployment tool.
 */
module Const {

  const YOLO_YAML: string := "yolo.yaml"
  const DEFAULT_FILENAMES: seq<string> := [YOLO_YAML, "yolo.yml"]
  const NAMESPACE: string := "yolo"
  const SWAGGER_YAML: string := "swagger.yaml"
  const BUCKET_NOT_FOUND: string :=
    "An error occurred (404) when calling the HeadBucket operation: Not Found"

  /** Environment variable telling a deployed function where its SSM config lives. */
  const SSM_CONFIG_VERSION: string := "SSM_CONFIG_VERSION"

  /** A CloudFormation stack tag. */
  datatype Tag = Tag(key: string, value: string)

  /** The tag recording the tool version that created a stack. */
  function CreatedWithVersionTag(toolVersion: string): Tag {
    Tag("yolo:CreatedWithVersion", toolVersion)
  }

  /** The tag that marks a stack as protected from recreation. */
  const PROTECTED_TAG: Tag := Tag("yolo:Protected", "true")

  // Folder layouts inside the account bucket.

  function AccountTemplatesFolder(timestamp: string): string {
    "templates/account/" + timestamp
  }

  function StageTemplatesFolder(stage: string, timestamp: string): string {
    "templates/stages/" + stage + "/" + timestamp
  }

  function StageBuildsFolder(stage: string, service: string): string {
    "builds/stages/" + stage + "/services/" + service
  }

  /** The folder of one build sits below the build's version folder. */
  function StageBuildByVersionFolder(stage: string, service: string, sha1: string): (r: string)
    ensures r == StageBuildsFolder(stage, service) + "/" + sha1
  {
    "builds/stages/" + stage + "/services/" + service + "/" + sha1
  }

  function StageBuildFolder(stage: string, service: string, sha1: string, timestamp: string): (r: string)
    ensures r == StageBuildByVersionFolder(stage, service, sha1) + "/" + timestamp
  {
    "builds/stages/" + stage + "/services/" + service + "/" + sha1 + "/" + timestamp
  }
}
