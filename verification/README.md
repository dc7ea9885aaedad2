# Greengrass CI/CD fleet scripts, modelled in Dafny

The repository provisions AWS IoT Greengrass groups for two fleets, "canary" and
"main", and deploys to them from a pipeline. Around the AWS glue sit five scripts
whose logic this project models and proves things about:

- the **registration script** draws an 8-hex-digit id, names the core thing, the
  device thing and the group after it, creates the certificate, both things, the
  configuration, the group and its core definition, and uploads the one-record
  deployment target list (`registration.dfy`, module `Registration`);
- the **target discovery script** walks the groups tagged with a fleet, follows
  each group's latest version to its core definition version and writes one
  `{GroupId, GroupName, ThingArn, CertificateArn}` record per group
  (`targets.dfy`, module `DeploymentTargets`);
- the **deployment script** submits one deployment per record, polls the
  outstanding ones for at most 100 rounds and writes the failure list, ending in
  'TIMEOUT' when something never finished (`deploy.dfy`, module `Deploy`);
- the **group definitions** stack derives, per record, the device thing, the
  construct ids, the Lambda environment and the subscription topic
  (`greengrass.dfy`, module `GroupDefinitions`);
- the **clean-up script** deletes the tagged groups, the things whose names hold
  an id taken from those groups' names, their certificates and the tagged core
  definitions (`cleanup.dfy`, module `CleanUp`).

`pystr.dfy` gives Python's `str.split` with a single-character separator,
negative indexing, `str.replace` and the substring test their exact Python
meaning; `records.dfy` holds the shared record;
`fleet.dfy` proves the round trips between the scripts: clean-up recovers the id
registration drew and picks both of its things, discovery reads back the record
registration uploads, and the deployment script keys its deployments by the
discovered group ids.

Every AWS read is a function parameter (an oracle); every mutating AWS call is an
entry of an action trace that the modelled script appends to, in the order the
script issues it. The imperative scripts are methods with loops, each proved
equal to a specification function that reads the loop from its last iteration
back; the properties are lemmas about those functions. An IndexError that stops
a script is modelled as a stopped state or an error outcome holding the calls
made until then.

Python dictionaries iterate in insertion order, and that order fixes the order
of the deployment script's failure entries, so its `deployments` dictionary is
modelled as an insertion-ordered sequence of items with distinct keys.

Note on clean-up: a group whose name has an empty third '-'-separated field (a
name such as "a-b-") puts the empty string into `gg_uuid`, and the empty string
is a substring of every thing name, so every thing would then be deleted. The
model keeps this behaviour as the script has it.

## Model

| member | source | states |
|---|---|---|
| `PyStr.AtAppendBack` | provision/project/code/lib/deployment_targets.py:43-44 | `[-k]` for 1 <= k <= len(ys) reads the same element of `xs + ys` as of `ys`, whatever precedes it |
| `PyStr.Split` | provision/greengrass/lib/clean_up.py:30 | `str.split(c)` yields one more field than there are separators |
| `PyStr.SplitFieldsFree` | provision/project/code/lib/deployment_targets.py:36 | no field of `s.split(c)` holds `c` |
| `PyStr.JoinSplit` | provision/project/code/lib/deployment_targets.py:36 | joining the fields of a split with the separator gives back the string |
| `PyStr.SplitAtSeparator` | provision/greengrass/lib/clean_up.py:30 | splitting `a + c + b` gives the fields of `a` followed by those of `b` |
| `PyStr.LastFieldAfterSeparator` | provision/project/code/lib/deployment_targets.py:36 | `split(c)[-1]` of `a + c + w` is `w` when `w` holds no `c` |
| `PyStr.ContainsInfix` | provision/greengrass/lib/clean_up.py:44 | `t in a + t + b` always holds |
| `PyStr.Contains` | provision/greengrass/lib/clean_up.py:44 | `t in s`: `t` is a prefix of some suffix of `s`; ContainsInfix proves every infix is found |
| `PyStr.Replace` | provision/project/code/lib/greengrass.py:89 | `str.replace`: non-overlapping occurrences, left to right; ReplaceAbsent, ReplaceSkip and ReplaceCommutesWithSplit state its behaviour |
| `PyStr.ReplaceSkip` | provision/project/code/lib/greengrass.py:89 | `str.replace` passes unchanged over a prefix that cannot start an occurrence |
| `PyStr.ReplaceCommutesWithSplit` | provision/project/code/lib/greengrass.py:89-90 | replacing a pattern free of the separator commutes with splitting at it |
| `PyStr.LastFieldReplaceCommute` | provision/project/code/lib/greengrass.py:89-90 | replace-then-last-field equals last-field-then-replace for such patterns |
| `Deploy.Targets` | provision/project/code/lib/deploy.py:17-21 | the records of the parameter file, or none when it is missing; NoTargets states the run that follows |
| `Deploy.Submitted` | provision/project/code/lib/deploy.py:25-42 | the dictionary after the submission loop, read from its last record back; SubmittedTracks and SubmittedLast state its keys and values, SubmitAll is the loop proved equal to it |
| `Deploy.ScanRound` | provision/project/code/lib/deploy.py:48-69 | the inner loop of one round over the outstanding items: `done_deployments` and the failure entries; ScanDone, ScanFails and ScanFailsDistinct state what it collects |
| `Deploy.Round` | provision/project/code/lib/deploy.py:48-73 | one pass: scan, delete the done groups, log one status call per outstanding item; RoundFacts states its effect, PollRound is the loop proved equal to it |
| `Deploy.Rounds` | provision/project/code/lib/deploy.py:47-76 | the state after `n` passes, a pass after the break changing nothing; RoundsInvariant, RoundsStable and OutstandingShrinks state its properties |
| `Deploy.Poll` | provision/project/code/lib/deploy.py:47-76 | the poll loop of at most 100 passes started on the submitted dictionary; PollFacts states its bounds, PollAll is the loop proved equal to it |
| `Deploy.Deployment` | provision/project/code/lib/deploy.py:17-93 | the whole script: creates, written list, success message and rounds run; ReportFacts, ReportAnswers and ReportStatus state its properties, Run is the script proved equal to it |
| `Deploy.SubmitAll` | provision/project/code/lib/deploy.py:25-42 | one create_deployment per record, for its GroupId and latest version, and the dictionary that results |
| `Deploy.PollRound` | provision/project/code/lib/deploy.py:48-73 | one pass queries every outstanding group in dictionary order, collects the terminal ones, then deletes them |
| `Deploy.PollAll` | provision/project/code/lib/deploy.py:47-76 | the bounded poll loop with its early break equals the round-by-round specification |
| `Deploy.Run` | provision/project/code/lib/deploy.py:17-93 | the whole script: creates, the written failure list, the success decision and the rounds run |
| `Deploy.AssignFacts` | provision/project/code/lib/deploy.py:42 | `deployments[g] = d` keeps keys distinct, adds `g` at the end only when new, and replaces the old entry |
| `Deploy.DelFacts` | provision/project/code/lib/deploy.py:72 | `del deployments[g]` removes exactly the entry of `g` |
| `Deploy.DeleteAllFacts` | provision/project/code/lib/deploy.py:71-72 | deleting the done list removes exactly the entries whose key is in it |
| `Deploy.ScanDone` | provision/project/code/lib/deploy.py:58-62 | `done_deployments` holds exactly the outstanding groups whose status is 'Success' or 'Failure', each once |
| `Deploy.ScanFails` | provision/project/code/lib/deploy.py:61-69 | each failure entry copies ErrorMessage and ErrorDetails of a 'Failure' answer of that round |
| `Deploy.ScanFailsDistinct` | provision/project/code/lib/deploy.py:61-69 | one round adds at most one failure entry per group |
| `Deploy.QueriesOfCount` | provision/project/code/lib/deploy.py:48-53 | a round queries each outstanding group at most once and no other group at all |
| `Deploy.RoundFacts` | provision/project/code/lib/deploy.py:48-73 | a round removes exactly the terminal deployments, adds none, and the failed groups leave the dictionary |
| `Deploy.RoundsInvariant` | provision/project/code/lib/deploy.py:47-76 | after any number of passes: every failure entry copies a 'Failure' answer of a logged query, every logged 'Failure' answer has its entry, a group answered terminally is no longer outstanding and is never queried again, a group never answered terminally is still outstanding, no group fails twice, each group is queried at most once per round |
| `Deploy.RoundsStable` | provision/project/code/lib/deploy.py:75-76 | after the break nothing changes any more |
| `Deploy.SubmittedTracks` | provision/project/code/lib/deploy.py:25-42 | the dictionary has exactly one entry per distinct GroupId of the records |
| `Deploy.SubmittedLast` | provision/project/code/lib/deploy.py:42 | a group's entry holds the deployment of the last record naming it |
| `Deploy.NoTargets` | provision/project/code/lib/deploy.py:17-21 | no record (a missing parameter file or an empty list): no deployment, one round, empty failure list, success |
| `Deploy.PollFacts` | provision/project/code/lib/deploy.py:47-76 | between 1 and 100 rounds, and fewer than 100 only when nothing is outstanding |
| `Deploy.ReportFacts` | provision/project/code/lib/deploy.py:80-93 | success iff the written list is empty; 'TIMEOUT' only last and only after 100 rounds; no group fails twice; at most distinct GroupIds + 1 entries; every failure entry copies a 'Failure' answer the loop received for that group |
| `Deploy.ReportAnswers` | provision/project/code/lib/deploy.py:47-93 | every 'Failure' answer the loop received is in the written list with its message and details; a group answered 'Success' has no failure entry; a group never answered terminally forces 'TIMEOUT' and failure |
| `Deploy.SuccessNotFailed` | provision/project/code/lib/deploy.py:58-69 | within the poll invariant a group answered 'Success' has no failure entry |
| `Deploy.OutstandingShrinks` | provision/project/code/lib/deploy.py:71-72 | the outstanding deployments never grow from one pass to a later one |
| `Deploy.TracksAfter` | provision/project/code/lib/deploy.py:71-72 | the dictionary keeps distinct keys through every pass |
| `Deploy.QueriesPrefix` | provision/project/code/lib/deploy.py:47-76 | the status calls of earlier passes stay in the log: passes only append |
| `Deploy.PolledWhileOutstanding` | provision/project/code/lib/deploy.py:47-53 | round `k` of the run asks for the status of every item still outstanding before it, and that call is in the final log |
| `Deploy.FirstPoll` | provision/project/code/lib/deploy.py:47-53 | every submitted deployment is polled in round 0 |
| `Deploy.StaysOutstanding` | provision/project/code/lib/deploy.py:58-72 | a deployment with no 'Success' or 'Failure' answer in the first `n` rounds is still in the dictionary after `n` passes |
| `Deploy.ReportPolled` | provision/project/code/lib/deploy.py:47-93 | for an item outstanding before a round that ran: its 'Failure' answer there is written with its message and details, its 'Success' answer there means its group has no failure entry |
| `Deploy.ReportTimedOut` | provision/project/code/lib/deploy.py:47-88 | a submitted deployment answering neither 'Success' nor 'Failure' in any round that ran gives 'TIMEOUT' and no success message |
| `Deploy.ReportStatus` | provision/project/code/lib/deploy.py:47-93 | for the deployment stored for a target group: 'Success' on the first poll keeps the group out of the failures file, 'Failure' on the first poll writes its entry, no terminal answer in any round means 'TIMEOUT' |
| `Registration.CoreName` | provision/greengrass/lib/scripts/register_greengrass_client.py:26 | the core thing name "gg-core-<id>"; NamesContainId and Fleet.CleanUpMatchesRegisteredThings prove what clean-up finds in it |
| `Registration.DeviceName` | provision/greengrass/lib/scripts/register_greengrass_client.py:27 | the device thing name "gg-device-<id>"; GroupDefinitions.CoreNameToDeviceName proves the stack derives it from the core name |
| `Registration.GroupName` | provision/greengrass/lib/scripts/register_greengrass_client.py:28 | the group name "gg-group-<id>"; GroupNameFields proves its third '-'-field is the id |
| `Registration.ThingArn` | provision/greengrass/lib/scripts/register_greengrass_client.py:34 | the IoT thing ARN of a thing name; ThingArnLastField proves the name is its last '/'-field |
| `Registration.ConfigText` | provision/greengrass/lib/scripts/register_greengrass_client.py:74-80 | the seven chained replacements of the configuration template, in the script's order; ConfigFill states what they fill |
| `Registration.GroupNameFields` | provision/greengrass/lib/scripts/register_greengrass_client.py:28 | the group name splits at '-' into "gg", "group" and the id, so `[2]` is the id |
| `Registration.NamesContainId` | provision/greengrass/lib/scripts/register_greengrass_client.py:26-28 | the id is a substring of the core, device and group names |
| `Registration.ThingArnLastField` | provision/greengrass/lib/scripts/register_greengrass_client.py:34 | the last '/'-field of a thing ARN is the thing name |
| `Registration.CoreThingArnLastField` | provision/greengrass/lib/scripts/register_greengrass_client.py:34 | the core thing ARN ends in the core name |
| `Registration.ReplacePassesPlaceholder` | provision/greengrass/lib/scripts/register_greengrass_client.py:74-80 | replacing one placeholder leaves another in place |
| `Registration.ConfigFill` | provision/greengrass/lib/scripts/register_greengrass_client.py:74-80 | the seven replacements fill every occurrence of every placeholder with its value when the template's literal text and the values hold no '<' |
| `Registration.CreateThingAndAttachedCert` | provision/greengrass/lib/scripts/register_greengrass_client.py:8-15 | creates the thing, then attaches the certificate to it |
| `Registration.ProvisionCalls` | provision/greengrass/lib/scripts/register_greengrass_client.py:41-117 | the provisioning calls and file writes in source order; PolicyBeforeThings, ThingsGetCertificate and GroupSetupOrder state their order, Provision is the script part proved equal to it |
| `Registration.Provision` | provision/greengrass/lib/scripts/register_greengrass_client.py:41-117 | the calls of the provisioning part, in order |
| `Registration.PolicyBeforeThings` | provision/greengrass/lib/scripts/register_greengrass_client.py:50-57 | the policy is attached to the certificate before any thing is created |
| `Registration.ThingsGetCertificate` | provision/greengrass/lib/scripts/register_greengrass_client.py:56-57 | core and device things are both created, each followed by the same certificate's attachment |
| `Registration.GroupSetupOrder` | provision/greengrass/lib/scripts/register_greengrass_client.py:86-117 | the role is associated after the group exists, the group version after the core definition |
| `Registration.PublishTarget` | provision/greengrass/lib/scripts/register_greengrass_client.py:119-145 | bucket found: upload of the one record and its log; ParameterNotFound or another error: no upload, error logged |
| `Registration.Register` | provision/greengrass/lib/scripts/register_greengrass_client.py:41-145 | the whole script's calls, uploaded list and log |
| `Registration.RegisterFacts` | provision/greengrass/lib/scripts/register_greengrass_client.py:119-145 | both things hold the certificate before any upload; an upload happens only when the bucket exists, last, of exactly the new group's record |
| `GroupDefinitions.DeviceArn` | provision/project/code/lib/greengrass.py:89 | the thing ARN with every "gg-core" replaced by "gg-device" |
| `GroupDefinitions.DeviceThingName` | provision/project/code/lib/greengrass.py:90 | the last '/'-field of the device ARN; RegisteredDeviceName proves it is the registered device thing |
| `GroupDefinitions.TestDeviceName` | provision/project/code/test/test.py:31 | the test's derivation, last field first and replacement second; DeviceNameMatchesTest proves it equal to the stack's |
| `GroupDefinitions.Define` | provision/project/code/lib/greengrass.py:83-183 | the construct ids, members, function name, environment, subscription and group id derived from one record; DefinitionFacts states their relations |
| `GroupDefinitions.DefineAll` | provision/project/code/lib/greengrass.py:83-183 | the definitions of every record, in record order; ConstructIdsDistinct proves their construct ids pairwise distinct |
| `GroupDefinitions.DeviceNameMatchesTest` | provision/project/code/lib/greengrass.py:89-90 | the stack's device name equals the integration test's derivation, which swaps the two steps |
| `GroupDefinitions.CoreNameToDeviceName` | provision/project/code/lib/greengrass.py:89 | replacing "gg-core" in a core name gives the device name of the same id |
| `GroupDefinitions.RegisteredDeviceName` | provision/project/code/lib/greengrass.py:89-90 | for a registered core thing ARN, the derived device name is the device thing registration created |
| `GroupDefinitions.DefinitionFacts` | provision/project/code/lib/greengrass.py:95-170 | core and device share the certificate, device is the device ARN, CORE_NAME/DEVICE_NAME set, subject is the test's topic |
| `GroupDefinitions.RegisteredDefinitions` | provision/project/code/lib/greengrass.py:83-170 | for a registered record: DEVICE_NAME and the subject name the registered device thing |
| `GroupDefinitions.ConstructIdInjective` | provision/project/code/lib/greengrass.py:95-182 | a construct id determines its prefix and group name |
| `GroupDefinitions.ConstructIdsDistinct` | provision/project/code/lib/greengrass.py:83-182 | distinct group names give pairwise distinct construct ids over all records |
| `DeploymentTargets.GroupIdOf` | provision/project/code/lib/deployment_targets.py:36 | `group_arn.split('/')[-1]`; GroupIdRoundTrip proves it gives back the id of `…/<id>` |
| `DeploymentTargets.CoreDefinitionRef` | provision/project/code/lib/deployment_targets.py:43-44 | `[-3]` and `[-1]` of the '/'-fields, None exactly when `[-3]` raises IndexError |
| `DeploymentTargets.RecordFor` | provision/project/code/lib/deployment_targets.py:35-53 | the record of one tagged group, or the IndexError of a short ARN or an empty Cores list; ReadRecord is the loop body proved equal to it |
| `DeploymentTargets.Discover` | provision/project/code/lib/deployment_targets.py:33-53 | processing the resources one after the other: the records in order, or the first IndexError; DiscoverWritten, DiscoverCrashed and DiscoverCrashStays state its outcome |
| `DeploymentTargets.CoreDefinitionRefRoundTrip` | provision/project/code/lib/deployment_targets.py:42-44 | `…/<id>/versions/<version>` gives back the definition id and version |
| `DeploymentTargets.GroupIdRoundTrip` | provision/project/code/lib/deployment_targets.py:35-36 | `…/<id>` gives back the group id |
| `DeploymentTargets.DiscoverWritten` | provision/project/code/lib/deployment_targets.py:31-53 | the list is written iff no record fails; it then holds each resource's record in order |
| `DeploymentTargets.DiscoverCrashed` | provision/project/code/lib/deployment_targets.py:31-53 | a crash carries the fault of the first resource whose record fails |
| `DeploymentTargets.DiscoverCrashStays` | provision/project/code/lib/deployment_targets.py:31-53 | after a crash later resources change nothing |
| `DeploymentTargets.WrittenGroupIds` | provision/project/code/lib/deployment_targets.py:36-49 | each written record's GroupId is the last field of its resource ARN |
| `DeploymentTargets.NoTaggedGroups` | provision/project/code/lib/deployment_targets.py:31-53 | no tagged group on any page: an empty list is written |
| `DeploymentTargets.DiscoverTargets` | provision/project/code/lib/deployment_targets.py:31-53 | the loop over pages equals discovery over the pages' resources in page and item order |
| `DeploymentTargets.ReadRecord` | provision/project/code/lib/deployment_targets.py:36-53 | the three reads and two indexings for one resource give its record, or the IndexError of a short ARN or an empty Cores list |
| `DeploymentTargets.DiscoverPage` | provision/project/code/lib/deployment_targets.py:33-53 | the loop over one page's resources extends the records of the earlier pages |
| `CleanUp.Run` | provision/greengrass/lib/clean_up.py:9-88 | the whole script as a function of the cloud's answers; RunFacts states its order properties, CleanUp is the script proved equal to it |
| `CleanUp.Select` | provision/greengrass/lib/clean_up.py:11-17 | the tagged groups in list_groups order; SelectMembers and SelectAppend state its contents and order |
| `CleanUp.DeleteGroups` | provision/greengrass/lib/clean_up.py:28-37 | the group loop over the selected groups, stopping at a short name; DeleteGroupsShape and DeleteGroupsFacts state its effect |
| `CleanUp.DetachAll` | provision/greengrass/lib/clean_up.py:50-58 | the principal loop of one thing, stopping at a principal without '/'; DetachAllTrace and DetachAllCerts state its effect |
| `CleanUp.ThingStep` | provision/greengrass/lib/clean_up.py:43-63 | one thing: skipped unless it holds a collected id, otherwise its principals detached and the thing deleted; ThingStepFacts states it |
| `CleanUp.DeleteThings` | provision/greengrass/lib/clean_up.py:43-63 | the thing loop over list_things; DeleteThingsFacts states its effect |
| `CleanUp.CertificateActions` | provision/greengrass/lib/clean_up.py:66-76 | deactivate, then force-delete, each collected certificate; CertificateActionsFacts states their order |
| `CleanUp.CoreDefinitionActions` | provision/greengrass/lib/clean_up.py:79-88 | delete the tagged core definitions in list order; CoreDefinitionActionsMembers states which |
| `CleanUp.CleanUp` | provision/greengrass/lib/clean_up.py:9-88 | the whole script's calls and whether it ran to the end; with no tagged group it makes no call at all |
| `CleanUp.SelectGroups` | provision/greengrass/lib/clean_up.py:11-17 | the selection loop builds `groups_to_delete` |
| `CleanUp.DeleteSelectedGroups` | provision/greengrass/lib/clean_up.py:25-37 | the group loop builds `gg_uuid` and its calls, stopping at a short name |
| `CleanUp.AnyContained` | provision/greengrass/lib/clean_up.py:44 | true iff some id of `gg_uuid` is a substring of the thing name |
| `CleanUp.DetachPrincipals` | provision/greengrass/lib/clean_up.py:50-58 | the principal loop collects certificate ids and detaches, stopping at a principal without '/' |
| `CleanUp.DeleteMatchingThings` | provision/greengrass/lib/clean_up.py:39-63 | the thing loop over list_things |
| `CleanUp.DeleteCertificates` | provision/greengrass/lib/clean_up.py:66-76 | the certificate loop appends its calls |
| `CleanUp.DeleteTaggedCoreDefinitions` | provision/greengrass/lib/clean_up.py:79-88 | the core definition loop appends its calls |
| `CleanUp.FleetTag` | provision/greengrass/lib/clean_up.py:16 | `get('tags', {}).get('fleet', '')`: a missing tags map or fleet key reads as '' |
| `CleanUp.Matches` | provision/greengrass/lib/clean_up.py:44 | `any(t in thing_name for t in gg_uuid)`; AnyContained is the loop proved equal to it |
| `CleanUp.SelectAppend` | provision/greengrass/lib/clean_up.py:11-17 | selection keeps list_groups order: it distributes over concatenation |
| `CleanUp.SelectMembers` | provision/greengrass/lib/clean_up.py:12-17 | a group is selected iff it is listed and its fleet tag is 'canary' or 'main'; one without tags or without a fleet key is never selected |
| `CleanUp.DeleteGroupsShape` | provision/greengrass/lib/clean_up.py:28-37 | the loop makes two calls per processed group, collects no certificate, and stops early exactly at a name with fewer than three '-'-fields |
| `CleanUp.DeleteGroupsFacts` | provision/greengrass/lib/clean_up.py:28-37 | per processed group: `[2]` of its name joins `gg_uuid` and a forced reset precedes its deletion |
| `CleanUp.DetachAllTrace` | provision/greengrass/lib/clean_up.py:50-58 | every principal is detached in order; it stops exactly at a principal with no second '/'-field |
| `CleanUp.DetachAllCerts` | provision/greengrass/lib/clean_up.py:50-53 | `certificates_to_delete` stays duplicate-free, only grows at its end, and gains exactly the principals' certificate ids |
| `CleanUp.ThingStepFacts` | provision/greengrass/lib/clean_up.py:43-63 | a thing holding no id is skipped; otherwise all its principals are detached before it is deleted |
| `CleanUp.DeleteThingsFacts` | provision/greengrass/lib/clean_up.py:43-63 | the thing loop only detaches and deletes things, and keeps the certificate list duplicate-free |
| `CleanUp.CertificateActionsFacts` | provision/greengrass/lib/clean_up.py:66-76 | each certificate is set INACTIVE right before it is force-deleted, in collection order |
| `CleanUp.CoreDefinitionActionsMembers` | provision/greengrass/lib/clean_up.py:79-88 | a core definition is deleted iff it is listed and tagged like the selected groups |
| `CleanUp.RunFacts` | provision/greengrass/lib/clean_up.py:28-76 | over the whole run every group deletion follows its forced reset, every certificate deletion its deactivation, and no certificate is collected twice |
| `Fleet.CleanUpRecoversId` | provision/greengrass/lib/clean_up.py:28-37 | clean-up recovers from a registered group's name exactly the registered id |
| `Fleet.CleanUpMatchesRegisteredThings` | provision/greengrass/lib/clean_up.py:44 | with that id collected, both registered things are selected for deletion |
| `Fleet.DiscoveredRegisteredGroup` | provision/project/code/lib/deployment_targets.py:35-53 | discovery of a registered group yields exactly the record registration uploads |
| `Fleet.DeployDiscovered` | provision/project/code/lib/deploy.py:25-42 | the deployment script holds one deployment per distinct group id discovered, and no other |

## Left out

- File and network I/O: reading the parameter and template files, writing the
  failures file, the configuration, the key files, the zip and the log file are
  either left out or kept as trace entries holding the text written; JSON and
  zip encoding are not modelled, only the lists written.
- `time.sleep` between poll rounds and every `print` are left out; they change
  no state the scripts read.
- `uuid.uuid4` is replaced by an id parameter that is assumed to be 8 hex
  digits, as the first 8 characters of a UUID string are; argparse and the
  environment-variable defaults are left out.
- Every AWS call except the registration script's bucket lookup is assumed to
  succeed; a ClientError from any other call, and a KeyError from a response
  missing an expected key, are not modelled.
- Pagination and the tagging API's server-side fleet filter are not modelled:
  discovery takes the pages of tagged group ARNs as given, and clean-up takes
  the single page list_groups, list_things and list_core_definitions return.
- The deployment script's parameter file is either missing (FileNotFoundError,
  an empty list) or a list of records; a malformed file is not modelled.
- In the group definitions stack the CloudFormation resources themselves, the
  function configuration constants and the version ARN wiring of the group
  version are not modelled, only the values derived from each record.
- The test stack's use of the derived device name is modelled only as the
  derivation on test.py line 31 and the topic on line 41; the test's network
  calls are not part of this model.
- The CDK stacks, the EC2 user-data construct, the custom resource handler and
  the device shadow Lambda function are not part of this model.
