/** The per-record part of the stack that defines each fleet group's
    Greengrass resources: from one deployment target record it derives the
    device thing, the names and ids of the five definitions, the Lambda
    function's environment and the subscription topic. The CloudFormation
    resources themselves are not modelled, only the values put into them. */
module GroupDefinitions {
  import opened PyStr
  import opened Records
  import opened Registration

  /** The core or device entry of a definition. */
  datatype Member = Member(id: string, certificateArn: string, thingArn: string, syncShadow: bool)

  datatype Subscription = Subscription(id: string, source: string, subject: string, target: string)

  /** What the stack defines for one record. `ids` are the construct ids of
      the core, device, function and subscription definitions and of the
      group version, in that order. */
  datatype Definitions = Definitions(
    ids: seq<string>,
    name: string,
    core: Member,
    device: Member,
    functionName: string,
    environment: seq<(string, string)>,
    subscription: Subscription,
    groupId: string)

  const Prefixes: seq<string> :=
    ["GreengrassCoreDefinition", "GreengrassDeviceDefinition", "GreengrassFunctionDefinition",
     "GreengrassSubscriptionDefinition", "GreengrassGroupVersion"]

  /** `'{prefix}-{group_name}'`. */
  function ConstructId(prefix: string, groupName: string): string
  {
    prefix + "-" + groupName
  }

  /** The device thing ARN: every "gg-core" of the core thing ARN becomes
      "gg-device". */
  function DeviceArn(thingArn: string): string
  {
    Replace(thingArn, "gg-core", "gg-device")
  }

  /** The device thing name: the last '/'-separated field of its ARN. */
  function DeviceThingName(thingArn: string): string
  {
    LastField(DeviceArn(thingArn), '/')
  }

  /** The same name as the integration test derives it: last field first,
      then the replacement. */
  function TestDeviceName(thingArn: string): string
  {
    Replace(LastField(thingArn, '/'), "gg-core", "gg-device")
  }

  /** The topic the integration test publishes on. */
  function TestTopic(thingArn: string): string
  {
    TestDeviceName(thingArn) + "/update"
  }

  /** Look a variable up in an environment. */
  function Lookup(env: seq<(string, string)>, key: string): Option<string>
  {
    if env == [] then None
    else if env[0].0 == key then Some(env[0].1)
    else Lookup(env[1..], key)
  }

  /** Everything derived from one record; `functionArn` is the Lambda
      function version the stack is given. */
  function Define(record: ParameterSet, functionArn: string): Definitions
  {
    var groupName := record.groupName;
    var deviceArn := DeviceArn(record.thingArn);
    var deviceName := LastField(deviceArn, '/');
    Definitions(
      seq(|Prefixes|, k requires 0 <= k < |Prefixes| => ConstructId(Prefixes[k], groupName)),
      groupName,
      Member("1", record.certificateArn, record.thingArn, true),
      Member("1", record.certificateArn, deviceArn, true),
      "GreengrassFunction-" + groupName,
      [("CORE_NAME", groupName), ("DEVICE_NAME", deviceName)],
      Subscription("1", "cloud", deviceName + "/update", functionArn),
      record.groupId)
  }

  /** The loop over all records. */
  function DefineAll(records: seq<ParameterSet>, functionArn: string): seq<Definitions>
  {
    seq(|records|, i requires 0 <= i < |records| => Define(records[i], functionArn))
  }

  /** Replacing and then taking the last field is the same as taking the last
      field and then replacing, because neither "gg-core" nor "gg-device"
      holds a '/'; so the stack and the integration test agree on the device
      name. */
  lemma DeviceNameMatchesTest(thingArn: string)
    ensures DeviceThingName(thingArn) == TestDeviceName(thingArn)
  {
    LastFieldReplaceCommute(thingArn, "gg-core", "gg-device", '/');
  }

  /** For a core thing ARN made by the registration script, the derived device
      name is exactly the device thing that script created, whatever the
      region and account. */
  lemma RegisteredDeviceName(region: string, account: string, id: string)
    requires IsGgId(id)
    ensures DeviceThingName(ThingArn(region, account, CoreName(id))) == DeviceName(id)
  {
    var arn := ThingArn(region, account, CoreName(id));
    DeviceNameMatchesTest(arn);
    CoreThingArnLastField(region, account, id);
    CoreNameToDeviceName(id);
  }

  /** "gg-core" occurs in a core name only at its start, since 'g' is not a
      hex digit. */
  lemma CoreNameToDeviceName(id: string)
    requires IsGgId(id)
    ensures Replace(CoreName(id), "gg-core", "gg-device") == DeviceName(id)
  {
    var tail := "-" + id;
    GgIdHasNo(id, 'g');
    assert 'g' !in tail;
    assert CoreName(id) == "gg-core" + tail;
    ReplaceHit(tail, "gg-core", "gg-device");
    ReplaceSkip(tail, [], "gg-core", "gg-device");
    assert tail + [] == tail;
    assert Replace([], "gg-core", "gg-device") == [];
    assert "gg-device" + tail == DeviceName(id);
  }

  /** What each record's definitions say: core and device share the record's
      certificate, the core is the record's thing and the device its device
      thing, the function sees CORE_NAME = group name and DEVICE_NAME = the
      device thing's name, and the subscription listens on the test's
      topic. */
  lemma DefinitionFacts(record: ParameterSet, functionArn: string)
    ensures var d := Define(record, functionArn);
      && d.core.certificateArn == d.device.certificateArn == record.certificateArn
      && d.core.thingArn == record.thingArn
      && d.device.thingArn == DeviceArn(record.thingArn)
      && Lookup(d.environment, "CORE_NAME") == Some(record.groupName)
      && Lookup(d.environment, "DEVICE_NAME") == Some(LastField(d.device.thingArn, '/'))
      && d.subscription.subject == TestTopic(record.thingArn)
      && d.subscription.target == functionArn
  {
    DeviceNameMatchesTest(record.thingArn);
  }

  /** For the record the registration script uploads, the device definition
      names the device thing that script created and the function's
      DEVICE_NAME is that thing. */
  lemma RegisteredDefinitions(inp: Inputs, functionArn: string)
    requires IsGgId(inp.id)
    ensures var d := Define(Target(inp), functionArn);
      && Lookup(d.environment, "DEVICE_NAME") == Some(DeviceName(inp.id))
      && d.subscription.subject == DeviceName(inp.id) + "/update"
      && d.core.certificateArn == d.device.certificateArn == inp.keys.certificateArn
      && d.name == GroupName(inp.id)
  {
    RegisteredDeviceName(inp.region, inp.account, inp.id);
  }

  /** Two construct ids are equal only for the same prefix and the same group
      name: the prefixes differ at index 10, just after "Greengrass". */
  lemma ConstructIdInjective(a: nat, b: nat, g: string, h: string)
    requires a < |Prefixes| && b < |Prefixes|
    requires ConstructId(Prefixes[a], g) == ConstructId(Prefixes[b], h)
    ensures a == b && g == h
  {
    var x, y := ConstructId(Prefixes[a], g), ConstructId(Prefixes[b], h);
    assert x[10] == Prefixes[a][10] && y[10] == Prefixes[b][10];
    assert Prefixes[a][10] == Prefixes[b][10];
    assert a == b by {
      assert forall i, j :: 0 <= i < j < |Prefixes| ==> Prefixes[i][10] != Prefixes[j][10];
    }
    var n := |Prefixes[a] + "-"|;
    assert g == x[n..] && h == y[n..];
  }

  /** With distinct group names, no construct id is used twice across all
      records. */
  lemma ConstructIdsDistinct(records: seq<ParameterSet>, functionArn: string)
    requires forall i, j :: 0 <= i < j < |records| ==> records[i].groupName != records[j].groupName
    ensures forall i, j, a, b ::
      (0 <= i < |records| && 0 <= j < |records| && 0 <= a < |Prefixes| && 0 <= b < |Prefixes| && (i != j || a != b))
      ==> DefineAll(records, functionArn)[i].ids[a] != DefineAll(records, functionArn)[j].ids[b]
  {
    var defs := DefineAll(records, functionArn);
    forall i, j, a, b | 0 <= i < |records| && 0 <= j < |records| && 0 <= a < |Prefixes| && 0 <= b < |Prefixes|
      && defs[i].ids[a] == defs[j].ids[b]
      ensures i == j && a == b
    {
      ConstructIdInjective(a, b, records[i].groupName, records[j].groupName);
    }
  }
}
