/** The registration script run on a new Greengrass core machine: it derives
    the core, device and group names from an eight-character id, creates the
    certificate, the two things, the group and its core definition, fills in
    the core's configuration template, and uploads the one deployment target
    record for the new group. Every AWS call is an entry of an action trace;
    the values AWS answers with are parameters. */
module Registration {
  import opened PyStr
  import opened Records

  // ---------------------------------------------------------------------
  // Names

  predicate IsHexDigit(c: char)
  {
    ('0' <= c <= '9') || ('a' <= c <= 'f')
  }

  /** The first eight characters of a version-4 UUID string. */
  predicate IsGgId(id: string)
  {
    |id| == 8 && forall i :: 0 <= i < |id| ==> IsHexDigit(id[i])
  }

  function CoreName(id: string): string
  {
    "gg-core-" + id
  }

  function DeviceName(id: string): string
  {
    "gg-device-" + id
  }

  function GroupName(id: string): string
  {
    "gg-group-" + id
  }

  /** The ARN of an IoT thing. */
  function ThingArn(region: string, account: string, thingName: string): string
  {
    "arn:aws:iot:" + region + ":" + account + ":thing/" + thingName
  }

  lemma GgIdHasNo(id: string, c: char)
    requires IsGgId(id) && !IsHexDigit(c)
    ensures c !in id
  {
  }

  /** Splitting a group name at '-' gives "gg", "group" and the id. */
  lemma GroupNameFields(id: string)
    requires IsGgId(id)
    ensures Split(GroupName(id), '-') == ["gg", "group", id]
    ensures At(Split(GroupName(id), '-'), 2) == Some(id)
  {
    GgIdHasNo(id, '-');
    assert GroupName(id) == "gg" + ['-'] + ("group" + ['-'] + id);
    SplitAtSeparator("gg", "group" + ['-'] + id, '-');
    SplitAtSeparator("group", id, '-');
    SplitNoSeparator("gg", '-');
    SplitNoSeparator("group", '-');
    SplitNoSeparator(id, '-');
  }

  /** The id occurs in all three names. */
  lemma NamesContainId(id: string)
    ensures Contains(CoreName(id), id)
    ensures Contains(DeviceName(id), id)
    ensures Contains(GroupName(id), id)
  {
    ContainsInfix("gg-core-", id, []);
    assert "gg-core-" + id + [] == CoreName(id);
    ContainsInfix("gg-device-", id, []);
    assert "gg-device-" + id + [] == DeviceName(id);
    ContainsInfix("gg-group-", id, []);
    assert "gg-group-" + id + [] == GroupName(id);
  }

  /** The last '/'-separated field of a thing ARN is the thing name. */
  lemma ThingArnLastField(region: string, account: string, thingName: string)
    requires '/' !in thingName
    ensures LastField(ThingArn(region, account, thingName), '/') == thingName
  {
    assert ThingArn(region, account, thingName)
      == ("arn:aws:iot:" + region + ":" + account + ":thing") + ['/'] + thingName;
    LastFieldAfterSeparator("arn:aws:iot:" + region + ":" + account + ":thing", thingName, '/');
  }

  /** The core thing of a registered machine is the last field of its ARN. */
  lemma CoreThingArnLastField(region: string, account: string, id: string)
    requires IsGgId(id)
    ensures LastField(ThingArn(region, account, CoreName(id)), '/') == CoreName(id)
  {
    GgIdHasNo(id, '/');
    assert '/' !in CoreName(id);
    ThingArnLastField(region, account, CoreName(id));
  }

  // ---------------------------------------------------------------------
  // The configuration template

  /** The placeholders of config_template.json, in the order they are
      replaced. */
  const Placeholders: seq<string> :=
    ["<certificateId>", "<certificatePem>", "<privateKey>", "<region>",
     "<accountId>", "<iotEndpoint>", "<thingname>"]

  /** Apply `text.replace(pats[0], reps[0]).replace(pats[1], reps[1])...`. */
  function ReplaceAll(text: string, pats: seq<string>, reps: seq<string>): string
    requires |pats| == |reps|
    decreases |pats|
  {
    if pats == [] then text
    else ReplaceAll(Replace(text, pats[0], reps[0]), pats[1..], reps[1..])
  }

  /** The configuration the script writes, from the template text and the
      values of the seven placeholders. */
  function ConfigText(template: string, certId: string, certPem: string, privateKey: string,
                      region: string, account: string, endpoint: string, thingName: string): string
  {
    ReplaceAll(template, Placeholders, [certId, certPem, privateKey, region, account, endpoint, thingName])
  }

  /** '<', a name free of '<' and '>', then '>'. */
  predicate IsPlaceholder(p: string)
  {
    && |p| >= 2 && p[0] == '<' && p[|p| - 1] == '>'
    && forall i :: 0 < i < |p| - 1 ==> p[i] != '<' && p[i] != '>'
  }

  lemma PlaceholderFacts()
    ensures forall j :: 0 <= j < |Placeholders| ==> IsPlaceholder(Placeholders[j])
    ensures forall i, j :: 0 <= i < j < |Placeholders| ==> Placeholders[i] != Placeholders[j]
  {
    forall i, j | 0 <= i < j < |Placeholders| ensures Placeholders[i] != Placeholders[j] {
      if |Placeholders[i]| == |Placeholders[j]| {
        assert Placeholders[i][1] != Placeholders[j][1];
      }
    }
  }

  /** A placeholder is never a prefix of text that starts with a different
      placeholder. */
  lemma PlaceholderNotPrefix(pat: string, q: string, rest: string)
    requires IsPlaceholder(pat) && IsPlaceholder(q) && pat != q
    ensures !IsPrefix(pat, q + rest)
  {
    var s := q + rest;
    if |pat| < |q| {
      assert s[|pat| - 1] == q[|pat| - 1] != '>';
      assert s[..|pat|][|pat| - 1] != pat[|pat| - 1];
    } else if |pat| == |q| {
      assert s[..|pat|] == q;
    } else if |pat| <= |s| {
      assert s[|q| - 1] == '>' != pat[|q| - 1];
      assert s[..|pat|][|q| - 1] != pat[|q| - 1];
    }
  }

  /** Past its first character a placeholder holds no '<'. */
  lemma PlaceholderTail(q: string)
    requires IsPlaceholder(q)
    ensures '<' !in q[1..]
  {
    forall i | 0 <= i < |q[1..]| ensures q[1..][i] != '<' {
      assert q[1..][i] == q[i + 1];
    }
  }

  /** Replacing `pat` passes over a different placeholder unchanged. */
  lemma ReplacePassesPlaceholder(q: string, rest: string, pat: string, rep: string)
    requires IsPlaceholder(pat) && IsPlaceholder(q) && pat != q
    ensures Replace(q + rest, pat, rep) == q + Replace(rest, pat, rep)
  {
    var s := q + rest;
    assert s[1..] == q[1..] + rest;
    assert Replace(s, pat, rep) == [q[0]] + Replace(q[1..] + rest, pat, rep) by {
      PlaceholderNotPrefix(pat, q, rest);
      ReplaceStep(s, pat, rep);
    }
    assert Replace(q[1..] + rest, pat, rep) == q[1..] + Replace(rest, pat, rep) by {
      PlaceholderTail(q);
      ReplaceSkip(q[1..], rest, pat, rep);
    }
    var r := Replace(rest, pat, rep);
    assert [q[0]] + (q[1..] + r) == ([q[0]] + q[1..]) + r;
    assert [q[0]] + q[1..] == q;
  }

  /** A template as the script sees it: literal text free of '<' and the
      placeholders in between. */
  datatype Piece = Text(text: string) | Hole(slot: nat)

  predicate WellFormed(pieces: seq<Piece>)
  {
    forall p :: p in pieces ==> (p.Text? ==> '<' !in p.text) && (p.Hole? ==> p.slot < |Placeholders|)
  }

  function Fill(p: Piece, values: seq<string>): string
  {
    match p
    case Text(t) => t
    case Hole(k) => if k < |values| then values[k] else []
  }

  /** The template with slot `k` showing `values[k]`. */
  function Render(pieces: seq<Piece>, values: seq<string>): string
  {
    if pieces == [] then [] else Fill(pieces[0], values) + Render(pieces[1..], values)
  }

  /** Slot `k` still shows its placeholder and every other slot shows either
      its own placeholder or a value without '<'. */
  predicate Partial(values: seq<string>, k: nat)
  {
    && |values| == |Placeholders| && k < |values|
    && values[k] == Placeholders[k]
    && forall j :: 0 <= j < |values| && j != k ==> '<' !in values[j] || values[j] == Placeholders[j]
  }

  /** One replacement fills exactly the slots of its placeholder. */
  lemma {:induction false} StepFill(pieces: seq<Piece>, values: seq<string>, k: nat, v: string)
    requires WellFormed(pieces) && Partial(values, k)
    ensures Replace(Render(pieces, values), Placeholders[k], v) == Render(pieces, values[k := v])
  {
    PlaceholderFacts();
    var pat := Placeholders[k];
    if pieces == [] {
      assert Replace([], pat, v) == [];
    } else {
      var x := Fill(pieces[0], values);
      var y := Render(pieces[1..], values);
      assert pieces[0] in pieces;
      assert WellFormed(pieces[1..]) by {
        forall p | p in pieces[1..] ensures p in pieces { }
      }
      StepFill(pieces[1..], values, k, v);
      match pieces[0]
      case Text(t) =>
        ReplaceSkip(t, y, pat, v);
      case Hole(j) =>
        if j == k {
          ReplaceHit(y, pat, v);
        } else if '<' !in values[j] {
          ReplaceSkip(x, y, pat, v);
        } else {
          ReplacePassesPlaceholder(x, y, pat, v);
        }
    }
  }

  /** Slots before `k` are filled, the others still show their placeholders. */
  function Mixed(values: seq<string>, k: nat): seq<string>
    requires |values| == |Placeholders| && k <= |values|
  {
    values[..k] + Placeholders[k..]
  }

  lemma {:induction false} FillFrom(pieces: seq<Piece>, values: seq<string>, k: nat)
    requires WellFormed(pieces)
    requires |values| == |Placeholders| && k <= |values|
    requires forall j :: 0 <= j < |values| ==> '<' !in values[j]
    ensures ReplaceAll(Render(pieces, Mixed(values, k)), Placeholders[k..], values[k..]) == Render(pieces, values)
    decreases |values| - k
  {
    if k == |values| {
      assert Mixed(values, k) == values;
    } else {
      var m := Mixed(values, k);
      assert Partial(m, k);
      StepFill(pieces, m, k, values[k]);
      assert m[k := values[k]] == Mixed(values, k + 1);
      FillFrom(pieces, values, k + 1);
      assert Placeholders[k..][1..] == Placeholders[k + 1..];
      assert values[k..][1..] == values[k + 1..];
    }
  }

  /** The replace chain fills every occurrence of every placeholder with its
      value, provided the literal text and the values hold no '<'. */
  lemma ConfigFill(pieces: seq<Piece>, certId: string, certPem: string, privateKey: string,
                   region: string, account: string, endpoint: string, thingName: string)
    requires WellFormed(pieces)
    requires forall v :: v in [certId, certPem, privateKey, region, account, endpoint, thingName] ==> '<' !in v
    ensures ConfigText(Render(pieces, Placeholders), certId, certPem, privateKey, region, account, endpoint, thingName)
      == Render(pieces, [certId, certPem, privateKey, region, account, endpoint, thingName])
  {
    var values := [certId, certPem, privateKey, region, account, endpoint, thingName];
    forall j | 0 <= j < |values| ensures '<' !in values[j] {
      assert values[j] in values;
    }
    FillFrom(pieces, values, 0);
    assert Mixed(values, 0) == Placeholders;
  }

  // ---------------------------------------------------------------------
  // The script

  /** What create_keys_and_certificate answers. */
  datatype KeysAndCertificate = KeysAndCertificate(
    certificateId: string, certificateArn: string, certificatePem: string, privateKey: string)

  /** The one core of a core definition. */
  datatype Core = Core(certificateArn: string, id: string, thingArn: string, syncShadow: bool)

  /** The outcome of reading the deployment-parameter bucket name from the
      parameter store. */
  datatype BucketLookup = Found(bucket: string) | ParameterNotFound | OtherError(code: string)

  datatype Action =
    | CreateKeysAndCertificate(setAsActive: bool)
    | AttachPolicy(policyName: string, target: string)
    | CreateThing(thingName: string)
    | AttachThingPrincipal(thingName: string, principal: string)
    | WriteFile(path: string, contents: string)
    | CreateGroup(name: string, fleet: string)
    | AssociateRoleToGroup(groupId: string, roleArn: string)
    | CreateCoreDefinition(name: string, cores: seq<Core>, fleet: string)
    | CreateGroupVersion(groupId: string, coreDefinitionVersionArn: string)
    | UploadParams(bucket: string, records: seq<ParameterSet>)

  /** What goes to reg_log.txt. */
  datatype LogEntry = BucketName(bucket: string) | Record(record: ParameterSet) | ErrorResponse(code: string)

  const CertDir := "/greengrass/certs/"
  const ConfigPath := "/greengrass/config/config.json"

  /** The arguments of the script and the values AWS answers with:
      create_keys_and_certificate, describe_endpoint, create_group's Id and
      create_core_definition's LatestVersionArn; `template` is the text of
      config_template.json. */
  datatype Inputs = Inputs(
    id: string, policyName: string, groupRole: string, fleet: string,
    region: string, account: string,
    keys: KeysAndCertificate, endpoint: string, template: string,
    groupId: string, coreDefinitionVersionArn: string)

  function CoreThingArn(inp: Inputs): string
  {
    ThingArn(inp.region, inp.account, CoreName(inp.id))
  }

  /** The configuration written to ConfigPath. */
  function Config(inp: Inputs): string
  {
    ConfigText(inp.template, inp.keys.certificateId, inp.keys.certificatePem, inp.keys.privateKey,
               inp.region, inp.account, inp.endpoint, CoreName(inp.id))
  }

  /** The record the script uploads for the new group. */
  function Target(inp: Inputs): ParameterSet
  {
    ParameterSet(inp.groupId, GroupName(inp.id), CoreThingArn(inp), inp.keys.certificateArn)
  }

  /** Create a thing and attach the certificate to it. */
  function ThingWithCert(thingName: string, certArn: string): seq<Action>
  {
    [CreateThing(thingName), AttachThingPrincipal(thingName, certArn)]
  }

  /** The AWS calls and file writes of lines 41-117, in order, `config`
      being the configuration text written. */
  function ProvisionCalls(inp: Inputs, config: string): seq<Action>
  {
    var certArn := inp.keys.certificateArn;
    [CreateKeysAndCertificate(true), AttachPolicy(inp.policyName, certArn)]
    + ThingWithCert(CoreName(inp.id), certArn)
    + ThingWithCert(DeviceName(inp.id), certArn)
    + [WriteFile(CertDir + inp.keys.certificateId + ".pem", inp.keys.certificatePem),
       WriteFile(CertDir + inp.keys.certificateId + ".key", inp.keys.privateKey),
       WriteFile(ConfigPath, config),
       CreateGroup(GroupName(inp.id), inp.fleet),
       AssociateRoleToGroup(inp.groupId, inp.groupRole),
       CreateCoreDefinition(GroupName(inp.id), [Core(certArn, "1", CoreThingArn(inp), true)], inp.fleet),
       CreateGroupVersion(inp.groupId, inp.coreDefinitionVersionArn)]
  }

  /** `a` occurs in `trace` before `b`. */
  predicate Before(trace: seq<Action>, a: Action, b: Action)
  {
    exists i, j :: 0 <= i < j < |trace| && trace[i] == a && trace[j] == b
  }

  lemma BeforeAt(trace: seq<Action>, i: nat, j: nat, a: Action, b: Action)
    requires i < j < |trace| && trace[i] == a && trace[j] == b
    ensures Before(trace, a, b)
  {
  }

  lemma BeforeAppend(trace: seq<Action>, more: seq<Action>, a: Action, b: Action)
    requires Before(trace, a, b)
    ensures Before(trace + more, a, b)
  {
    var i, j :| 0 <= i < j < |trace| && trace[i] == a && trace[j] == b;
    assert (trace + more)[i] == a && (trace + more)[j] == b;
  }

  /** The certificate is attached to the policy before any thing exists. */
  lemma PolicyBeforeThings(inp: Inputs, config: string)
    ensures Before(ProvisionCalls(inp, config), AttachPolicy(inp.policyName, inp.keys.certificateArn), CreateThing(CoreName(inp.id)))
  {
    var t := ProvisionCalls(inp, config);
    BeforeAt(t, 1, 2, AttachPolicy(inp.policyName, inp.keys.certificateArn), CreateThing(CoreName(inp.id)));
  }

  /** Each of the two things is created and then gets the certificate. */
  lemma ThingsGetCertificate(inp: Inputs, config: string)
    ensures Before(ProvisionCalls(inp, config), CreateThing(CoreName(inp.id)), AttachThingPrincipal(CoreName(inp.id), inp.keys.certificateArn))
    ensures Before(ProvisionCalls(inp, config), CreateThing(DeviceName(inp.id)), AttachThingPrincipal(DeviceName(inp.id), inp.keys.certificateArn))
  {
    var t := ProvisionCalls(inp, config);
    var id, certArn := inp.id, inp.keys.certificateArn;
    assert t[2] == CreateThing(CoreName(id)) && t[3] == AttachThingPrincipal(CoreName(id), certArn);
    BeforeAt(t, 2, 3, CreateThing(CoreName(id)), AttachThingPrincipal(CoreName(id), certArn));
    assert t[4] == CreateThing(DeviceName(id)) && t[5] == AttachThingPrincipal(DeviceName(id), certArn);
    BeforeAt(t, 4, 5, CreateThing(DeviceName(id)), AttachThingPrincipal(DeviceName(id), certArn));
  }

  /** The group gets its role only after it exists, and its first version
      only after its core definition exists. */
  lemma GroupSetupOrder(inp: Inputs, config: string)
    ensures Before(ProvisionCalls(inp, config), CreateGroup(GroupName(inp.id), inp.fleet), AssociateRoleToGroup(inp.groupId, inp.groupRole))
    ensures Before(ProvisionCalls(inp, config),
                   CreateCoreDefinition(GroupName(inp.id), [Core(inp.keys.certificateArn, "1", CoreThingArn(inp), true)], inp.fleet),
                   CreateGroupVersion(inp.groupId, inp.coreDefinitionVersionArn))
  {
    var t := ProvisionCalls(inp, config);
    BeforeAt(t, 9, 10, CreateGroup(GroupName(inp.id), inp.fleet), AssociateRoleToGroup(inp.groupId, inp.groupRole));
    BeforeAt(t, 11, 12, CreateCoreDefinition(GroupName(inp.id), [Core(inp.keys.certificateArn, "1", CoreThingArn(inp), true)], inp.fleet),
             CreateGroupVersion(inp.groupId, inp.coreDefinitionVersionArn));
  }

  /** Every principal attached to a thing is the new certificate, and the
      provisioning calls upload nothing. */
  lemma ProvisionCallsShape(inp: Inputs, config: string)
    ensures forall i :: 0 <= i < |ProvisionCalls(inp, config)| && ProvisionCalls(inp, config)[i].AttachThingPrincipal? ==>
      ProvisionCalls(inp, config)[i].principal == inp.keys.certificateArn
    ensures forall i :: 0 <= i < |ProvisionCalls(inp, config)| ==> !ProvisionCalls(inp, config)[i].UploadParams?
  {
    var t := ProvisionCalls(inp, config);
    forall i | 0 <= i < |t|
      ensures t[i].AttachThingPrincipal? ==> t[i].principal == inp.keys.certificateArn
      ensures !t[i].UploadParams?
    {
      if i < 2 {
      } else if i < 4 {
      } else if i < 6 {
      } else {
      }
    }
  }

  /** Lines 41-117: the certificate, both things, the key files, the
      configuration, the group and its core definition. */
  method Provision(inp: Inputs) returns (trace: seq<Action>)
    ensures trace == ProvisionCalls(inp, Config(inp))
  {
    var coreName := CoreName(inp.id);
    var deviceName := DeviceName(inp.id);
    var groupName := GroupName(inp.id);
    var thingArn := ThingArn(inp.region, inp.account, coreName);
    var certArn := inp.keys.certificateArn;
    trace := [CreateKeysAndCertificate(true), AttachPolicy(inp.policyName, certArn)];
    trace := CreateThingAndAttachedCert(trace, coreName, certArn);
    trace := CreateThingAndAttachedCert(trace, deviceName, certArn);
    trace := trace + [WriteFile(CertDir + inp.keys.certificateId + ".pem", inp.keys.certificatePem)];
    trace := trace + [WriteFile(CertDir + inp.keys.certificateId + ".key", inp.keys.privateKey)];
    var config := ConfigText(inp.template, inp.keys.certificateId, inp.keys.certificatePem, inp.keys.privateKey,
                             inp.region, inp.account, inp.endpoint, coreName);
    trace := trace + [WriteFile(ConfigPath, config)];
    trace := trace + [CreateGroup(groupName, inp.fleet), AssociateRoleToGroup(inp.groupId, inp.groupRole)];
    var cores := [Core(certArn, "1", thingArn, true)];
    trace := trace + [CreateCoreDefinition(groupName, cores, inp.fleet),
                      CreateGroupVersion(inp.groupId, inp.coreDefinitionVersionArn)];
  }

  /** Create a thing and attach the certificate to it. */
  method CreateThingAndAttachedCert(trace: seq<Action>, thingName: string, certArn: string)
    returns (trace': seq<Action>)
    ensures trace' == trace + ThingWithCert(thingName, certArn)
  {
    trace' := trace + [CreateThing(thingName)];
    trace' := trace' + [AttachThingPrincipal(thingName, certArn)];
  }

  /** Lines 119-145: look up the bucket; when it is there, upload the list
      holding the one record of the new group; a lookup error is only
      logged. */
  method PublishTarget(lookup: BucketLookup, record: ParameterSet)
    returns (actions: seq<Action>, uploaded: seq<ParameterSet>, log: seq<LogEntry>)
    ensures uploaded == if lookup.Found? then [record] else []
    ensures lookup.Found? ==> actions == [UploadParams(lookup.bucket, [record])]
    ensures !lookup.Found? ==> actions == []
    ensures lookup.Found? ==> log == [BucketName(lookup.bucket), Record(record)]
    ensures lookup.ParameterNotFound? ==> log == [ErrorResponse("ParameterNotFound")]
    ensures lookup.OtherError? ==> log == [ErrorResponse(lookup.code)]
  {
    uploaded, actions, log := [], [], [];
    match lookup {
      case Found(bucket) =>
        log := log + [BucketName(bucket)];
        uploaded := uploaded + [record];
        log := log + [Record(record)];
        actions := actions + [UploadParams(bucket, uploaded)];
      case ParameterNotFound =>
        log := log + [ErrorResponse("ParameterNotFound")];
      case OtherError(code) =>
        log := log + [ErrorResponse(code)];
    }
  }

  /** The whole script: every call of lines 41-117, then the upload of the
      one-record list when the bucket parameter exists. */
  method Register(inp: Inputs, lookup: BucketLookup)
    returns (trace: seq<Action>, uploaded: seq<ParameterSet>, log: seq<LogEntry>)
    ensures uploaded == if lookup.Found? then [Target(inp)] else []
    ensures trace == ProvisionCalls(inp, Config(inp)) + if lookup.Found? then [UploadParams(lookup.bucket, uploaded)] else []
    ensures lookup.Found? ==> log == [BucketName(lookup.bucket), Record(Target(inp))]
    ensures !lookup.Found? ==> |log| == 1 && log[0].ErrorResponse?
  {
    trace := Provision(inp);
    var record := ParameterSet(inp.groupId, GroupName(inp.id), ThingArn(inp.region, inp.account, CoreName(inp.id)),
                               inp.keys.certificateArn);
    var actions;
    actions, uploaded, log := PublishTarget(lookup, record);
    trace := trace + actions;
  }

  /** Of the whole script: both things exist with the new certificate before
      anything is uploaded, and exactly one upload happens, of exactly the
      new group's record, when the bucket parameter exists. */
  lemma RegisterFacts(inp: Inputs, lookup: BucketLookup, trace: seq<Action>, uploaded: seq<ParameterSet>)
    requires uploaded == if lookup.Found? then [Target(inp)] else []
    requires trace == ProvisionCalls(inp, Config(inp)) + if lookup.Found? then [UploadParams(lookup.bucket, uploaded)] else []
    ensures Before(trace, CreateThing(CoreName(inp.id)), AttachThingPrincipal(CoreName(inp.id), inp.keys.certificateArn))
    ensures Before(trace, CreateThing(DeviceName(inp.id)), AttachThingPrincipal(DeviceName(inp.id), inp.keys.certificateArn))
    ensures forall i :: 0 <= i < |trace| && trace[i].UploadParams? ==>
      lookup.Found? && i == |trace| - 1 && trace[i].records == [Target(inp)]
    ensures lookup.Found? ==> trace[|trace| - 1] == UploadParams(lookup.bucket, [Target(inp)])
  {
    var config := Config(inp);
    var p := ProvisionCalls(inp, config);
    var more := if lookup.Found? then [UploadParams(lookup.bucket, uploaded)] else [];
    ThingsGetCertificate(inp, config);
    ProvisionCallsShape(inp, config);
    BeforeAppend(p, more, CreateThing(CoreName(inp.id)), AttachThingPrincipal(CoreName(inp.id), inp.keys.certificateArn));
    BeforeAppend(p, more, CreateThing(DeviceName(inp.id)), AttachThingPrincipal(DeviceName(inp.id), inp.keys.certificateArn));
    forall i | 0 <= i < |p| ensures !trace[i].UploadParams? {
      assert trace[i] == p[i];
    }
  }
}
