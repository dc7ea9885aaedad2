/** The deployment target discovery script: for every Greengrass group that
    carries the requested fleet tag, it follows the group's latest version to
    its core definition version and writes one record per group holding the
    group id and name and the core's thing and certificate ARNs. The tagging
    query's pages and the three Greengrass reads are parameters. */
module DeploymentTargets {
  import opened PyStr
  import opened Records

  /** What get_group answers. */
  datatype GroupInfo = GroupInfo(name: string, latestVersion: string)

  /** One entry of a core definition version's Cores list. */
  datatype CoreEntry = CoreEntry(thingArn: string, certificateArn: string)

  /** The three Greengrass reads: get_group by group id, the
      CoreDefinitionVersionArn of get_group_version by group id and version
      id, and the Cores of get_core_definition_version by definition id and
      version id. */
  datatype Greengrass = Greengrass(
    getGroup: string -> GroupInfo,
    coreDefinitionVersionArn: (string, string) -> string,
    cores: (string, string) -> seq<CoreEntry>)

  /** The IndexError that stops the script before anything is written. */
  datatype Fault = ArnTooShort(arn: string) | NoCores(groupId: string)

  datatype Outcome = Written(records: seq<ParameterSet>) | Crashed(fault: Fault)

  datatype Result<T> = Ok(value: T) | Err(fault: Fault)

  /** `group_arn.split('/')[-1]`. */
  function GroupIdOf(groupArn: string): string
  {
    LastField(groupArn, '/')
  }

  /** `split('/')[-3]` and `split('/')[-1]` of a core definition version
      ARN: the definition id and the version id, or None when the first
      index raises. */
  function CoreDefinitionRef(arn: string): (r: Option<(string, string)>)
  {
    var fields := Split(arn, '/');
    match At(fields, -3)
    case None => None
    case Some(defId) => Some((defId, At(fields, -1).value))
  }

  /** The record of one tagged group. */
  function RecordFor(groupArn: string, gg: Greengrass): Result<ParameterSet>
  {
    var groupId := GroupIdOf(groupArn);
    var group := gg.getGroup(groupId);
    var arn := gg.coreDefinitionVersionArn(groupId, group.latestVersion);
    match CoreDefinitionRef(arn)
    case None => Err(ArnTooShort(arn))
    case Some(ref) =>
      var cores := gg.cores(ref.0, ref.1);
      if cores == [] then Err(NoCores(groupId))
      else Ok(ParameterSet(groupId, group.name, cores[0].thingArn, cores[0].certificateArn))
  }

  /** The resources of all pages, in page order and item order. */
  function Flatten(pages: seq<seq<string>>): seq<string>
  {
    if pages == [] then [] else Flatten(pages[..|pages| - 1]) + pages[|pages| - 1]
  }

  /** The outcome of processing `resources` one after the other. */
  function Discover(resources: seq<string>, gg: Greengrass): Outcome
  {
    if resources == [] then Written([])
    else
      var n := |resources| - 1;
      match Discover(resources[..n], gg)
      case Crashed(f) => Crashed(f)
      case Written(rs) =>
        match RecordFor(resources[n], gg)
        case Err(f) => Crashed(f)
        case Ok(r) => Written(rs + [r])
  }

  // ---------------------------------------------------------------------
  // ARNs

  /** The index raises exactly when the ARN has fewer than three fields. */
  lemma CoreDefinitionRefDefined(arn: string)
    ensures CoreDefinitionRef(arn).Some? <==> |Split(arn, '/')| >= 3
  {
  }

  /** The last three fields of `…/a/b/c` are `a`, `b` and `c`. */
  lemma {:induction false} LastThreeFields(prefix: string, a: string, b: string, c: string)
    requires '/' !in a && '/' !in b && '/' !in c
    ensures Split(prefix + "/" + a + "/" + b + "/" + c, '/') == Split(prefix, '/') + [a, b, c]
  {
    assert prefix + "/" + a + "/" + b + "/" + c == prefix + ['/'] + (a + ['/'] + (b + ['/'] + c));
    SplitAtSeparator(prefix, a + ['/'] + (b + ['/'] + c), '/');
    SplitAtSeparator(a, b + ['/'] + c, '/');
    SplitAtSeparator(b, c, '/');
    SplitNoSeparator(a, '/');
    SplitNoSeparator(b, '/');
    SplitNoSeparator(c, '/');
  }

  /** A core definition version ARN `…/<id>/versions/<version>` gives back its
      id and its version. */
  lemma CoreDefinitionRefRoundTrip(prefix: string, defId: string, version: string)
    requires '/' !in defId && '/' !in version
    ensures CoreDefinitionRef(prefix + "/" + defId + "/versions/" + version) == Some((defId, version))
  {
    var v := "versions";
    assert '/' !in v;
    assert prefix + "/" + defId + "/versions/" + version == prefix + "/" + defId + "/" + v + "/" + version;
    LastThreeFields(prefix, defId, v, version);
    var fields := Split(prefix, '/');
    AtAppendBack(fields, [defId, v, version], 3);
    AtAppendBack(fields, [defId, v, version], 1);
  }

  /** A group ARN `…/<id>` gives back its id. */
  lemma GroupIdRoundTrip(prefix: string, groupId: string)
    requires '/' !in groupId
    ensures GroupIdOf(prefix + "/" + groupId) == groupId
  {
    assert prefix + "/" + groupId == prefix + ['/'] + groupId;
    LastFieldAfterSeparator(prefix, groupId, '/');
  }

  // ---------------------------------------------------------------------
  // The list

  /** A crash ends the script: later resources change nothing. */
  lemma {:induction false} DiscoverCrashStays(xs: seq<string>, ys: seq<string>, gg: Greengrass)
    requires Discover(xs, gg).Crashed?
    ensures Discover(xs + ys, gg) == Discover(xs, gg)
    decreases |ys|
  {
    if ys == [] {
      assert xs + ys == xs;
    } else {
      var n := |ys| - 1;
      assert (xs + ys)[..|xs + ys| - 1] == xs + ys[..n];
      DiscoverCrashStays(xs, ys[..n], gg);
    }
  }

  /** One more resource: its record is appended, or its fault ends the
      script. */
  lemma DiscoverExtend(xs: seq<string>, x: string, rs: seq<ParameterSet>, gg: Greengrass)
    requires Discover(xs, gg) == Written(rs)
    ensures RecordFor(x, gg).Ok? ==> Discover(xs + [x], gg) == Written(rs + [RecordFor(x, gg).value])
    ensures RecordFor(x, gg).Err? ==> Discover(xs + [x], gg) == Crashed(RecordFor(x, gg).fault)
  {
    assert (xs + [x])[..|xs|] == xs;
  }

  /** When nothing fails, the written list holds exactly one record per
      resource, in order, each the record of that resource. */
  lemma {:induction false} DiscoverWritten(resources: seq<string>, gg: Greengrass)
    ensures Discover(resources, gg).Written? <==> forall i :: 0 <= i < |resources| ==> RecordFor(resources[i], gg).Ok?
    ensures Discover(resources, gg).Written? ==>
      && |Discover(resources, gg).records| == |resources|
      && forall i :: 0 <= i < |resources| ==> Discover(resources, gg).records[i] == RecordFor(resources[i], gg).value
  {
    if resources != [] {
      var n := |resources| - 1;
      var xs := resources[..n];
      assert resources == xs + [resources[n]];
      DiscoverWritten(xs, gg);
      assert forall i :: 0 <= i < n ==> xs[i] == resources[i];
      var prev := Discover(xs, gg);
      if prev.Written? {
        DiscoverExtend(xs, resources[n], prev.records, gg);
      }
    }
  }

  /** Resource `i` is the first whose record fails, with fault `f`. */
  predicate FirstFault(resources: seq<string>, gg: Greengrass, i: int, f: Fault)
  {
    && 0 <= i < |resources| && RecordFor(resources[i], gg) == Err(f)
    && forall j :: 0 <= j < i ==> RecordFor(resources[j], gg).Ok?
  }

  /** A crash reports the fault of the first resource whose record fails. */
  lemma {:induction false} DiscoverCrashed(resources: seq<string>, gg: Greengrass)
    requires Discover(resources, gg).Crashed?
    ensures exists i :: FirstFault(resources, gg, i, Discover(resources, gg).fault)
  {
    var n := |resources| - 1;
    var prev := Discover(resources[..n], gg);
    if prev.Crashed? {
      DiscoverCrashed(resources[..n], gg);
      var i :| FirstFault(resources[..n], gg, i, prev.fault);
      assert resources[..n][i] == resources[i];
      assert forall j :: 0 <= j < i ==> resources[..n][j] == resources[j];
      assert FirstFault(resources, gg, i, prev.fault);
    } else {
      DiscoverWritten(resources[..n], gg);
      assert forall j :: 0 <= j < n ==> resources[..n][j] == resources[j];
      assert FirstFault(resources, gg, n, Discover(resources, gg).fault);
    }
  }

  /** Every written record carries its resource's group id, the last field of
      the group ARN. */
  lemma {:induction false} WrittenGroupIds(resources: seq<string>, gg: Greengrass)
    requires Discover(resources, gg).Written?
    ensures |Discover(resources, gg).records| == |resources|
      && forall i :: 0 <= i < |resources| ==> Discover(resources, gg).records[i].groupId == GroupIdOf(resources[i])
  {
    DiscoverWritten(resources, gg);
  }

  /** With no tagged group on any page the written list is empty. */
  lemma {:induction false} NoTaggedGroups(pages: seq<seq<string>>, gg: Greengrass)
    requires forall i :: 0 <= i < |pages| ==> pages[i] == []
    ensures Flatten(pages) == []
    ensures Discover(Flatten(pages), gg) == Written([])
  {
    if pages != [] {
      NoTaggedGroups(pages[..|pages| - 1], gg);
    }
  }

  // ---------------------------------------------------------------------
  // The script

  /** The nested loop over pages and the resources of each page. */
  method DiscoverTargets(pages: seq<seq<string>>, gg: Greengrass) returns (outcome: Outcome)
    ensures outcome == Discover(Flatten(pages), gg)
  {
    var parameterSets: seq<ParameterSet> := [];
    for p := 0 to |pages|
      invariant Discover(Flatten(pages[..p]), gg) == Written(parameterSets)
    {
      assert pages[..p + 1][..p] == pages[..p];
      var pageOutcome := DiscoverPage(Flatten(pages[..p]), pages[p], parameterSets, gg);
      if pageOutcome.Crashed? {
        outcome := pageOutcome;
        FlattenConcat(pages, p + 1);
        DiscoverCrashStays(Flatten(pages[..p + 1]), Flatten2(pages, p + 1), gg);
        return;
      }
      parameterSets := pageOutcome.records;
    }
    assert pages[..|pages|] == pages;
    outcome := Written(parameterSets);
  }

  /** The inner loop: the resources of one page, after the records already
      written for the earlier pages. */
  method DiscoverPage(earlier: seq<string>, page: seq<string>, parameterSets: seq<ParameterSet>, gg: Greengrass)
    returns (outcome: Outcome)
    requires Discover(earlier, gg) == Written(parameterSets)
    ensures outcome == Discover(earlier + page, gg)
  {
    var written := parameterSets;
    assert earlier + page[..0] == earlier;
    for q := 0 to |page|
      invariant Discover(earlier + page[..q], gg) == Written(written)
    {
      TakeOneMore(earlier, page, q);
      var record := ReadRecord(page[q], gg);
      DiscoverExtend(earlier + page[..q], page[q], written, gg);
      if record.Err? {
        outcome := Crashed(record.fault);
        DiscoverCrashStays(earlier + page[..q + 1], page[q + 1..], gg);
        return;
      }
      written := written + [record.value];
    }
    assert page[..|page|] == page;
    outcome := Written(written);
  }

  lemma TakeOneMore<T>(e: seq<T>, p: seq<T>, q: nat)
    requires q < |p|
    ensures e + p[..q + 1] == (e + p[..q]) + [p[q]]
    ensures (e + p[..q + 1]) + p[q + 1..] == e + p
  {
    assert p[..q + 1] == p[..q] + [p[q]];
    assert p[..q + 1] + p[q + 1..] == p;
  }

  /** The body of the inner loop: the three reads for one tagged group and
      the two indexings that can raise. */
  method ReadRecord(groupArn: string, gg: Greengrass) returns (r: Result<ParameterSet>)
    ensures r == RecordFor(groupArn, gg)
  {
    var groupId := LastField(groupArn, '/');
    var group := gg.getGroup(groupId);
    var arn := gg.coreDefinitionVersionArn(groupId, group.latestVersion);
    var fields := Split(arn, '/');
    if |fields| < 3 {
      return Err(ArnTooShort(arn));
    }
    var defId := fields[|fields| - 3];
    var version := fields[|fields| - 1];
    var cores := gg.cores(defId, version);
    if |cores| == 0 {
      return Err(NoCores(groupId));
    }
    r := Ok(ParameterSet(groupId, group.name, cores[0].thingArn, cores[0].certificateArn));
  }

  /** The pages after page `p`, flattened. */
  function Flatten2(pages: seq<seq<string>>, p: nat): seq<string>
    requires p <= |pages|
    decreases |pages| - p
  {
    if p == |pages| then [] else pages[p] + Flatten2(pages, p + 1)
  }

  lemma {:induction false} FlattenConcat(pages: seq<seq<string>>, p: nat)
    requires p <= |pages|
    ensures Flatten(pages) == Flatten(pages[..p]) + Flatten2(pages, p)
    decreases |pages| - p
  {
    if p < |pages| {
      FlattenConcat(pages, p + 1);
      assert pages[..p + 1][..p] == pages[..p];
    } else {
      assert pages[..p] == pages;
    }
  }
}
