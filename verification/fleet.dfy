/** How the fleet scripts fit together: the names the registration script
    makes are the ones clean-up recognises, the record discovered for a
    registered group is the record the registration script uploads, and the
    deployment script keys its deployments by the group ids discovered. */
module Fleet {
  import opened PyStr
  import opened Records
  import R = Registration
  import C = CleanUp
  import T = DeploymentTargets
  import D = Deploy

  /** Clean-up recovers from a registered group's name exactly the id the
      registration script drew, and deletes that group after resetting it. */
  lemma CleanUpRecoversId(p: C.Progress, id: string, groupId: string, tags: C.Tags)
    requires p.ok && R.IsGgId(id)
    ensures C.DeleteGroupStep(p, C.GroupInfo(groupId, R.GroupName(id), tags))
      == p.(uuids := p.uuids + [id], trace := p.trace + [C.ResetDeployments(groupId, true), C.DeleteGroup(groupId)])
  {
    R.GroupNameFields(id);
  }

  /** Once that id is in `gg_uuid`, both things the registration script made
      for the group are picked for deletion. */
  lemma CleanUpMatchesRegisteredThings(id: string, uuids: seq<string>)
    requires id in uuids
    ensures C.Matches(R.CoreName(id), uuids) && C.Matches(R.DeviceName(id), uuids)
  {
    R.NamesContainId(id);
    var i :| 0 <= i < |uuids| && uuids[i] == id;
    assert Contains(R.CoreName(id), uuids[i]);
    assert Contains(R.DeviceName(id), uuids[i]);
  }

  /** The registered group, seen through the target discovery script: the
      group ARN ends in the group id, get_group answers the group name, the
      latest version points at the core definition version the registration
      script created, and its first core is the registered core. Then the
      record discovered is the very record the registration script
      uploads. */
  lemma DiscoveredRegisteredGroup(inp: R.Inputs, gg: T.Greengrass, arnPrefix: string, latest: string,
                                  definitionPrefix: string, definitionId: string, version: string)
    requires '/' !in inp.groupId && '/' !in definitionId && '/' !in version
    requires gg.getGroup(inp.groupId) == T.GroupInfo(R.GroupName(inp.id), latest)
    requires gg.coreDefinitionVersionArn(inp.groupId, latest) == inp.coreDefinitionVersionArn
    requires inp.coreDefinitionVersionArn == definitionPrefix + "/" + definitionId + "/versions/" + version
    requires gg.cores(definitionId, version) != []
    requires gg.cores(definitionId, version)[0] == T.CoreEntry(R.CoreThingArn(inp), inp.keys.certificateArn)
    ensures T.RecordFor(arnPrefix + "/" + inp.groupId, gg) == T.Ok(R.Target(inp))
  {
    T.GroupIdRoundTrip(arnPrefix, inp.groupId);
    T.CoreDefinitionRefRoundTrip(definitionPrefix, definitionId, version);
  }

  /** When discovery writes its list, the deployment script holds one
      outstanding deployment per distinct group id taken from the tagged
      group ARNs, and for no other group. */
  lemma DeployDiscovered(resources: seq<string>, gg: T.Greengrass, deploymentIdOf: nat -> string)
    requires T.Discover(resources, gg).Written?
    ensures var d := D.Submitted(T.Discover(resources, gg).records, deploymentIdOf);
      && D.Tracks(d)
      && forall g :: g in D.Keys(d) <==> exists i :: 0 <= i < |resources| && g == T.GroupIdOf(resources[i])
  {
    var records := T.Discover(resources, gg).records;
    D.SubmittedTracks(records, deploymentIdOf);
    T.WrittenGroupIds(resources, gg);
    forall g ensures g in GroupIds(records) <==> exists i :: 0 <= i < |resources| && g == T.GroupIdOf(resources[i]) {
      if g in GroupIds(records) {
        var i :| 0 <= i < |records| && GroupIds(records)[i] == g;
        assert g == T.GroupIdOf(resources[i]);
      }
      if exists i :: 0 <= i < |resources| && g == T.GroupIdOf(resources[i]) {
        var i :| 0 <= i < |resources| && g == T.GroupIdOf(resources[i]);
        assert GroupIds(records)[i] == g;
      }
    }
  }
}
