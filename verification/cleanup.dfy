/** The clean-up script: it deletes every Greengrass group tagged for the
    canary or the main fleet, every IoT thing whose name holds the id taken
    from such a group's name together with the thing's certificates, and
    every core definition with the same tag. The Greengrass and IoT reads are
    parameters; every mutating call is an entry of the action trace. */
module CleanUp {
  import opened PyStr
  import opened Records

  /** A resource's tags; None when the response has no `tags` key. */
  type Tags = Option<map<string, string>>

  /** What get_group answers. */
  datatype GroupInfo = GroupInfo(id: string, name: string, tags: Tags)

  /** The reads the script makes: the group ids of list_groups, get_group,
      the thing names of list_things, list_thing_principals, the core
      definition ids of list_core_definitions and the tags of
      get_core_definition. */
  datatype Cloud = Cloud(
    groups: seq<string>,
    getGroup: string -> GroupInfo,
    things: seq<string>,
    principals: string -> seq<string>,
    coreDefinitions: seq<string>,
    coreDefinitionTags: string -> Tags)

  /** The mutating calls, in the order the script issues them. */
  datatype Action =
    | ResetDeployments(groupId: string, force: bool)
    | DeleteGroup(groupId: string)
    | DetachThingPrincipal(thingName: string, principal: string)
    | DeleteThing(thingName: string)
    | UpdateCertificate(certificateId: string, newStatus: string)
    | DeleteCertificate(certificateId: string, forceDelete: bool)
    | DeleteCoreDefinition(coreDefinitionId: string)

  /** The script's accumulated state: `gg_uuid`, `certificates_to_delete`,
      the calls made so far, and whether it is still running (false once an
      IndexError has stopped it). */
  datatype Progress = Progress(uuids: seq<string>, certs: seq<string>, trace: seq<Action>, ok: bool)

  const Start := Progress([], [], [], true)

  /** `tags.get('fleet', '')` of `get('tags', {})`. */
  function FleetTag(tags: Tags): string
  {
    match tags
    case None => ""
    case Some(m) => if "fleet" in m then m["fleet"] else ""
  }

  /** The fleets whose resources are removed. */
  predicate IsFleetTag(tag: string)
  {
    tag == "canary" || tag == "main"
  }

  predicate Tagged(tags: Tags)
  {
    IsFleetTag(FleetTag(tags))
  }

  // ---------------------------------------------------------------------
  // The script as functions, each loop read from its last iteration back

  /** `groups_to_delete`: the tagged groups, in list_groups order. */
  function Select(groups: seq<string>, getGroup: string -> GroupInfo): seq<GroupInfo>
  {
    if groups == [] then []
    else
      var n := |groups| - 1;
      var info := getGroup(groups[n]);
      Select(groups[..n], getGroup) + (if Tagged(info.tags) then [info] else [])
  }

  /** One iteration of the group loop: the third '-'-separated field of the
      name joins `gg_uuid`, then the group's deployments are reset and the
      group is deleted. */
  function DeleteGroupStep(p: Progress, g: GroupInfo): Progress
  {
    if !p.ok then p
    else
      match At(Split(g.name, '-'), 2)
      case None => p.(ok := false)
      case Some(u) => p.(uuids := p.uuids + [u], trace := p.trace + [ResetDeployments(g.id, true), DeleteGroup(g.id)])
  }

  function DeleteGroups(p: Progress, gs: seq<GroupInfo>): Progress
  {
    if gs == [] then p else DeleteGroupStep(DeleteGroups(p, gs[..|gs| - 1]), gs[|gs| - 1])
  }

  /** `any(t in thing_name for t in gg_uuid)`. */
  predicate Matches(thingName: string, uuids: seq<string>)
  {
    exists i :: 0 <= i < |uuids| && Contains(thingName, uuids[i])
  }

  /** One iteration of the principal loop: the second '/'-separated field of
      the principal is the certificate id, kept once, then the principal is
      detached. */
  function DetachStep(p: Progress, thingName: string, principal: string): Progress
  {
    if !p.ok then p
    else
      match At(Split(principal, '/'), 1)
      case None => p.(ok := false)
      case Some(c) =>
        p.(certs := if c in p.certs then p.certs else p.certs + [c],
           trace := p.trace + [DetachThingPrincipal(thingName, principal)])
  }

  function DetachAll(p: Progress, thingName: string, ps: seq<string>): Progress
  {
    if ps == [] then p else DetachStep(DetachAll(p, thingName, ps[..|ps| - 1]), thingName, ps[|ps| - 1])
  }

  /** One iteration of the thing loop. */
  function ThingStep(p: Progress, thingName: string, principals: string -> seq<string>): Progress
  {
    if !p.ok || !Matches(thingName, p.uuids) then p
    else
      var d := DetachAll(p, thingName, principals(thingName));
      if !d.ok then d else d.(trace := d.trace + [DeleteThing(thingName)])
  }

  function DeleteThings(p: Progress, things: seq<string>, principals: string -> seq<string>): Progress
  {
    if things == [] then p
    else
      var n := |things| - 1;
      ThingStep(DeleteThings(p, things[..n], principals), things[n], principals)
  }

  /** The certificate loop: deactivate, then force-delete, each certificate. */
  function CertificateActions(certs: seq<string>): seq<Action>
  {
    if certs == [] then []
    else
      var n := |certs| - 1;
      CertificateActions(certs[..n]) + [UpdateCertificate(certs[n], "INACTIVE"), DeleteCertificate(certs[n], true)]
  }

  /** The core definition loop: delete the tagged ones. */
  function CoreDefinitionActions(ids: seq<string>, tagsOf: string -> Tags): seq<Action>
  {
    if ids == [] then []
    else
      var n := |ids| - 1;
      CoreDefinitionActions(ids[..n], tagsOf) + (if Tagged(tagsOf(ids[n])) then [DeleteCoreDefinition(ids[n])] else [])
  }

  /** The whole script. */
  function Run(cloud: Cloud): Progress
  {
    var selected := Select(cloud.groups, cloud.getGroup);
    if selected == [] then Start
    else
      var t := DeleteThings(DeleteGroups(Start, selected), cloud.things, cloud.principals);
      if !t.ok then t
      else t.(trace := t.trace + CertificateActions(t.certs) + CoreDefinitionActions(cloud.coreDefinitions, cloud.coreDefinitionTags))
  }

  // ---------------------------------------------------------------------
  // The script

  method CleanUp(cloud: Cloud) returns (trace: seq<Action>, completed: bool)
    ensures trace == Run(cloud).trace && completed == Run(cloud).ok
    ensures Select(cloud.groups, cloud.getGroup) == [] ==> trace == [] && completed
  {
    var selected := SelectGroups(cloud.groups, cloud.getGroup);
    if |selected| == 0 {
      return [], true;
    }
    var uuids;
    uuids, trace, completed := DeleteSelectedGroups(selected);
    if !completed {
      DeleteThingsIdle(DeleteGroups(Start, selected), cloud.things, cloud.principals);
      return;
    }
    var certs;
    certs, trace, completed := DeleteMatchingThings(uuids, trace, cloud.things, cloud.principals);
    if !completed {
      return;
    }
    trace := DeleteCertificates(certs, trace);
    trace := DeleteTaggedCoreDefinitions(cloud.coreDefinitions, cloud.coreDefinitionTags, trace);
  }

  method SelectGroups(groups: seq<string>, getGroup: string -> GroupInfo) returns (selected: seq<GroupInfo>)
    ensures selected == Select(groups, getGroup)
  {
    selected := [];
    for i := 0 to |groups|
      invariant selected == Select(groups[..i], getGroup)
    {
      assert groups[..i + 1][..i] == groups[..i];
      var info := getGroup(groups[i]);
      if FleetTag(info.tags) == "canary" || FleetTag(info.tags) == "main" {
        selected := selected + [info];
      }
    }
    assert groups[..|groups|] == groups;
  }

  method DeleteSelectedGroups(selected: seq<GroupInfo>) returns (uuids: seq<string>, trace: seq<Action>, ok: bool)
    ensures Progress(uuids, [], trace, ok) == DeleteGroups(Start, selected)
  {
    uuids, trace, ok := [], [], true;
    for i := 0 to |selected|
      invariant ok && Progress(uuids, [], trace, ok) == DeleteGroups(Start, selected[..i])
    {
      assert selected[..i + 1][..i] == selected[..i];
      var fields := Split(selected[i].name, '-');
      if |fields| < 3 {
        ok := false;
        DeleteGroupsStop(selected, i + 1);
        return;
      }
      uuids := uuids + [fields[2]];
      trace := trace + [ResetDeployments(selected[i].id, true), DeleteGroup(selected[i].id)];
    }
    assert selected[..|selected|] == selected;
  }

  method DeleteMatchingThings(uuids: seq<string>, trace0: seq<Action>, things: seq<string>, principals: string -> seq<string>)
    returns (certs: seq<string>, trace: seq<Action>, ok: bool)
    ensures Progress(uuids, certs, trace, ok) == DeleteThings(Progress(uuids, [], trace0, true), things, principals)
  {
    certs, trace, ok := [], trace0, true;
    for i := 0 to |things|
      invariant ok && Progress(uuids, certs, trace, ok) == DeleteThings(Progress(uuids, [], trace0, true), things[..i], principals)
    {
      assert things[..i + 1][..i] == things[..i];
      var thingName := things[i];
      var matched := AnyContained(thingName, uuids);
      if matched {
        var ps := principals(thingName);
        certs, trace, ok := DetachPrincipals(uuids, certs, trace, thingName, ps);
        if !ok {
          DeleteThingsStop(Progress(uuids, [], trace0, true), things, i + 1, principals);
          return;
        }
        trace := trace + [DeleteThing(thingName)];
      }
    }
    assert things[..|things|] == things;
  }

  /** The generator inside `any`: stops at the first id the name holds. */
  method AnyContained(thingName: string, uuids: seq<string>) returns (found: bool)
    ensures found <==> Matches(thingName, uuids)
  {
    for i := 0 to |uuids|
      invariant forall j :: 0 <= j < i ==> !Contains(thingName, uuids[j])
    {
      if Contains(thingName, uuids[i]) {
        return true;
      }
    }
    return false;
  }

  method DetachPrincipals(uuids: seq<string>, certs0: seq<string>, trace0: seq<Action>, thingName: string, ps: seq<string>)
    returns (certs: seq<string>, trace: seq<Action>, ok: bool)
    ensures Progress(uuids, certs, trace, ok) == DetachAll(Progress(uuids, certs0, trace0, true), thingName, ps)
  {
    certs, trace, ok := certs0, trace0, true;
    for i := 0 to |ps|
      invariant ok && Progress(uuids, certs, trace, ok) == DetachAll(Progress(uuids, certs0, trace0, true), thingName, ps[..i])
    {
      assert ps[..i + 1][..i] == ps[..i];
      var fields := Split(ps[i], '/');
      if |fields| < 2 {
        ok := false;
        DetachAllStop(Progress(uuids, certs0, trace0, true), thingName, ps, i + 1);
        return;
      }
      var certId := fields[1];
      if certId !in certs {
        certs := certs + [certId];
      }
      trace := trace + [DetachThingPrincipal(thingName, ps[i])];
    }
    assert ps[..|ps|] == ps;
  }

  method DeleteCertificates(certs: seq<string>, trace0: seq<Action>) returns (trace: seq<Action>)
    ensures trace == trace0 + CertificateActions(certs)
  {
    trace := trace0;
    for i := 0 to |certs|
      invariant trace == trace0 + CertificateActions(certs[..i])
    {
      assert certs[..i + 1][..i] == certs[..i];
      ghost var done := CertificateActions(certs[..i]);
      assert CertificateActions(certs[..i + 1]) == done + [UpdateCertificate(certs[i], "INACTIVE"), DeleteCertificate(certs[i], true)];
      trace := trace + [UpdateCertificate(certs[i], "INACTIVE"), DeleteCertificate(certs[i], true)];
    }
    assert certs[..|certs|] == certs;
  }

  method DeleteTaggedCoreDefinitions(ids: seq<string>, tagsOf: string -> Tags, trace0: seq<Action>) returns (trace: seq<Action>)
    ensures trace == trace0 + CoreDefinitionActions(ids, tagsOf)
  {
    trace := trace0;
    for i := 0 to |ids|
      invariant trace == trace0 + CoreDefinitionActions(ids[..i], tagsOf)
    {
      assert ids[..i + 1][..i] == ids[..i];
      ghost var done := CoreDefinitionActions(ids[..i], tagsOf);
      var tags := tagsOf(ids[i]);
      if FleetTag(tags) == "canary" || FleetTag(tags) == "main" {
        assert CoreDefinitionActions(ids[..i + 1], tagsOf) == done + [DeleteCoreDefinition(ids[i])];
        trace := trace + [DeleteCoreDefinition(ids[i])];
      } else {
        assert CoreDefinitionActions(ids[..i + 1], tagsOf) == done + [];
      }
    }
    assert ids[..|ids|] == ids;
  }

  // ---------------------------------------------------------------------
  // A stopped script stays stopped

  lemma {:induction false} DeleteGroupsStop(gs: seq<GroupInfo>, k: nat)
    requires k <= |gs| && !DeleteGroups(Start, gs[..k]).ok
    ensures DeleteGroups(Start, gs) == DeleteGroups(Start, gs[..k])
    decreases |gs|
  {
    if k < |gs| {
      assert gs[..|gs| - 1][..k] == gs[..k];
      DeleteGroupsStop(gs[..|gs| - 1], k);
    } else {
      assert gs[..k] == gs;
    }
  }

  lemma {:induction false} DetachAllStop(p: Progress, thingName: string, ps: seq<string>, k: nat)
    requires k <= |ps| && !DetachAll(p, thingName, ps[..k]).ok
    ensures DetachAll(p, thingName, ps) == DetachAll(p, thingName, ps[..k])
    decreases |ps|
  {
    if k < |ps| {
      assert ps[..|ps| - 1][..k] == ps[..k];
      DetachAllStop(p, thingName, ps[..|ps| - 1], k);
    } else {
      assert ps[..k] == ps;
    }
  }

  /** Once stopped, the thing loop changes nothing. */
  lemma {:induction false} DeleteThingsIdle(p: Progress, things: seq<string>, principals: string -> seq<string>)
    requires !p.ok
    ensures DeleteThings(p, things, principals) == p
  {
    if things != [] {
      DeleteThingsIdle(p, things[..|things| - 1], principals);
    }
  }

  lemma {:induction false} DeleteThingsStop(p: Progress, things: seq<string>, k: nat, principals: string -> seq<string>)
    requires k <= |things| && !DeleteThings(p, things[..k], principals).ok
    ensures DeleteThings(p, things, principals) == DeleteThings(p, things[..k], principals)
    decreases |things|
  {
    if k < |things| {
      assert things[..|things| - 1][..k] == things[..k];
      DeleteThingsStop(p, things[..|things| - 1], k, principals);
    } else {
      assert things[..k] == things;
    }
  }

  // ---------------------------------------------------------------------
  // Group selection

  /** Selection distributes over concatenation: it keeps list_groups order. */
  lemma {:induction false} SelectAppend(xs: seq<string>, ys: seq<string>, getGroup: string -> GroupInfo)
    ensures Select(xs + ys, getGroup) == Select(xs, getGroup) + Select(ys, getGroup)
    decreases |ys|
  {
    if ys == [] {
      assert xs + ys == xs;
    } else {
      var n := |ys| - 1;
      assert (xs + ys)[..|xs + ys| - 1] == xs + ys[..n];
      SelectAppend(xs, ys[..n], getGroup);
    }
  }

  /** A group is selected iff list_groups names it and its fleet tag is
      "canary" or "main"; a missing tags map or key reads as "". */
  lemma {:induction false} SelectMembers(groups: seq<string>, getGroup: string -> GroupInfo, g: GroupInfo)
    ensures g in Select(groups, getGroup) <==>
      exists i :: 0 <= i < |groups| && getGroup(groups[i]) == g && Tagged(g.tags)
    ensures (g.tags.None? || "fleet" !in g.tags.value) ==> g !in Select(groups, getGroup)
  {
    if groups != [] {
      var n := |groups| - 1;
      SelectMembers(groups[..n], getGroup, g);
      assert forall i :: 0 <= i < n ==> groups[..n][i] == groups[i];
    }
  }

  // ---------------------------------------------------------------------
  // The group loop

  /** The loop deletes the first n groups, n being the length of `gg_uuid`,
      two calls each; it stops early exactly at a group whose name has fewer
      than three '-'-separated fields. */
  lemma {:induction false} DeleteGroupsShape(gs: seq<GroupInfo>)
    ensures var r := DeleteGroups(Start, gs); var n := |r.uuids|;
      && n <= |gs| && |r.trace| == 2 * n && r.certs == []
      && (r.ok <==> n == |gs|)
      && (!r.ok ==> At(Split(gs[n].name, '-'), 2) == None)
  {
    if gs != [] {
      var m := |gs| - 1;
      DeleteGroupsShape(gs[..m]);
      assert forall i :: 0 <= i < m ==> gs[..m][i] == gs[i];
    }
  }

  /** For each of those groups, the third field of its name is recorded and
      a forced reset comes right before the delete. */
  lemma DeleteGroupsFacts(gs: seq<GroupInfo>)
    ensures var r := DeleteGroups(Start, gs); var n := |r.uuids|;
      && n <= |gs| && |r.trace| == 2 * n
      && (forall i :: 0 <= i < n ==> At(Split(gs[i].name, '-'), 2) == Some(r.uuids[i]))
      && (forall i :: 0 <= i < n ==> r.trace[2 * i] == ResetDeployments(gs[i].id, true))
      && (forall i :: 0 <= i < n ==> r.trace[2 * i + 1] == DeleteGroup(gs[i].id))
  {
    DeleteGroupsShape(gs);
    DeleteGroupsUuids(gs);
    DeleteGroupsCalls(gs);
  }

  lemma {:induction false} DeleteGroupsUuids(gs: seq<GroupInfo>)
    ensures var r := DeleteGroups(Start, gs);
      && |r.uuids| <= |gs|
      && forall i :: 0 <= i < |r.uuids| ==> At(Split(gs[i].name, '-'), 2) == Some(r.uuids[i])
  {
    if gs != [] {
      var m := |gs| - 1;
      var xs := gs[..m];
      DeleteGroupsUuids(xs);
      DeleteGroupsShape(xs);
      var q := DeleteGroups(Start, xs);
      assert DeleteGroups(Start, gs) == DeleteGroupStep(q, gs[m]);
      assert forall i :: 0 <= i < m ==> xs[i] == gs[i];
    }
  }

  lemma {:induction false} DeleteGroupsCalls(gs: seq<GroupInfo>)
    ensures var r := DeleteGroups(Start, gs); var n := |r.uuids|;
      && n <= |gs| && |r.trace| == 2 * n
      && (forall i :: 0 <= i < n ==> r.trace[2 * i] == ResetDeployments(gs[i].id, true))
      && (forall i :: 0 <= i < n ==> r.trace[2 * i + 1] == DeleteGroup(gs[i].id))
  {
    DeleteGroupsShape(gs);
    if gs != [] {
      var m := |gs| - 1;
      var xs := gs[..m];
      DeleteGroupsCalls(xs);
      DeleteGroupsShape(xs);
      var q := DeleteGroups(Start, xs);
      var r := DeleteGroups(Start, gs);
      assert r == DeleteGroupStep(q, gs[m]);
      if q.ok && r.ok {
        var g := gs[m];
        assert |q.uuids| == m && |r.uuids| == m + 1;
        assert r.trace == q.trace + [ResetDeployments(g.id, true), DeleteGroup(g.id)];
        forall i | 0 <= i < m + 1
          ensures r.trace[2 * i] == ResetDeployments(gs[i].id, true)
          ensures r.trace[2 * i + 1] == DeleteGroup(gs[i].id)
        {
          if i < m {
            assert xs[i] == gs[i];
            assert r.trace[2 * i] == q.trace[2 * i] && r.trace[2 * i + 1] == q.trace[2 * i + 1];
          }
        }
      } else {
        assert r.trace == q.trace && r.uuids == q.uuids;
        assert forall i :: 0 <= i < |q.uuids| ==> xs[i] == gs[i];
      }
    }
  }

  // ---------------------------------------------------------------------
  // The thing loop

  /** The principal loop detaches every principal of the thing in order and
      adds nothing else; it stops exactly at a principal without a '/'. */
  lemma {:induction false} DetachAllTrace(p: Progress, thingName: string, ps: seq<string>)
    requires p.ok
    ensures var d := DetachAll(p, thingName, ps);
      && d.uuids == p.uuids && p.trace <= d.trace
      && (forall k :: |p.trace| <= k < |d.trace| ==> d.trace[k].DetachThingPrincipal?)
      && (d.ok <==> forall k :: 0 <= k < |ps| ==> At(Split(ps[k], '/'), 1).Some?)
      && (d.ok ==> && |d.trace| == |p.trace| + |ps| && d.trace[..|p.trace|] == p.trace
                   && forall k :: 0 <= k < |ps| ==> d.trace[|p.trace| + k] == DetachThingPrincipal(thingName, ps[k]))
  {
    DetachAllShape(p, thingName, ps);
    DetachAllOrder(p, thingName, ps);
  }

  lemma {:induction false} DetachAllShape(p: Progress, thingName: string, ps: seq<string>)
    requires p.ok
    ensures var d := DetachAll(p, thingName, ps);
      && d.uuids == p.uuids && p.trace <= d.trace
      && (forall k :: |p.trace| <= k < |d.trace| ==> d.trace[k].DetachThingPrincipal?)
      && (d.ok <==> forall k :: 0 <= k < |ps| ==> At(Split(ps[k], '/'), 1).Some?)
  {
    if ps != [] {
      var n := |ps| - 1;
      var xs := ps[..n];
      DetachAllShape(p, thingName, xs);
      var q := DetachAll(p, thingName, xs);
      var d := DetachAll(p, thingName, ps);
      assert d == DetachStep(q, thingName, ps[n]);
      assert forall k :: 0 <= k < n ==> xs[k] == ps[k];
      if q.ok && d.ok {
        assert d.trace == q.trace + [DetachThingPrincipal(thingName, ps[n])];
        assert forall k :: 0 <= k < |q.trace| ==> d.trace[k] == q.trace[k];
      }
    }
  }

  lemma {:induction false} DetachAllOrder(p: Progress, thingName: string, ps: seq<string>)
    requires p.ok
    ensures var d := DetachAll(p, thingName, ps);
      d.ok ==> && |d.trace| == |p.trace| + |ps|
               && forall k :: 0 <= k < |ps| ==> d.trace[|p.trace| + k] == DetachThingPrincipal(thingName, ps[k])
  {
    if ps != [] {
      var n := |ps| - 1;
      var xs := ps[..n];
      DetachAllOrder(p, thingName, xs);
      var q := DetachAll(p, thingName, xs);
      var d := DetachAll(p, thingName, ps);
      assert d == DetachStep(q, thingName, ps[n]);
      if d.ok {
        assert q.ok;
        assert d.trace == q.trace + [DetachThingPrincipal(thingName, ps[n])];
        assert forall k :: 0 <= k < n ==> xs[k] == ps[k];
      }
    }
  }

  /** `certificates_to_delete` only grows at its end, never holds a
      duplicate, and gains exactly the certificate ids of the principals. */
  lemma {:induction false} DetachAllCerts(p: Progress, thingName: string, ps: seq<string>)
    requires p.ok && Distinct(p.certs)
    ensures var d := DetachAll(p, thingName, ps);
      && Distinct(d.certs) && p.certs <= d.certs
      && (d.ok ==> forall c :: c in d.certs <==> c in p.certs || exists k :: 0 <= k < |ps| && At(Split(ps[k], '/'), 1) == Some(c))
  {
    DetachAllDistinct(p, thingName, ps);
    DetachAllGained(p, thingName, ps);
  }

  lemma {:induction false} DetachAllDistinct(p: Progress, thingName: string, ps: seq<string>)
    requires p.ok && Distinct(p.certs)
    ensures var d := DetachAll(p, thingName, ps);
      Distinct(d.certs) && p.certs <= d.certs
  {
    if ps != [] {
      var n := |ps| - 1;
      DetachAllDistinct(p, thingName, ps[..n]);
      var q := DetachAll(p, thingName, ps[..n]);
      if q.ok {
        match At(Split(ps[n], '/'), 1)
        case None =>
        case Some(c) =>
          if c !in q.certs {
            DistinctAppend(q.certs, c);
            assert p.certs <= q.certs + [c];
          }
      }
    }
  }

  lemma {:induction false} DetachAllGained(p: Progress, thingName: string, ps: seq<string>)
    requires p.ok
    ensures var d := DetachAll(p, thingName, ps);
      d.ok ==> forall c :: c in d.certs <==> c in p.certs || exists k :: 0 <= k < |ps| && At(Split(ps[k], '/'), 1) == Some(c)
  {
    if ps != [] {
      var n := |ps| - 1;
      var xs := ps[..n];
      DetachAllGained(p, thingName, xs);
      var q := DetachAll(p, thingName, xs);
      var d := DetachAll(p, thingName, ps);
      assert d == DetachStep(q, thingName, ps[n]);
      if d.ok {
        assert q.ok;
        var c := At(Split(ps[n], '/'), 1).value;
        assert forall x :: x in d.certs <==> x in q.certs || x == c;
        assert forall k :: 0 <= k < n ==> xs[k] == ps[k];
      }
    }
  }

  /** A thing whose name holds no id is skipped; one that holds an id gets
      every principal detached, in order, before it is deleted. */
  lemma ThingStepFacts(p: Progress, thingName: string, principals: string -> seq<string>)
    requires p.ok
    ensures !Matches(thingName, p.uuids) ==> ThingStep(p, thingName, principals) == p
    ensures var r := ThingStep(p, thingName, principals); var ps := principals(thingName);
      Matches(thingName, p.uuids) && r.ok ==>
        && |r.trace| == |p.trace| + |ps| + 1 && r.trace[..|p.trace|] == p.trace
        && (forall k :: 0 <= k < |ps| ==> r.trace[|p.trace| + k] == DetachThingPrincipal(thingName, ps[k]))
        && r.trace[|r.trace| - 1] == DeleteThing(thingName)
  {
    var ps := principals(thingName);
    DetachAllTrace(p, thingName, ps);
    var d := DetachAll(p, thingName, ps);
    if Matches(thingName, p.uuids) && d.ok {
      assert (d.trace + [DeleteThing(thingName)])[..|p.trace|] == d.trace[..|p.trace|];
    }
  }

  /** The thing loop only appends detaches and thing deletions, keeps
      `gg_uuid`, and keeps `certificates_to_delete` free of duplicates. */
  lemma {:induction false} DeleteThingsFacts(p: Progress, things: seq<string>, principals: string -> seq<string>)
    requires p.ok && Distinct(p.certs)
    ensures var r := DeleteThings(p, things, principals);
      && r.uuids == p.uuids && Distinct(r.certs) && p.certs <= r.certs
      && p.trace <= r.trace
      && forall k :: |p.trace| <= k < |r.trace| ==> r.trace[k].DetachThingPrincipal? || r.trace[k].DeleteThing?
  {
    if things != [] {
      var n := |things| - 1;
      DeleteThingsFacts(p, things[..n], principals);
      var q := DeleteThings(p, things[..n], principals);
      if q.ok && Matches(things[n], q.uuids) {
        var ps := principals(things[n]);
        DetachAllTrace(q, things[n], ps);
        DetachAllCerts(q, things[n], ps);
        var d := DetachAll(q, things[n], ps);
        if d.ok {
          assert p.trace <= d.trace + [DeleteThing(things[n])];
        }
      }
    }
  }

  // ---------------------------------------------------------------------
  // Certificates and core definitions

  /** Each certificate is set INACTIVE right before it is force-deleted, in
      the order they were collected. */
  lemma {:induction false} CertificateActionsFacts(certs: seq<string>)
    ensures var t := CertificateActions(certs);
      && |t| == 2 * |certs|
      && (forall i :: 0 <= i < |certs| ==> t[2 * i] == UpdateCertificate(certs[i], "INACTIVE"))
      && (forall i :: 0 <= i < |certs| ==> t[2 * i + 1] == DeleteCertificate(certs[i], true))
  {
    if certs != [] {
      var n := |certs| - 1;
      CertificateActionsFacts(certs[..n]);
      assert forall i :: 0 <= i < n ==> certs[..n][i] == certs[i];
    }
  }

  /** A core definition is deleted iff it is listed and carries the same
      fleet tag the groups are selected by. */
  lemma {:induction false} CoreDefinitionActionsMembers(ids: seq<string>, tagsOf: string -> Tags, id: string)
    ensures DeleteCoreDefinition(id) in CoreDefinitionActions(ids, tagsOf) <==> id in ids && Tagged(tagsOf(id))
  {
    if ids != [] {
      var n := |ids| - 1;
      CoreDefinitionActionsMembers(ids[..n], tagsOf, id);
      assert ids == ids[..n] + [ids[n]];
    }
  }

  /** The core definition loop only deletes core definitions. */
  lemma {:induction false} CoreDefinitionActionsKind(ids: seq<string>, tagsOf: string -> Tags)
    ensures forall k :: 0 <= k < |CoreDefinitionActions(ids, tagsOf)| ==> CoreDefinitionActions(ids, tagsOf)[k].DeleteCoreDefinition?
  {
    if ids != [] {
      CoreDefinitionActionsKind(ids[..|ids| - 1], tagsOf);
    }
  }

  // ---------------------------------------------------------------------
  // The whole trace

  /** Entry `i` of the trace is guarded: a group is deleted right after its
      deployments are force-reset, a certificate right after it is set
      INACTIVE. */
  predicate Guard(t: seq<Action>, i: int)
    requires 0 <= i < |t|
  {
    && (t[i].DeleteGroup? ==> 0 < i && t[i - 1] == ResetDeployments(t[i].groupId, true))
    && (t[i].DeleteCertificate? ==> 0 < i && t[i - 1] == UpdateCertificate(t[i].certificateId, "INACTIVE"))
  }

  predicate Guarded(t: seq<Action>)
  {
    forall i :: 0 <= i < |t| ==> Guard(t, i)
  }

  lemma GuardedConcat(a: seq<Action>, b: seq<Action>)
    requires Guarded(a) && Guarded(b)
    requires b != [] ==> !b[0].DeleteGroup? && !b[0].DeleteCertificate?
    ensures Guarded(a + b)
  {
    forall i | 0 <= i < |a + b| ensures Guard(a + b, i) {
      if i < |a| {
        assert Guard(a, i);
      } else {
        assert Guard(b, i - |a|);
      }
    }
  }

  lemma GroupTraceGuarded(gs: seq<GroupInfo>)
    ensures Guarded(DeleteGroups(Start, gs).trace)
  {
    var t := DeleteGroups(Start, gs).trace;
    DeleteGroupsFacts(gs);
    forall i | 0 <= i < |t| ensures Guard(t, i) {
      var j := i / 2;
      if i % 2 == 1 {
        assert i == 2 * j + 1 && i - 1 == 2 * j;
        assert t[i] == DeleteGroup(gs[j].id);
        assert t[i - 1] == ResetDeployments(gs[j].id, true);
      } else {
        assert i == 2 * j;
        assert t[i] == ResetDeployments(gs[j].id, true);
      }
    }
  }

  lemma ThingTraceGuarded(p: Progress, things: seq<string>, principals: string -> seq<string>)
    requires p.ok && Distinct(p.certs) && Guarded(p.trace)
    ensures Guarded(DeleteThings(p, things, principals).trace)
  {
    var t := DeleteThings(p, things, principals).trace;
    DeleteThingsFacts(p, things, principals);
    forall i | 0 <= i < |t| ensures Guard(t, i) {
      if i < |p.trace| {
        assert Guard(p.trace, i);
      }
    }
  }

  lemma CertificateTraceGuarded(certs: seq<string>)
    ensures Guarded(CertificateActions(certs))
    ensures certs != [] ==> CertificateActions(certs)[0].UpdateCertificate?
  {
    var t := CertificateActions(certs);
    CertificateActionsFacts(certs);
    forall i | 0 <= i < |t| ensures Guard(t, i) {
      var j := i / 2;
      if i % 2 == 1 {
        assert i == 2 * j + 1 && i - 1 == 2 * j;
        assert t[i] == DeleteCertificate(certs[j], true);
        assert t[i - 1] == UpdateCertificate(certs[j], "INACTIVE");
      } else {
        assert i == 2 * j;
        assert t[i] == UpdateCertificate(certs[j], "INACTIVE");
      }
    }
  }

  /** Over the whole run: no group is deleted without a forced reset right
      before it, no certificate without being set INACTIVE right before it,
      and no certificate id is collected twice. */
  lemma RunFacts(cloud: Cloud)
    ensures Guarded(Run(cloud).trace)
    ensures Distinct(Run(cloud).certs)
  {
    var selected := Select(cloud.groups, cloud.getGroup);
    if selected != [] {
      var g := DeleteGroups(Start, selected);
      GroupTraceGuarded(selected);
      DeleteGroupsShape(selected);
      if g.ok {
        ThingTraceGuarded(g, cloud.things, cloud.principals);
        DeleteThingsFacts(g, cloud.things, cloud.principals);
        var t := DeleteThings(g, cloud.things, cloud.principals);
        if t.ok {
          var certs := CertificateActions(t.certs);
          var cores := CoreDefinitionActions(cloud.coreDefinitions, cloud.coreDefinitionTags);
          CertificateTraceGuarded(t.certs);
          CoreDefinitionActionsKind(cloud.coreDefinitions, cloud.coreDefinitionTags);
          assert Guarded(cores) by {
            forall i | 0 <= i < |cores| ensures Guard(cores, i) {
              assert cores[i].DeleteCoreDefinition?;
            }
          }
          GuardedConcat(t.trace, certs);
          GuardedConcat(t.trace + certs, cores);
        }
      } else {
        DeleteThingsIdle(g, cloud.things, cloud.principals);
      }
    }
  }
}
