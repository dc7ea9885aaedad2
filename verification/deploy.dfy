/** The deployment poller: it submits one Greengrass deployment per target
    record, then polls the outstanding deployments for at most one hundred
    rounds and writes the list of failures.

    The Greengrass service is an oracle: `versionOf(g)` is the group version
    that get_group followed by get_group_version yields for group `g`,
    `deploymentIdOf(k)` is the deployment id create_deployment returns for the
    k-th submission, and `status(round, g, d)` is what get_deployment_status
    answers for deployment `d` of group `g` when it is asked in poll round
    `round`. */
module Deploy {
  import opened PyStr
  import opened Records

  /** The poll loop runs `for i in range(100)`. */
  const MaxRounds: nat := 100

  /** A get_deployment_status response. */
  datatype Status = Status(deploymentStatus: string, errorMessage: string, errorDetails: string)

  /** An entry of the written failure list: `{GroupId: {ErrorMessage,
      ErrorDetails}}`, or the string 'TIMEOUT'. */
  datatype Failure =
    | GroupFailed(groupId: string, errorMessage: string, errorDetails: string)
    | Timeout

  /** A create_deployment call of type NewDeployment. */
  datatype CreateCall = CreateDeployment(groupId: string, groupVersionId: string)

  /** A get_deployment_status call, tagged with the poll round it is made in. */
  datatype Query = Query(round: nat, groupId: string, deploymentId: string)

  /** One item of the `deployments` dictionary. The dictionary itself is the
      sequence of its items in insertion order, which is the order a Python
      dict iterates in; its keys are distinct (see `Tracks`). */
  datatype Item = Item(groupId: string, deploymentId: string)

  function Keys(d: seq<Item>): (ks: seq<string>)
    ensures |ks| == |d|
    ensures forall i :: 0 <= i < |d| ==> ks[i] == d[i].groupId
  {
    seq(|d|, i requires 0 <= i < |d| => d[i].groupId)
  }

  /** Every key occurs once: the sequence is a faithful dictionary. */
  predicate Tracks(d: seq<Item>)
  {
    forall i, j :: 0 <= i < j < |d| ==> d[i].groupId != d[j].groupId
  }

  /** `d[g] = id`: an existing key keeps its place and gets the new value,
      a new key goes to the end. */
  function Assign(d: seq<Item>, g: string, id: string): seq<Item>
  {
    if d == [] then [Item(g, id)]
    else if d[0].groupId == g then [Item(g, id)] + d[1..]
    else [d[0]] + Assign(d[1..], g, id)
  }

  /** `del d[g]`: the item with key `g` goes, the others keep their order. */
  function Del(d: seq<Item>, g: string): seq<Item>
  {
    if d == [] then []
    else if d[0].groupId == g then Del(d[1..], g)
    else [d[0]] + Del(d[1..], g)
  }

  predicate IsTerminal(s: Status)
  {
    s.deploymentStatus == "Success" || s.deploymentStatus == "Failure"
  }

  /** A missing parameter file is read as an empty target list. */
  function Targets(params: Option<seq<ParameterSet>>): seq<ParameterSet>
  {
    if params.Some? then params.value else []
  }

  /** The dictionary after the submission loop over `records`. */
  function Submitted(records: seq<ParameterSet>, deploymentIdOf: nat -> string): seq<Item>
  {
    if records == [] then []
    else
      var n := |records| - 1;
      Assign(Submitted(records[..n], deploymentIdOf), records[n].groupId, deploymentIdOf(n))
  }

  /** What one pass over the outstanding deployments collects: the
      `done_deployments` list and the entries it appends to `failed`. */
  datatype Scan = Scan(done: seq<string>, fails: seq<Failure>)

  /** The inner loop of a poll round over the items `d`, in order. */
  function ScanRound(round: nat, d: seq<Item>, status: (nat, string, string) -> Status): Scan
  {
    if d == [] then Scan([], [])
    else
      var n := |d| - 1;
      var prev := ScanRound(round, d[..n], status);
      var s := status(round, d[n].groupId, d[n].deploymentId);
      if s.deploymentStatus == "Success" then Scan(prev.done + [d[n].groupId], prev.fails)
      else if s.deploymentStatus == "Failure" then
        Scan(prev.done + [d[n].groupId], prev.fails + [GroupFailed(d[n].groupId, s.errorMessage, s.errorDetails)])
      else prev
  }

  /** The dictionary after `del deployments[g]` for each `g` in `done`. */
  function DeleteAll(d: seq<Item>, done: seq<string>): seq<Item>
  {
    if done == [] then d else Del(DeleteAll(d, done[..|done| - 1]), done[|done| - 1])
  }

  /** The status calls of one poll round, one per outstanding item in order. */
  function QueriesOf(round: nat, d: seq<Item>): (qs: seq<Query>)
    ensures |qs| == |d|
    ensures forall i :: 0 <= i < |d| ==> qs[i] == Query(round, d[i].groupId, d[i].deploymentId)
  {
    seq(|d|, i requires 0 <= i < |d| => Query(round, d[i].groupId, d[i].deploymentId))
  }

  /** The poller's state between rounds; `queries` logs every status call. */
  datatype PollState = PollState(outstanding: seq<Item>, failed: seq<Failure>, rounds: nat, queries: seq<Query>)

  /** One poll round: query every outstanding deployment, then delete the
      ones that reached a terminal status. */
  function Round(s: PollState, status: (nat, string, string) -> Status): PollState
  {
    var sc := ScanRound(s.rounds, s.outstanding, status);
    PollState(DeleteAll(s.outstanding, sc.done), s.failed + sc.fails, s.rounds + 1,
              s.queries + QueriesOf(s.rounds, s.outstanding))
  }

  /** The loop breaks after a round that leaves nothing outstanding. */
  predicate Stopped(s: PollState)
  {
    s.rounds > 0 && s.outstanding == []
  }

  /** The state after `n` passes of the poll loop. */
  function Rounds(n: nat, init: PollState, status: (nat, string, string) -> Status): PollState
  {
    if n == 0 then init
    else
      var p := Rounds(n - 1, init, status);
      if Stopped(p) then p else Round(p, status)
  }

  /** The poll loop started on the submitted deployments. */
  function Poll(d: seq<Item>, status: (nat, string, string) -> Status): PollState
  {
    Rounds(MaxRounds, PollState(d, [], 0, []), status)
  }

  /** What the script does: the create_deployment calls, the list written to
      the failures file, whether it reports "Deployment Success", and how many
      poll rounds ran. */
  datatype Report = Report(creates: seq<CreateCall>, written: seq<Failure>, success: bool, rounds: nat)

  /** One create_deployment call per record, for its group's latest version. */
  function Creates(records: seq<ParameterSet>, versionOf: string -> string): seq<CreateCall>
  {
    seq(|records|, k requires 0 <= k < |records| =>
      CreateDeployment(records[k].groupId, versionOf(records[k].groupId)))
  }

  function Deployment(params: Option<seq<ParameterSet>>, versionOf: string -> string,
                      deploymentIdOf: nat -> string, status: (nat, string, string) -> Status): Report
  {
    var records := Targets(params);
    var p := Poll(Submitted(records, deploymentIdOf), status);
    var timedOut := p.outstanding != [];
    Report(
      Creates(records, versionOf),
      p.failed + (if timedOut then [Timeout] else []),
      p.failed == [] && !timedOut,
      p.rounds)
  }

  /** The group ids of the GroupFailed entries, in order. */
  function FailedIds(fs: seq<Failure>): seq<string>
  {
    if fs == [] then []
    else (if fs[0].GroupFailed? then [fs[0].groupId] else []) + FailedIds(fs[1..])
  }

  // ---------------------------------------------------------------------
  // The dictionary operations

  lemma {:induction false} KeysMembership(d: seq<Item>, g: string)
    ensures g in Keys(d) <==> exists it :: it in d && it.groupId == g
  {
    if g in Keys(d) {
      var i :| 0 <= i < |d| && Keys(d)[i] == g;
      assert d[i] in d;
    }
  }

  /** `d[g] = id` stores `id` under `g` and keeps every other entry. */
  lemma {:induction false} AssignKeeps(d: seq<Item>, g: string, id: string)
    ensures Item(g, id) in Assign(d, g, id)
    ensures forall it :: it in d && it.groupId != g ==> it in Assign(d, g, id)
  {
    if d != [] && d[0].groupId != g {
      AssignKeeps(d[1..], g, id);
    }
  }

  /** `d[g] = id` keeps the key order, adding `g` at the end when new. */
  lemma {:induction false} AssignKeys(d: seq<Item>, g: string, id: string)
    ensures Keys(Assign(d, g, id)) == if g in Keys(d) then Keys(d) else Keys(d) + [g]
  {
    if d == [] {
      assert Keys([Item(g, id)]) == [g];
    } else if d[0].groupId == g {
      AssignKeysAtHead(d, g, id);
    } else {
      AssignKeys(d[1..], g, id);
      AssignKeysPastHead(d, g, id);
    }
  }

  lemma KeysCons(x: Item, d: seq<Item>)
    ensures Keys([x] + d) == [x.groupId] + Keys(d)
  {
  }

  /** Assigning to the first key replaces its value in place. */
  lemma AssignKeysAtHead(d: seq<Item>, g: string, id: string)
    requires d != [] && d[0].groupId == g
    ensures Keys(Assign(d, g, id)) == Keys(d) && g in Keys(d)
  {
    assert d == [d[0]] + d[1..];
    KeysCons(d[0], d[1..]);
    KeysCons(Item(g, id), d[1..]);
  }

  /** Assigning to a later key leaves the first key in front. */
  lemma AssignKeysPastHead(d: seq<Item>, g: string, id: string)
    requires d != [] && d[0].groupId != g
    requires Keys(Assign(d[1..], g, id)) == if g in Keys(d[1..]) then Keys(d[1..]) else Keys(d[1..]) + [g]
    ensures Keys(Assign(d, g, id)) == if g in Keys(d) then Keys(d) else Keys(d) + [g]
  {
    var ks := Keys(d[1..]);
    assert d == [d[0]] + d[1..];
    KeysCons(d[0], d[1..]);
    KeysCons(d[0], Assign(d[1..], g, id));
    assert g in Keys(d) <==> g in ks;
    if g !in ks {
      assert [d[0].groupId] + (ks + [g]) == ([d[0].groupId] + ks) + [g];
    }
  }

  /** `d[g] = id` holds the new item and every item of another key. */
  lemma {:induction false} AssignMembers(d: seq<Item>, g: string, id: string)
    requires Tracks(d)
    ensures forall it :: it in Assign(d, g, id) <==> it == Item(g, id) || (it in d && it.groupId != g)
  {
    if d != [] {
      if d[0].groupId == g {
        forall it | it in d[1..] ensures it.groupId != g {
          var k :| 0 <= k < |d[1..]| && d[1..][k] == it;
          assert d[k + 1] == it;
        }
      } else {
        AssignMembers(d[1..], g, id);
      }
    }
  }

  lemma {:induction false} AssignFacts(d: seq<Item>, g: string, id: string)
    requires Tracks(d)
    ensures Tracks(Assign(d, g, id))
    ensures Keys(Assign(d, g, id)) == if g in Keys(d) then Keys(d) else Keys(d) + [g]
    ensures forall it :: it in Assign(d, g, id) <==> it == Item(g, id) || (it in d && it.groupId != g)
  {
    AssignKeys(d, g, id);
    AssignMembers(d, g, id);
    var a := Assign(d, g, id);
    forall i, j | 0 <= i < j < |a| ensures a[i].groupId != a[j].groupId {
      assert Keys(a)[i] == a[i].groupId && Keys(a)[j] == a[j].groupId;
      if g !in Keys(d) && j == |d| {
        assert Keys(a)[i] == Keys(d)[i];
      }
    }
  }

  lemma {:induction false} DelFacts(d: seq<Item>, g: string)
    ensures forall it :: it in Del(d, g) <==> it in d && it.groupId != g
    ensures Tracks(d) ==> Tracks(Del(d, g))
  {
    if d != [] {
      DelFacts(d[1..], g);
      if Tracks(d) {
        forall it | it in Del(d[1..], g) ensures it.groupId != d[0].groupId {
          var k :| 0 <= k < |d[1..]| && d[1..][k] == it;
          assert d[k + 1] == it;
        }
      }
    }
  }

  lemma {:induction false} DeleteAllFacts(d: seq<Item>, done: seq<string>)
    ensures forall it :: it in DeleteAll(d, done) <==> it in d && it.groupId !in done
    ensures Tracks(d) ==> Tracks(DeleteAll(d, done))
  {
    if done != [] {
      var n := |done| - 1;
      DeleteAllFacts(d, done[..n]);
      DelFacts(DeleteAll(d, done[..n]), done[n]);
      assert forall g :: g in done <==> g in done[..n] || g == done[n];
    }
  }

  lemma {:induction false} FailedIdsAppend(a: seq<Failure>, b: seq<Failure>)
    ensures FailedIds(a + b) == FailedIds(a) + FailedIds(b)
  {
    if a == [] {
      assert a + b == b;
    } else {
      FailedIdsAppend(a[1..], b);
      FailedIdsAppendStep(a, b);
    }
  }

  lemma FailedIdsAppendStep(a: seq<Failure>, b: seq<Failure>)
    requires a != [] && FailedIds(a[1..] + b) == FailedIds(a[1..]) + FailedIds(b)
    ensures FailedIds(a + b) == FailedIds(a) + FailedIds(b)
  {
    FailedIdsCons(a + b, a[0], a[1..] + b);
    FailedIdsCons(a, a[0], a[1..]);
    var h := if a[0].GroupFailed? then [a[0].groupId] else [];
    Reassociate(FailedIds(a + b), FailedIds(a), h, FailedIds(a[1..]), FailedIds(b));
  }

  /** The ids of a list that starts with `e`. */
  lemma FailedIdsCons(fs: seq<Failure>, e: Failure, rest: seq<Failure>)
    requires fs != [] && fs[0] == e && fs[1..] == rest
    ensures FailedIds(fs) == (if e.GroupFailed? then [e.groupId] else []) + FailedIds(rest)
  {
  }

  lemma Reassociate(x: seq<string>, y: seq<string>, h: seq<string>, l: seq<string>, r: seq<string>)
    requires x == h + (l + r) && y == h + l
    ensures x == y + r
  {
  }

  // ---------------------------------------------------------------------
  // One poll round

  /** `e` is the entry `{GroupId: {ErrorMessage, ErrorDetails}}` copied from
      the 'Failure' response for an item of `d` queried in round `round`. */
  predicate CopiesFailure(e: Failure, round: nat, d: seq<Item>, status: (nat, string, string) -> Status)
  {
    && e.GroupFailed?
    && exists it :: it in d && it.groupId == e.groupId
         && status(round, it.groupId, it.deploymentId) == Status("Failure", e.errorMessage, e.errorDetails)
  }

  /** The last item of a dictionary has a key no earlier item has. */
  lemma LastKeyFresh(d: seq<Item>)
    requires Tracks(d) && d != []
    ensures Tracks(d[..|d| - 1])
    ensures forall it :: it in d[..|d| - 1] ==> it.groupId != d[|d| - 1].groupId
    ensures d[|d| - 1].groupId !in Keys(d[..|d| - 1])
    ensures forall it :: it in d <==> it in d[..|d| - 1] || it == d[|d| - 1]
  {
    var n := |d| - 1;
    forall it | it in d[..n] ensures it.groupId != d[n].groupId {
      var k :| 0 <= k < n && d[..n][k] == it;
      assert d[k] == it;
    }
    KeysMembership(d[..n], d[n].groupId);
    assert d == d[..n] + [d[n]];
  }

  /** `done_deployments` holds the key of each item whose status is terminal. */
  lemma {:induction false} ScanDone(round: nat, d: seq<Item>, status: (nat, string, string) -> Status)
    requires Tracks(d)
    ensures var sc := ScanRound(round, d, status);
      && (forall it :: it in d ==> (it.groupId in sc.done <==> IsTerminal(status(round, it.groupId, it.deploymentId))))
      && (forall g :: g in sc.done ==> g in Keys(d))
      && Distinct(sc.done)
  {
    if d != [] {
      var n := |d| - 1;
      LastKeyFresh(d);
      ScanDone(round, d[..n], status);
      assert Keys(d) == Keys(d[..n]) + [d[n].groupId];
      var prev := ScanRound(round, d[..n], status);
      if IsTerminal(status(round, d[n].groupId, d[n].deploymentId)) {
        DistinctAppend(prev.done, d[n].groupId);
      }
    }
  }

  /** Each failure entry copies the message and details of a 'Failure'
      status, and each 'Failure' status yields its entry. */
  lemma {:induction false} ScanFails(round: nat, d: seq<Item>, status: (nat, string, string) -> Status)
    ensures var sc := ScanRound(round, d, status);
      && (forall e :: e in sc.fails ==> e.GroupFailed? && e.groupId in sc.done)
      && (forall e :: e in sc.fails ==> CopiesFailure(e, round, d, status))
      && (forall it :: it in d && status(round, it.groupId, it.deploymentId).deploymentStatus == "Failure" ==>
            var s := status(round, it.groupId, it.deploymentId);
            GroupFailed(it.groupId, s.errorMessage, s.errorDetails) in sc.fails)
  {
    if d != [] {
      var n := |d| - 1;
      ScanFails(round, d[..n], status);
      assert forall it :: it in d <==> it in d[..n] || it == d[n] by {
        assert d == d[..n] + [d[n]];
      }
    }
  }

  /** No group gets two failure entries in one round. */
  lemma {:induction false} ScanFailsDistinct(round: nat, d: seq<Item>, status: (nat, string, string) -> Status)
    requires Tracks(d)
    ensures var sc := ScanRound(round, d, status);
      Distinct(FailedIds(sc.fails)) && (forall g :: g in FailedIds(sc.fails) ==> g in Keys(d))
  {
    if d != [] {
      var n := |d| - 1;
      var prev := ScanRound(round, d[..n], status);
      LastKeyFresh(d);
      ScanFailsDistinct(round, d[..n], status);
      assert Keys(d) == Keys(d[..n]) + [d[n].groupId];
      var s := status(round, d[n].groupId, d[n].deploymentId);
      if s.deploymentStatus == "Failure" {
        var e := GroupFailed(d[n].groupId, s.errorMessage, s.errorDetails);
        FailedIdsAppend(prev.fails, [e]);
        assert FailedIds([e]) == [d[n].groupId];
        DistinctAppend(FailedIds(prev.fails), d[n].groupId);
      }
    }
  }

  /** The ids of failure entries that all name groups in `done` lie in `done`. */
  lemma {:induction false} FailedIdsInDone(fs: seq<Failure>, done: seq<string>)
    requires forall e :: e in fs ==> e.GroupFailed? && e.groupId in done
    ensures forall g :: g in FailedIds(fs) ==> g in done
  {
    if fs != [] {
      FailedIdsInDone(fs[1..], done);
    }
  }

  /** A round removes exactly the deployments whose status was terminal and
      appends one failure entry per 'Failure'. */
  lemma RoundFacts(s: PollState, status: (nat, string, string) -> Status)
    requires Tracks(s.outstanding)
    ensures var r := Round(s, status);
      var fails := ScanRound(s.rounds, s.outstanding, status).fails;
      && Tracks(r.outstanding)
      && r.rounds == s.rounds + 1
      && r.failed == s.failed + fails
      && r.queries == s.queries + QueriesOf(s.rounds, s.outstanding)
      && (forall it :: it in r.outstanding <==>
            it in s.outstanding && !IsTerminal(status(s.rounds, it.groupId, it.deploymentId)))
      && (forall e :: e in fails ==> CopiesFailure(e, s.rounds, s.outstanding, status))
      && (forall it :: it in s.outstanding && status(s.rounds, it.groupId, it.deploymentId).deploymentStatus == "Failure" ==>
            var st := status(s.rounds, it.groupId, it.deploymentId);
            GroupFailed(it.groupId, st.errorMessage, st.errorDetails) in fails)
      && Distinct(FailedIds(fails))
      && (forall g :: g in FailedIds(fails) ==> g in Keys(s.outstanding) && g !in Keys(r.outstanding))
  {
    var sc := ScanRound(s.rounds, s.outstanding, status);
    ScanDone(s.rounds, s.outstanding, status);
    ScanFails(s.rounds, s.outstanding, status);
    ScanFailsDistinct(s.rounds, s.outstanding, status);
    FailedIdsInDone(sc.fails, sc.done);
    DeleteAllFacts(s.outstanding, sc.done);
    var r := Round(s, status);
    forall g | g in FailedIds(sc.fails) ensures g !in Keys(r.outstanding) {
      KeysMembership(r.outstanding, g);
    }
  }

  // ---------------------------------------------------------------------
  // The poll loop

  /** Number of status calls made for group `g`. */
  function QueryCount(qs: seq<Query>, g: string): nat
  {
    if qs == [] then 0
    else QueryCount(qs[..|qs| - 1], g) + (if qs[|qs| - 1].groupId == g then 1 else 0)
  }

  lemma {:induction false} QueryCountAppend(a: seq<Query>, b: seq<Query>, g: string)
    ensures QueryCount(a + b, g) == QueryCount(a, g) + QueryCount(b, g)
    decreases |b|
  {
    if b == [] {
      assert a + b == a;
    } else {
      var n := |b| - 1;
      assert (a + b)[..|a + b| - 1] == a + b[..n];
      QueryCountAppend(a, b[..n], g);
    }
  }

  /** In one round a group is queried at most once. */
  lemma {:induction false} QueriesOfCount(round: nat, d: seq<Item>, g: string)
    requires Tracks(d)
    ensures QueryCount(QueriesOf(round, d), g) <= 1
    ensures g !in Keys(d) ==> QueryCount(QueriesOf(round, d), g) == 0
  {
    if d != [] {
      var n := |d| - 1;
      LastKeyFresh(d);
      assert QueriesOf(round, d)[..n] == QueriesOf(round, d[..n]);
      QueriesOfCount(round, d[..n], g);
      assert Keys(d) == Keys(d[..n]) + [d[n].groupId];
    }
  }

  /** Some status call was made in round `k`. */
  ghost predicate QueriedIn(qs: seq<Query>, k: nat)
  {
    exists q :: q in qs && q.round == k
  }

  /** What get_deployment_status answered to the status call `q`. */
  function Answer(q: Query, status: (nat, string, string) -> Status): Status
  {
    status(q.round, q.groupId, q.deploymentId)
  }

  /** The failure entry `e` copies the 'Failure' answer to one of the status
      calls `qs` made for its group. */
  ghost predicate FailureReported(e: Failure, qs: seq<Query>, status: (nat, string, string) -> Status)
  {
    && e.GroupFailed?
    && exists q :: q in qs && q.groupId == e.groupId
         && Answer(q, status) == Status("Failure", e.errorMessage, e.errorDetails)
  }

  /** None of the status calls `qs` made for group `g` got a terminal answer. */
  ghost predicate NoTerminalAnswer(qs: seq<Query>, g: string, status: (nat, string, string) -> Status)
  {
    forall q :: q in qs && q.groupId == g ==> !IsTerminal(Answer(q, status))
  }

  /** The failure list after some passes over `d`: every entry copies a
      'Failure' answer the loop received, no group twice, and a failed group
      is no longer outstanding. */
  ghost predicate FailedOk(s: PollState, d: seq<Item>, status: (nat, string, string) -> Status)
  {
    && (forall e :: e in s.failed ==> FailureReported(e, s.queries, status))
    && Distinct(FailedIds(s.failed))
    && (forall g :: g in FailedIds(s.failed) ==> g in Keys(d) && g !in Keys(s.outstanding))
  }

  /** The answers after some passes over `d`: every 'Failure' answer has its
      entry, a terminal answer takes its group out of the dictionary and is
      the last answer for that group, and an item that never got a terminal
      answer is still outstanding. */
  ghost predicate AnswersOk(s: PollState, d: seq<Item>, status: (nat, string, string) -> Status)
  {
    && (forall q :: q in s.queries && Answer(q, status).deploymentStatus == "Failure" ==>
          GroupFailed(q.groupId, Answer(q, status).errorMessage, Answer(q, status).errorDetails) in s.failed)
    && (forall q :: q in s.queries && IsTerminal(Answer(q, status)) ==> q.groupId !in Keys(s.outstanding))
    && (forall i, j :: 0 <= i < j < |s.queries| && s.queries[i].groupId == s.queries[j].groupId ==>
          !IsTerminal(Answer(s.queries[i], status)))
    && (forall it :: it in d && NoTerminalAnswer(s.queries, it.groupId, status) ==> it in s.outstanding)
  }

  /** The status calls after some passes: each in an earlier round, no group
      twice in a round, and none of the earlier rounds idle. */
  ghost predicate QueriesOk(s: PollState)
  {
    && (forall q :: q in s.queries ==> q.round < s.rounds)
    && (forall i, j :: 0 <= i < j < |s.queries| && s.queries[i].round == s.queries[j].round ==>
          s.queries[i].groupId != s.queries[j].groupId)
    && (forall g :: QueryCount(s.queries, g) <= s.rounds)
    && (forall k :: 0 < k < s.rounds ==> QueriedIn(s.queries, k))
  }

  /** What holds after any number of passes of the poll loop started on `d`. */
  ghost predicate PollInvariant(s: PollState, d: seq<Item>, status: (nat, string, string) -> Status)
  {
    && Tracks(s.outstanding)
    && (forall it :: it in s.outstanding ==> it in d)
    && FailedOk(s, d, status)
    && QueriesOk(s)
    && AnswersOk(s, d, status)
  }

  /** The status call a round makes for an outstanding item is logged. */
  lemma RoundQueries(p: PollState, it: Item)
    requires it in p.outstanding
    ensures Query(p.rounds, it.groupId, it.deploymentId) in p.queries + QueriesOf(p.rounds, p.outstanding)
  {
    var k :| 0 <= k < |p.outstanding| && p.outstanding[k] == it;
    var qs := QueriesOf(p.rounds, p.outstanding);
    assert qs[k] == Query(p.rounds, it.groupId, it.deploymentId);
    assert (p.queries + qs)[|p.queries| + k] == qs[k];
  }

  lemma {:induction false} RoundKeepsFailedOk(p: PollState, d: seq<Item>, status: (nat, string, string) -> Status)
    requires Tracks(p.outstanding) && (forall it :: it in p.outstanding ==> it in d)
    requires FailedOk(p, d, status)
    ensures FailedOk(Round(p, status), d, status)
  {
    var r := Round(p, status);
    var fails := ScanRound(p.rounds, p.outstanding, status).fails;
    RoundFacts(p, status);
    forall e | e in r.failed ensures FailureReported(e, r.queries, status) {
      if e in p.failed {
        var q :| q in p.queries && q.groupId == e.groupId
          && Answer(q, status) == Status("Failure", e.errorMessage, e.errorDetails);
        assert q in r.queries;
      } else {
        assert e in fails;
        assert CopiesFailure(e, p.rounds, p.outstanding, status);
        var it :| it in p.outstanding && it.groupId == e.groupId
          && status(p.rounds, it.groupId, it.deploymentId) == Status("Failure", e.errorMessage, e.errorDetails);
        RoundQueries(p, it);
        assert Answer(Query(p.rounds, it.groupId, it.deploymentId), status) == Status("Failure", e.errorMessage, e.errorDetails);
      }
    }
    FailedIdsAppend(p.failed, fails);
    forall g | g in FailedIds(p.failed) ensures g !in FailedIds(fails) {
      assert g !in Keys(p.outstanding);
    }
    DistinctConcat(FailedIds(p.failed), FailedIds(fails));
    forall g | g in FailedIds(r.failed) ensures g in Keys(d) && g !in Keys(r.outstanding) {
      KeysMembership(r.outstanding, g);
      KeysMembership(p.outstanding, g);
      KeysMembership(d, g);
    }
  }

  /** A status call of a round is the call for one outstanding item. */
  lemma RoundQueryItem(p: PollState, q: Query)
    requires q in QueriesOf(p.rounds, p.outstanding)
    ensures exists k :: 0 <= k < |p.outstanding| && q == Query(p.rounds, p.outstanding[k].groupId, p.outstanding[k].deploymentId)
  {
  }

  /** Every 'Failure' answer, old or new, has its entry after the round. */
  lemma {:induction false} RoundKeepsFailuresRecorded(p: PollState, d: seq<Item>, status: (nat, string, string) -> Status)
    requires Tracks(p.outstanding) && AnswersOk(p, d, status)
    ensures var r := Round(p, status);
      forall q :: q in r.queries && Answer(q, status).deploymentStatus == "Failure" ==>
        GroupFailed(q.groupId, Answer(q, status).errorMessage, Answer(q, status).errorDetails) in r.failed
  {
    var r := Round(p, status);
    RoundFacts(p, status);
    forall q | q in r.queries && Answer(q, status).deploymentStatus == "Failure"
      ensures GroupFailed(q.groupId, Answer(q, status).errorMessage, Answer(q, status).errorDetails) in r.failed
    {
      if q !in p.queries {
        RoundQueryItem(p, q);
        var k :| 0 <= k < |p.outstanding| && q == Query(p.rounds, p.outstanding[k].groupId, p.outstanding[k].deploymentId);
        assert p.outstanding[k] in p.outstanding;
      }
    }
  }

  /** A terminal answer takes its group out of the dictionary for good. */
  lemma {:induction false} RoundKeepsTerminalGone(p: PollState, d: seq<Item>, status: (nat, string, string) -> Status)
    requires Tracks(p.outstanding) && AnswersOk(p, d, status)
    ensures var r := Round(p, status);
      forall q :: q in r.queries && IsTerminal(Answer(q, status)) ==> q.groupId !in Keys(r.outstanding)
  {
    var r := Round(p, status);
    RoundFacts(p, status);
    forall q | q in r.queries && IsTerminal(Answer(q, status)) ensures q.groupId !in Keys(r.outstanding) {
      KeysMembership(r.outstanding, q.groupId);
      if q in p.queries {
        KeysMembership(p.outstanding, q.groupId);
      } else {
        RoundQueryItem(p, q);
        var k :| 0 <= k < |p.outstanding| && q == Query(p.rounds, p.outstanding[k].groupId, p.outstanding[k].deploymentId);
        forall it | it in r.outstanding ensures it.groupId != q.groupId {
          var m :| 0 <= m < |p.outstanding| && p.outstanding[m] == it;
          if m != k {
            assert p.outstanding[m].groupId != p.outstanding[k].groupId;
          }
        }
      }
    }
  }

  /** No group is asked again after a terminal answer. */
  lemma {:induction false} RoundKeepsTerminalLast(p: PollState, d: seq<Item>, status: (nat, string, string) -> Status)
    requires Tracks(p.outstanding) && AnswersOk(p, d, status)
    ensures var r := Round(p, status);
      forall i, j :: 0 <= i < j < |r.queries| && r.queries[i].groupId == r.queries[j].groupId ==>
        !IsTerminal(Answer(r.queries[i], status))
  {
    var r := Round(p, status);
    var qs := QueriesOf(p.rounds, p.outstanding);
    var n := |p.queries|;
    assert r.queries == p.queries + qs;
    forall i, j | 0 <= i < j < |r.queries| && r.queries[i].groupId == r.queries[j].groupId
      ensures !IsTerminal(Answer(r.queries[i], status))
    {
      if j < n {
        assert r.queries[i] == p.queries[i] && r.queries[j] == p.queries[j];
      } else if i < n {
        assert r.queries[i] == p.queries[i] && p.queries[i] in p.queries;
        assert r.queries[j] == qs[j - n];
        KeysMembership(p.outstanding, r.queries[j].groupId);
        assert p.outstanding[j - n] in p.outstanding;
      } else {
        // two calls of one round name two different items, hence two keys
        assert false;
      }
    }
  }

  /** An item that never got a terminal answer stays outstanding. */
  lemma {:induction false} RoundKeepsUnanswered(p: PollState, d: seq<Item>, status: (nat, string, string) -> Status)
    requires Tracks(p.outstanding) && AnswersOk(p, d, status)
    ensures var r := Round(p, status);
      forall it :: it in d && NoTerminalAnswer(r.queries, it.groupId, status) ==> it in r.outstanding
  {
    var r := Round(p, status);
    RoundFacts(p, status);
    forall it | it in d && NoTerminalAnswer(r.queries, it.groupId, status) ensures it in r.outstanding {
      assert NoTerminalAnswer(p.queries, it.groupId, status);
      RoundQueries(p, it);
      var q := Query(p.rounds, it.groupId, it.deploymentId);
      assert !IsTerminal(Answer(q, status));
    }
  }

  lemma {:induction false} RoundKeepsAnswersOk(p: PollState, d: seq<Item>, status: (nat, string, string) -> Status)
    requires Tracks(p.outstanding) && AnswersOk(p, d, status)
    ensures AnswersOk(Round(p, status), d, status)
  {
    RoundKeepsFailuresRecorded(p, d, status);
    RoundKeepsTerminalGone(p, d, status);
    RoundKeepsTerminalLast(p, d, status);
    RoundKeepsUnanswered(p, d, status);
  }

  lemma RoundKeepsQueriesOk(p: PollState, status: (nat, string, string) -> Status)
    requires Tracks(p.outstanding) && QueriesOk(p) && !Stopped(p)
    ensures QueriesOk(Round(p, status))
  {
    RoundQueriesEarlier(p, status);
    RoundQueriesOnce(p, status);
    RoundQueriesCounted(p, status);
    RoundQueriesBusy(p, status);
  }

  /** Every logged call was made in a round that has run. */
  lemma RoundQueriesEarlier(p: PollState, status: (nat, string, string) -> Status)
    requires QueriesOk(p)
    ensures var r := Round(p, status); forall q :: q in r.queries ==> q.round < r.rounds
  {
    var r := Round(p, status);
    var qs := QueriesOf(p.rounds, p.outstanding);
    assert r.queries == p.queries + qs && r.rounds == p.rounds + 1;
    forall q | q in r.queries ensures q.round < r.rounds {
      if q !in p.queries {
        assert q in qs;
      }
    }
  }

  /** No group is asked twice in one round. */
  lemma RoundQueriesOnce(p: PollState, status: (nat, string, string) -> Status)
    requires Tracks(p.outstanding) && QueriesOk(p)
    ensures var r := Round(p, status);
      forall i, j :: 0 <= i < j < |r.queries| && r.queries[i].round == r.queries[j].round ==>
        r.queries[i].groupId != r.queries[j].groupId
  {
    var r := Round(p, status);
    var qs := QueriesOf(p.rounds, p.outstanding);
    var n := |p.queries|;
    assert r.queries == p.queries + qs;
    forall i, j | 0 <= i < j < |r.queries|
      ensures r.queries[i].round == r.queries[j].round ==> r.queries[i].groupId != r.queries[j].groupId
    {
      if j < n {
        assert r.queries[i] == p.queries[i] && r.queries[j] == p.queries[j];
      } else if i < n {
        assert r.queries[i] == p.queries[i];
        assert p.queries[i] in p.queries;
        assert r.queries[i].round < r.queries[j].round;
      } else {
        assert r.queries[i] == qs[i - n] && r.queries[j] == qs[j - n];
        assert p.outstanding[i - n].groupId != p.outstanding[j - n].groupId;
      }
    }
  }

  /** A group is asked at most once per round that has run. */
  lemma RoundQueriesCounted(p: PollState, status: (nat, string, string) -> Status)
    requires Tracks(p.outstanding) && QueriesOk(p)
    ensures var r := Round(p, status); forall g :: QueryCount(r.queries, g) <= r.rounds
  {
    var r := Round(p, status);
    var qs := QueriesOf(p.rounds, p.outstanding);
    assert r.queries == p.queries + qs && r.rounds == p.rounds + 1;
    forall g ensures QueryCount(r.queries, g) <= r.rounds {
      QueryCountAppend(p.queries, qs, g);
      QueriesOfCount(p.rounds, p.outstanding, g);
    }
  }

  /** Every round after the first that has run made some call. */
  lemma RoundQueriesBusy(p: PollState, status: (nat, string, string) -> Status)
    requires QueriesOk(p) && !Stopped(p)
    ensures var r := Round(p, status); forall k :: 0 < k < r.rounds ==> QueriedIn(r.queries, k)
  {
    var r := Round(p, status);
    var qs := QueriesOf(p.rounds, p.outstanding);
    assert r.queries == p.queries + qs && r.rounds == p.rounds + 1;
    forall k | 0 < k < r.rounds ensures QueriedIn(r.queries, k) {
      if k < p.rounds {
        assert QueriedIn(p.queries, k);
        var q :| q in p.queries && q.round == k;
        assert q in r.queries;
      } else {
        assert p.outstanding != [];
        assert r.queries[|p.queries|] == qs[0];
        assert r.queries[|p.queries|] in r.queries;
      }
    }
  }

  lemma {:induction false} RoundKeepsInvariant(p: PollState, d: seq<Item>, status: (nat, string, string) -> Status)
    requires PollInvariant(p, d, status) && !Stopped(p)
    ensures PollInvariant(Round(p, status), d, status)
  {
    RoundFacts(p, status);
    RoundKeepsFailedOk(p, d, status);
    RoundKeepsQueriesOk(p, status);
    RoundKeepsAnswersOk(p, d, status);
  }

  /** The invariant holds after every pass, at most `n` rounds have run after
      `n` passes, and fewer only when the loop broke out. */
  lemma RoundsInvariant(n: nat, d: seq<Item>, status: (nat, string, string) -> Status)
    requires Tracks(d)
    ensures var s := Rounds(n, PollState(d, [], 0, []), status);
      PollInvariant(s, d, status) && s.rounds <= n && (s.rounds == n || Stopped(s))
  {
    RoundsCount(n, PollState(d, [], 0, []), status);
    InvariantAfter(n, d, status);
  }

  lemma {:induction false} InvariantAfter(n: nat, d: seq<Item>, status: (nat, string, string) -> Status)
    requires Tracks(d)
    ensures PollInvariant(Rounds(n, PollState(d, [], 0, []), status), d, status)
  {
    if n == 0 {
      InvariantInitially(d, status);
    } else {
      InvariantAfter(n - 1, d, status);
      InvariantStep(n, d, status);
    }
  }

  /** Before the first pass nothing has been asked and everything is outstanding. */
  lemma InvariantInitially(d: seq<Item>, status: (nat, string, string) -> Status)
    requires Tracks(d)
    ensures PollInvariant(PollState(d, [], 0, []), d, status)
  {
  }

  lemma InvariantStep(n: nat, d: seq<Item>, status: (nat, string, string) -> Status)
    requires n > 0 && Tracks(d)
    requires PollInvariant(Rounds(n - 1, PollState(d, [], 0, []), status), d, status)
    ensures PollInvariant(Rounds(n, PollState(d, [], 0, []), status), d, status)
  {
    var p := Rounds(n - 1, PollState(d, [], 0, []), status);
    if !Stopped(p) {
      RoundKeepsInvariant(p, d, status);
    }
  }

  /** Once the loop has broken out, further passes change nothing. */
  lemma {:induction false} RoundsStable(n: nat, m: nat, init: PollState, status: (nat, string, string) -> Status)
    requires n <= m && Stopped(Rounds(n, init, status))
    ensures Rounds(m, init, status) == Rounds(n, init, status)
    decreases m
  {
    if m > n {
      RoundsStable(n, m - 1, init, status);
    }
  }

  // ---------------------------------------------------------------------
  // The script

  /** The submission loop: per record, read the group's latest version,
      create a deployment for it and store it under its GroupId. */
  method SubmitAll(records: seq<ParameterSet>, versionOf: string -> string, deploymentIdOf: nat -> string)
    returns (creates: seq<CreateCall>, deployments: seq<Item>)
    ensures |creates| == |records|
    ensures forall k :: 0 <= k < |records| ==>
      creates[k] == CreateDeployment(records[k].groupId, versionOf(records[k].groupId))
    ensures deployments == Submitted(records, deploymentIdOf)
    ensures creates == Creates(records, versionOf)
  {
    deployments, creates := [], [];
    for k := 0 to |records|
      invariant deployments == Submitted(records[..k], deploymentIdOf)
      invariant |creates| == k
      invariant forall i :: 0 <= i < k ==>
        creates[i] == CreateDeployment(records[i].groupId, versionOf(records[i].groupId))
    {
      assert records[..k + 1][..k] == records[..k];
      var groupId := records[k].groupId;
      var version := versionOf(groupId);
      creates := creates + [CreateDeployment(groupId, version)];
      deployments := Assign(deployments, groupId, deploymentIdOf(k));
    }
    assert records[..|records|] == records;
    assert creates == Creates(records, versionOf);
  }

  /** One pass of the poll loop: query every outstanding deployment in
      dictionary order, collecting the terminal ones and a failure entry per
      'Failure', then delete the collected ones (never a missing key). */
  method PollRound(round: nat, deployments: seq<Item>, status: (nat, string, string) -> Status)
    returns (remaining: seq<Item>, fails: seq<Failure>, ghost queries: seq<Query>)
    requires Tracks(deployments)
    ensures var sc := ScanRound(round, deployments, status);
      remaining == DeleteAll(deployments, sc.done) && fails == sc.fails
    ensures queries == QueriesOf(round, deployments)
  {
    var done: seq<string> := [];
    fails, queries := [], [];
    for j := 0 to |deployments|
      invariant Scan(done, fails) == ScanRound(round, deployments[..j], status)
      invariant queries == QueriesOf(round, deployments[..j])
    {
      assert deployments[..j + 1][..j] == deployments[..j];
      var item := deployments[j];
      var response := status(round, item.groupId, item.deploymentId);
      queries := queries + [Query(round, item.groupId, item.deploymentId)];
      if response.deploymentStatus == "Success" {
        done := done + [item.groupId];
      } else if response.deploymentStatus == "Failure" {
        done := done + [item.groupId];
        fails := fails + [GroupFailed(item.groupId, response.errorMessage, response.errorDetails)];
      }
    }
    assert deployments[..|deployments|] == deployments;
    ScanDone(round, deployments, status);
    remaining := deployments;
    for j := 0 to |done|
      invariant remaining == DeleteAll(deployments, done[..j])
    {
      assert done[..j + 1][..j] == done[..j];
      // `del deployments[g]` finds its key: `g` was outstanding and is not yet deleted
      DeleteAllFacts(deployments, done[..j]);
      KeysMembership(deployments, done[j]);
      KeysMembership(remaining, done[j]);
      assert done[j] !in done[..j];
      assert done[j] in Keys(remaining);
      remaining := Del(remaining, done[j]);
    }
    assert done[..|done|] == done;
  }

  /** The poll loop: at most MaxRounds passes, leaving as soon as a pass
      ends with nothing outstanding. */
  method PollAll(deployments: seq<Item>, status: (nat, string, string) -> Status)
    returns (remaining: seq<Item>, failed: seq<Failure>, rounds: nat, ghost queries: seq<Query>)
    requires Tracks(deployments)
    ensures PollState(remaining, failed, rounds, queries) == Poll(deployments, status)
  {
    ghost var init := PollState(deployments, [], 0, []);
    remaining, failed, rounds, queries := deployments, [], 0, [];
    while rounds < MaxRounds
      invariant rounds <= MaxRounds
      invariant PollState(remaining, failed, rounds, queries) == Rounds(rounds, init, status)
      invariant !Stopped(Rounds(rounds, init, status))
      invariant Tracks(remaining)
    {
      ghost var before := PollState(remaining, failed, rounds, queries);
      RoundFacts(before, status);
      var fails;
      ghost var polled;
      remaining, fails, polled := PollRound(rounds, remaining, status);
      failed := failed + fails;
      queries := queries + polled;
      rounds := rounds + 1;
      assert PollState(remaining, failed, rounds, queries) == Round(before, status);
      if |remaining| == 0 {
        RoundsStable(rounds, MaxRounds, init, status);
        return;
      }
    }
  }

  /** The script itself: load the targets (an empty list when the parameter
      file is missing), submit, poll, append 'TIMEOUT' when something is still
      outstanding, and return the list that is written to the failures file. */
  method Run(params: Option<seq<ParameterSet>>, versionOf: string -> string,
             deploymentIdOf: nat -> string, status: (nat, string, string) -> Status)
    returns (creates: seq<CreateCall>, written: seq<Failure>, success: bool, rounds: nat)
    ensures Report(creates, written, success, rounds) == Deployment(params, versionOf, deploymentIdOf, status)
  {
    var records := if params.Some? then params.value else [];
    var deployments, failed;
    creates, deployments := SubmitAll(records, versionOf, deploymentIdOf);
    SubmittedDistinct(records, deploymentIdOf);
    ghost var queries;
    deployments, failed, rounds, queries := PollAll(deployments, status);
    ghost var failed0 := failed;
    success := |failed| == 0 && |deployments| == 0;
    if |deployments| > 0 {
      failed := failed + [Timeout];
    }
    written := failed;
    DeploymentOfPoll(params, versionOf, deploymentIdOf, status, PollState(deployments, failed0, rounds, queries));
  }

  /** The report is read off the final poll state. */
  lemma DeploymentOfPoll(params: Option<seq<ParameterSet>>, versionOf: string -> string,
                         deploymentIdOf: nat -> string, status: (nat, string, string) -> Status, p: PollState)
    requires p == Poll(Submitted(Targets(params), deploymentIdOf), status)
    ensures Deployment(params, versionOf, deploymentIdOf, status) ==
      Report(Creates(Targets(params), versionOf), Written(p), p.failed == [] && p.outstanding == [], p.rounds)
  {
  }

  // ---------------------------------------------------------------------
  // Properties

  /** After the submission loop the dictionary holds each distinct GroupId of
      the records exactly once. */
  lemma SubmittedTracks(records: seq<ParameterSet>, deploymentIdOf: nat -> string)
    ensures Tracks(Submitted(records, deploymentIdOf))
    ensures forall g :: g in Keys(Submitted(records, deploymentIdOf)) <==> g in GroupIds(records)
  {
    SubmittedDistinct(records, deploymentIdOf);
    SubmittedKeys(records, deploymentIdOf);
  }

  lemma {:induction false} SubmittedDistinct(records: seq<ParameterSet>, deploymentIdOf: nat -> string)
    ensures Tracks(Submitted(records, deploymentIdOf))
  {
    if records != [] {
      var n := |records| - 1;
      SubmittedDistinct(records[..n], deploymentIdOf);
      AssignFacts(Submitted(records[..n], deploymentIdOf), records[n].groupId, deploymentIdOf(n));
    }
  }

  lemma {:induction false} SubmittedKeys(records: seq<ParameterSet>, deploymentIdOf: nat -> string)
    ensures forall g :: g in Keys(Submitted(records, deploymentIdOf)) <==> g in GroupIds(records)
  {
    if records != [] {
      var n := |records| - 1;
      SubmittedKeys(records[..n], deploymentIdOf);
      AssignKeys(Submitted(records[..n], deploymentIdOf), records[n].groupId, deploymentIdOf(n));
      assert GroupIds(records) == GroupIds(records[..n]) + [records[n].groupId];
    }
  }

  /** The deployment stored for a group is the one created for its last
      record: a later record of the same group overwrites an earlier one. */
  lemma {:induction false} SubmittedLast(records: seq<ParameterSet>, deploymentIdOf: nat -> string, k: nat)
    requires k < |records|
    requires forall k' :: k < k' < |records| ==> records[k'].groupId != records[k].groupId
    ensures Item(records[k].groupId, deploymentIdOf(k)) in Submitted(records, deploymentIdOf)
  {
    var n := |records| - 1;
    var g := records[k].groupId;
    var prev := Submitted(records[..n], deploymentIdOf);
    AssignKeeps(prev, records[n].groupId, deploymentIdOf(n));
    if k < n {
      assert records[..n][k] == records[k];
      forall k' | k < k' < n ensures records[..n][k'].groupId != g {
        assert records[..n][k'] == records[k'];
      }
      SubmittedLast(records[..n], deploymentIdOf, k);
      assert Item(g, deploymentIdOf(k)) in prev;
      assert records[n].groupId != g;
    }
  }

  /** A missing parameter file, or one with no record, gives no deployment,
      a single poll round and an empty failure list, and the run reports
      success. */
  lemma NoTargets(params: Option<seq<ParameterSet>>, versionOf: string -> string, deploymentIdOf: nat -> string,
                  status: (nat, string, string) -> Status)
    requires Targets(params) == []
    ensures Deployment(params, versionOf, deploymentIdOf, status) == Report([], [], true, 1)
  {
    var init := PollState([], [], 0, []);
    assert Rounds(1, init, status) == PollState([], [], 1, []);
    RoundsStable(1, MaxRounds, init, status);
  }

  /** The poll loop runs at least one and at most MaxRounds rounds, stops
      early only with nothing outstanding, and keeps the loop invariant. */
  lemma PollFacts(d: seq<Item>, status: (nat, string, string) -> Status)
    requires Tracks(d)
    ensures 1 <= Poll(d, status).rounds <= MaxRounds
    ensures Poll(d, status).rounds < MaxRounds ==> Poll(d, status).outstanding == []
    ensures PollInvariant(Poll(d, status), d, status)
  {
    RoundsInvariant(MaxRounds, d, status);
  }

  /** What the failures file and the success message say about the run. */
  lemma ReportFacts(params: Option<seq<ParameterSet>>, versionOf: string -> string,
                    deploymentIdOf: nat -> string, status: (nat, string, string) -> Status)
    ensures var r := Deployment(params, versionOf, deploymentIdOf, status);
      && |r.creates| == |Targets(params)|
      && 1 <= r.rounds <= MaxRounds
      && (r.success <==> r.written == [])
      && (forall i :: 0 <= i < |r.written| - 1 ==> r.written[i].GroupFailed?)
      && (Timeout in r.written ==> r.written[|r.written| - 1] == Timeout && r.rounds == MaxRounds)
      && Distinct(FailedIds(r.written))
      && (forall g :: g in FailedIds(r.written) ==> g in GroupIds(Targets(params)))
      && |r.written| <= |Elements(GroupIds(Targets(params)))| + 1
      && (forall e :: e in r.written && e.GroupFailed? ==>
            FailureReported(e, Poll(Submitted(Targets(params), deploymentIdOf), status).queries, status))
  {
    var records := Targets(params);
    var d := Submitted(records, deploymentIdOf);
    var p := Poll(d, status);
    SubmittedTracks(records, deploymentIdOf);
    PollFacts(d, status);
    DeploymentOfPoll(params, versionOf, deploymentIdOf, status, p);
    WrittenFacts(p, d, records, status);
  }

  /** The list written after the poll loop ends in the state `p`. */
  function Written(p: PollState): seq<Failure>
  {
    p.failed + (if p.outstanding != [] then [Timeout] else [])
  }

  lemma WrittenIds(p: PollState)
    ensures FailedIds(Written(p)) == FailedIds(p.failed)
  {
    var tail := if p.outstanding != [] then [Timeout] else [];
    FailedIdsAppend(p.failed, tail);
    assert FailedIds(tail) == [];
  }

  /** The facts of ReportFacts about a final poll state over the dictionary
      `d` built from `records`. */
  lemma WrittenFacts(p: PollState, d: seq<Item>, records: seq<ParameterSet>, status: (nat, string, string) -> Status)
    requires Tracks(d) && forall g :: g in Keys(d) <==> g in GroupIds(records)
    requires 1 <= p.rounds <= MaxRounds && (p.rounds < MaxRounds ==> p.outstanding == [])
    requires PollInvariant(p, d, status)
    ensures var written := Written(p);
      && ((p.failed == [] && p.outstanding == []) <==> written == [])
      && (forall i :: 0 <= i < |written| - 1 ==> written[i].GroupFailed?)
      && (Timeout in written ==> written[|written| - 1] == Timeout && p.rounds == MaxRounds)
      && Distinct(FailedIds(written))
      && (forall g :: g in FailedIds(written) ==> g in GroupIds(records))
      && |written| <= |Elements(GroupIds(records))| + 1
      && (forall e :: e in written && e.GroupFailed? ==> FailureReported(e, p.queries, status))
  {
    var written := Written(p);
    WrittenIds(p);
    forall e | e in p.failed ensures e.GroupFailed? {
      assert FailureReported(e, p.queries, status);
    }
    forall i | 0 <= i < |written| - 1 ensures written[i].GroupFailed? {
      assert written[i] == p.failed[i];
    }
    FailedIdsLength(p.failed);
    forall g | g in FailedIds(p.failed) ensures g in GroupIds(records) {
      assert g in Keys(d);
    }
    DistinctWithin(FailedIds(p.failed), GroupIds(records));
  }

  /** How the written list follows the answers the poll loop received: a
      'Failure' answer gives its entry (once, by ReportFacts), a group that
      answered 'Success' has no entry, and a group that never got a terminal
      answer leaves the run timed out. */
  lemma ReportAnswers(params: Option<seq<ParameterSet>>, versionOf: string -> string,
                      deploymentIdOf: nat -> string, status: (nat, string, string) -> Status)
    ensures var r := Deployment(params, versionOf, deploymentIdOf, status);
      var qs := Poll(Submitted(Targets(params), deploymentIdOf), status).queries;
      && (forall q :: q in qs && Answer(q, status).deploymentStatus == "Failure" ==>
            GroupFailed(q.groupId, Answer(q, status).errorMessage, Answer(q, status).errorDetails) in r.written)
      && (forall q :: q in qs && Answer(q, status).deploymentStatus == "Success" ==> q.groupId !in FailedIds(r.written))
      && (forall g :: g in GroupIds(Targets(params)) && NoTerminalAnswer(qs, g, status) ==>
            Timeout in r.written && !r.success)
  {
    var records := Targets(params);
    var d := Submitted(records, deploymentIdOf);
    var p := Poll(d, status);
    SubmittedTracks(records, deploymentIdOf);
    PollFacts(d, status);
    DeploymentOfPoll(params, versionOf, deploymentIdOf, status, p);
    WrittenAnswers(p, d, records, status);
  }

  /** The facts of ReportAnswers about a final poll state over the
      dictionary `d` built from `records`. */
  lemma WrittenAnswers(p: PollState, d: seq<Item>, records: seq<ParameterSet>, status: (nat, string, string) -> Status)
    requires forall g :: g in Keys(d) <==> g in GroupIds(records)
    requires PollInvariant(p, d, status)
    ensures var written := Written(p);
      && (forall q :: q in p.queries && Answer(q, status).deploymentStatus == "Failure" ==>
            GroupFailed(q.groupId, Answer(q, status).errorMessage, Answer(q, status).errorDetails) in written)
      && (forall q :: q in p.queries && Answer(q, status).deploymentStatus == "Success" ==> q.groupId !in FailedIds(written))
      && (forall g :: g in GroupIds(records) && NoTerminalAnswer(p.queries, g, status) ==>
            Timeout in written && p.outstanding != [])
  {
    WrittenIds(p);
    forall q | q in p.queries && Answer(q, status).deploymentStatus == "Success"
      ensures q.groupId !in FailedIds(Written(p))
    {
      SuccessNotFailed(p, d, status, q);
    }
    forall g | g in GroupIds(records) && NoTerminalAnswer(p.queries, g, status)
      ensures Timeout in Written(p) && p.outstanding != []
    {
      KeysMembership(d, g);
      var it :| it in d && it.groupId == g;
      assert it in p.outstanding;
    }
  }

  /** A group that answered 'Success' has no failure entry: its other
      answers were all earlier, hence not terminal. */
  lemma SuccessNotFailed(s: PollState, d: seq<Item>, status: (nat, string, string) -> Status, q: Query)
    requires PollInvariant(s, d, status)
    requires q in s.queries && Answer(q, status).deploymentStatus == "Success"
    ensures q.groupId !in FailedIds(s.failed)
  {
    FailedIdsMembers(s.failed, q.groupId);
    var i :| 0 <= i < |s.queries| && s.queries[i] == q;
    forall e | e in s.failed && e.GroupFailed? ensures e.groupId != q.groupId {
      assert FailureReported(e, s.queries, status);
      var q' :| q' in s.queries && q'.groupId == e.groupId
        && Answer(q', status) == Status("Failure", e.errorMessage, e.errorDetails);
      var j :| 0 <= j < |s.queries| && s.queries[j] == q';
      // whichever of the two answers came first was not terminal
      if i < j {
        assert s.queries[i].groupId == s.queries[j].groupId ==> !IsTerminal(Answer(s.queries[i], status));
      } else if j < i {
        assert s.queries[j].groupId == s.queries[i].groupId ==> !IsTerminal(Answer(s.queries[j], status));
      }
    }
  }

  lemma {:induction false} FailedIdsMembers(fs: seq<Failure>, g: string)
    ensures g in FailedIds(fs) <==> exists e :: e in fs && e.GroupFailed? && e.groupId == g
  {
    if fs != [] {
      FailedIdsMembers(fs[1..], g);
      assert forall e :: e in fs <==> e == fs[0] || e in fs[1..];
    }
  }

  lemma {:induction false} FailedIdsLength(fs: seq<Failure>)
    requires forall e :: e in fs ==> e.GroupFailed?
    ensures |FailedIds(fs)| == |fs|
  {
    if fs != [] {
      assert fs[0] in fs;
      FailedIdsLength(fs[1..]);
    }
  }

  /** The outstanding deployments only shrink from one pass to the next. */
  lemma {:induction false} OutstandingShrinks(n: nat, m: nat, init: PollState, status: (nat, string, string) -> Status)
    requires n <= m && Tracks(init.outstanding)
    ensures forall it :: it in Rounds(m, init, status).outstanding ==> it in Rounds(n, init, status).outstanding
    decreases m
  {
    if m > n {
      OutstandingShrinks(n, m - 1, init, status);
      OutstandingStep(m, init, status);
    }
  }

  /** One pass only removes outstanding deployments. */
  lemma OutstandingStep(m: nat, init: PollState, status: (nat, string, string) -> Status)
    requires m > 0 && Tracks(init.outstanding)
    ensures forall it :: it in Rounds(m, init, status).outstanding ==> it in Rounds(m - 1, init, status).outstanding
  {
    var p := Rounds(m - 1, init, status);
    if !Stopped(p) {
      TracksAfter(m - 1, init, status);
      RoundFacts(p, status);
    }
  }

  lemma {:induction false} TracksAfter(n: nat, init: PollState, status: (nat, string, string) -> Status)
    requires Tracks(init.outstanding)
    ensures Tracks(Rounds(n, init, status).outstanding)
  {
    if n > 0 {
      TracksAfter(n - 1, init, status);
      var p := Rounds(n - 1, init, status);
      if !Stopped(p) {
        RoundFacts(p, status);
      }
    }
  }

  // ---------------------------------------------------------------------
  // What the log of status calls holds

  /** Later passes only append to the log of status calls. */
  lemma {:induction false} QueriesPrefix(n: nat, m: nat, init: PollState, status: (nat, string, string) -> Status)
    requires n <= m
    ensures Rounds(n, init, status).queries <= Rounds(m, init, status).queries
    decreases m
  {
    if m > n {
      QueriesPrefix(n, m - 1, init, status);
      var p := Rounds(m - 1, init, status);
      if !Stopped(p) {
        assert Rounds(m, init, status).queries == p.queries + QueriesOf(p.rounds, p.outstanding);
      }
    }
  }

  /** Started from round 0, `n` passes run `n` rounds unless the loop broke out. */
  lemma {:induction false} RoundsCount(n: nat, init: PollState, status: (nat, string, string) -> Status)
    requires init.rounds == 0
    ensures Rounds(n, init, status).rounds <= n
    ensures Rounds(n, init, status).rounds == n || Stopped(Rounds(n, init, status))
  {
    if n > 0 {
      RoundsCount(n - 1, init, status);
    }
  }

  /** Round `k` of the loop started on `d` asks for the status of every item
      still outstanding before it, and that call stays in the final log. */
  lemma PolledWhileOutstanding(d: seq<Item>, status: (nat, string, string) -> Status, k: nat, it: Item)
    requires Tracks(d)
    requires k < Poll(d, status).rounds
    requires it in Rounds(k, PollState(d, [], 0, []), status).outstanding
    ensures Query(k, it.groupId, it.deploymentId) in Poll(d, status).queries
  {
    var init := PollState(d, [], 0, []);
    var q := Query(k, it.groupId, it.deploymentId);
    RunningBefore(d, status, k);
    RoundsCount(k, init, status);
    NextRoundQueries(k, init, status, it);
    QueriesPrefix(k + 1, MaxRounds, init, status);
    PrefixMember(Rounds(k + 1, init, status).queries, Poll(d, status).queries, q);
  }

  /** The pass after `k` passes asks about every item then outstanding. */
  lemma NextRoundQueries(k: nat, init: PollState, status: (nat, string, string) -> Status, it: Item)
    requires !Stopped(Rounds(k, init, status)) && Rounds(k, init, status).rounds == k
    requires it in Rounds(k, init, status).outstanding
    ensures Query(k, it.groupId, it.deploymentId) in Rounds(k + 1, init, status).queries
  {
    RoundsNext(k, init, status);
    RoundQueries(Rounds(k, init, status), it);
  }

  lemma PrefixMember(a: seq<Query>, b: seq<Query>, q: Query)
    requires a <= b && q in a
    ensures q in b
  {
    var i :| 0 <= i < |a| && a[i] == q;
    assert b[i] == q;
  }

  /** The loop has not broken out before a round that runs. */
  lemma RunningBefore(d: seq<Item>, status: (nat, string, string) -> Status, k: nat)
    requires k < Poll(d, status).rounds
    ensures k < MaxRounds
    ensures !Stopped(Rounds(k, PollState(d, [], 0, []), status))
  {
    var init := PollState(d, [], 0, []);
    RoundsCount(k, init, status);
    RoundsCount(MaxRounds, init, status);
    if Stopped(Rounds(k, init, status)) {
      RoundsStable(k, MaxRounds, init, status);
    }
  }

  lemma RoundsNext(n: nat, init: PollState, status: (nat, string, string) -> Status)
    requires !Stopped(Rounds(n, init, status))
    ensures Rounds(n + 1, init, status) == Round(Rounds(n, init, status), status)
  {
  }

  /** Every submitted deployment is polled in round 0. */
  lemma FirstPoll(d: seq<Item>, status: (nat, string, string) -> Status, it: Item)
    requires Tracks(d) && it in d
    ensures Query(0, it.groupId, it.deploymentId) in Poll(d, status).queries
  {
    RoundsCount(MaxRounds, PollState(d, [], 0, []), status);
    PolledWhileOutstanding(d, status, 0, it);
  }

  /** A deployment that never answers 'Success' or 'Failure' in the rounds
      that `n` passes run is still outstanding after them. */
  lemma {:induction false} StaysOutstanding(n: nat, init: PollState, status: (nat, string, string) -> Status, it: Item)
    requires Tracks(init.outstanding) && it in init.outstanding
    requires forall k :: 0 <= k < Rounds(n, init, status).rounds ==> !IsTerminal(status(k, it.groupId, it.deploymentId))
    ensures it in Rounds(n, init, status).outstanding
  {
    if n > 0 {
      RoundsGrow(n, init, status);
      StaysOutstanding(n - 1, init, status, it);
      RoundsAdvance(n, init, status, it);
      StaysStep(n, init, status, it);
    }
  }

  /** A pass never lowers the round count. */
  lemma RoundsGrow(n: nat, init: PollState, status: (nat, string, string) -> Status)
    requires n > 0
    ensures Rounds(n - 1, init, status).rounds <= Rounds(n, init, status).rounds
  {
  }

  /** A pass that finds something outstanding runs one more round. */
  lemma RoundsAdvance(n: nat, init: PollState, status: (nat, string, string) -> Status, it: Item)
    requires n > 0 && it in Rounds(n - 1, init, status).outstanding
    ensures Rounds(n, init, status).rounds == Rounds(n - 1, init, status).rounds + 1
  {
    var p := Rounds(n - 1, init, status);
    assert p.outstanding != [] by {
      assert it in p.outstanding;
    }
  }

  /** The pass after `n - 1` keeps an item without a terminal answer. */
  lemma StaysStep(n: nat, init: PollState, status: (nat, string, string) -> Status, it: Item)
    requires Tracks(init.outstanding) && n > 0
    requires it in Rounds(n - 1, init, status).outstanding
    requires !IsTerminal(status(Rounds(n - 1, init, status).rounds, it.groupId, it.deploymentId))
    ensures it in Rounds(n, init, status).outstanding
  {
    TracksAfter(n - 1, init, status);
    RoundKeepsItem(Rounds(n - 1, init, status), status, it);
  }

  /** An outstanding deployment without a terminal answer in this round stays. */
  lemma RoundKeepsItem(p: PollState, status: (nat, string, string) -> Status, it: Item)
    requires Tracks(p.outstanding) && it in p.outstanding
    requires !IsTerminal(status(p.rounds, it.groupId, it.deploymentId))
    ensures !Stopped(p) && it in Round(p, status).outstanding
  {
    RoundFacts(p, status);
  }

  /** The written list in terms of get_deployment_status itself: when the
      deployment of an item still outstanding before round `k` answers
      'Failure' there, its entry is written (once, by ReportFacts); when it
      answers 'Success', its group has no entry. */
  lemma ReportPolled(params: Option<seq<ParameterSet>>, versionOf: string -> string,
                     deploymentIdOf: nat -> string, status: (nat, string, string) -> Status, k: nat, it: Item)
    requires k < Deployment(params, versionOf, deploymentIdOf, status).rounds
    requires it in Rounds(k, PollState(Submitted(Targets(params), deploymentIdOf), [], 0, []), status).outstanding
    ensures var r := Deployment(params, versionOf, deploymentIdOf, status);
      var st := status(k, it.groupId, it.deploymentId);
      && (st.deploymentStatus == "Failure" ==> GroupFailed(it.groupId, st.errorMessage, st.errorDetails) in r.written)
      && (st.deploymentStatus == "Success" ==> it.groupId !in FailedIds(r.written))
  {
    var d := Submitted(Targets(params), deploymentIdOf);
    SubmittedTracks(Targets(params), deploymentIdOf);
    PolledWhileOutstanding(d, status, k, it);
    ReportAnswers(params, versionOf, deploymentIdOf, status);
    assert Answer(Query(k, it.groupId, it.deploymentId), status) == status(k, it.groupId, it.deploymentId);
  }

  /** A deployment that answers neither 'Success' nor 'Failure' in any round
      that ran leaves the run timed out. */
  lemma ReportTimedOut(params: Option<seq<ParameterSet>>, versionOf: string -> string,
                       deploymentIdOf: nat -> string, status: (nat, string, string) -> Status, it: Item)
    requires it in Submitted(Targets(params), deploymentIdOf)
    requires forall k :: 0 <= k < Deployment(params, versionOf, deploymentIdOf, status).rounds ==>
      !IsTerminal(status(k, it.groupId, it.deploymentId))
    ensures Timeout in Deployment(params, versionOf, deploymentIdOf, status).written
    ensures !Deployment(params, versionOf, deploymentIdOf, status).success
  {
    var d := Submitted(Targets(params), deploymentIdOf);
    var init := PollState(d, [], 0, []);
    var p := Poll(d, status);
    SubmittedTracks(Targets(params), deploymentIdOf);
    StaysOutstanding(MaxRounds, init, status, it);
  }

  /** For the deployment `id` stored for target group `g`: a 'Success' on the
      first poll keeps `g` out of the failures file, a 'Failure' on the first
      poll puts its message and details there, and no terminal answer in any
      round that ran means 'TIMEOUT' and no success message. */
  lemma ReportStatus(params: Option<seq<ParameterSet>>, versionOf: string -> string,
                     deploymentIdOf: nat -> string, status: (nat, string, string) -> Status, g: string, id: string)
    requires Item(g, id) in Submitted(Targets(params), deploymentIdOf)
    ensures var r := Deployment(params, versionOf, deploymentIdOf, status);
      var st := status(0, g, id);
      && (st.deploymentStatus == "Success" ==> g !in FailedIds(r.written))
      && (st.deploymentStatus == "Failure" ==> GroupFailed(g, st.errorMessage, st.errorDetails) in r.written)
      && ((forall k :: 0 <= k < r.rounds ==> !IsTerminal(status(k, g, id))) ==> Timeout in r.written && !r.success)
  {
    var d := Submitted(Targets(params), deploymentIdOf);
    var r := Deployment(params, versionOf, deploymentIdOf, status);
    RoundsCount(MaxRounds, PollState(d, [], 0, []), status);
    ReportPolled(params, versionOf, deploymentIdOf, status, 0, Item(g, id));
    if forall k :: 0 <= k < r.rounds ==> !IsTerminal(status(k, g, id)) {
      ReportTimedOut(params, versionOf, deploymentIdOf, status, Item(g, id));
    }
  }
}
