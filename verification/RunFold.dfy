// The state updaters of use-run-stream.ts: what the interface shows after a sequence of callbacks.
module RunFold {
  import opened Options

  // A step with its index; the other columns travel along unexamined.
  datatype RunStep = RunStep(index: int, body: string)

  datatype RunData = RunData(
    status: string,
    finishedAt: Option<string>,
    haltReason: Option<string>,
    steps: seq<RunStep>,
    rest: string)

  datatype Approval = Approval(id: string, body: string)

  datatype Connection = AtConnecting | AtOpen | AtReconnecting | AtClosed

  datatype Callback =
    | OnSnapshot(run: RunData)
    | OnStepUpdate(step: RunStep)
    | OnRunUpdate(status: string, finishedAt: Option<string>, haltReason: Option<string>)
    | OnApprovalRequested(approval: Approval)
    | OnConnection(connection: Connection)
    | OnError(message: string)

  datatype Ui = Ui(run: Option<RunData>, isReconnecting: bool, error: Option<string>, pendingApprovals: seq<Approval>)

  const BLANK := Ui(None, false, None, [])

  predicate IsTerminal(status: string) {
    status == "succeeded" || status == "failed" || status == "cancelled"
  }

  // The position of the first step with this index, or the length.
  function FindStep(steps: seq<RunStep>, index: int): (i: nat)
    ensures i <= |steps|
    ensures i < |steps| ==> steps[i].index == index
    ensures forall j :: 0 <= j < i ==> steps[j].index != index
  {
    if steps == [] || steps[0].index == index then 0 else 1 + FindStep(steps[1..], index)
  }

  function MergeStep(steps: seq<RunStep>, next: RunStep): seq<RunStep> {
    var i := FindStep(steps, next.index);
    if i == |steps| then steps + [next] else steps[i := next]
  }

  function Without(approvals: seq<Approval>, id: string): seq<Approval> {
    if approvals == [] then []
    else (if approvals[0].id == id then [] else [approvals[0]]) + Without(approvals[1..], id)
  }

  function Update(ui: Ui, c: Callback): Ui {
    match c
    case OnSnapshot(run) => ui.(run := Some(run), error := None)
    case OnStepUpdate(step) =>
      if ui.run.None? then ui
      else ui.(run := Some(ui.run.value.(steps := MergeStep(ui.run.value.steps, step))))
    case OnRunUpdate(status, finishedAt, haltReason) =>
      if ui.run.None? then ui
      else ui.(run := Some(ui.run.value.(status := status, finishedAt := finishedAt, haltReason := haltReason)))
    case OnApprovalRequested(a) => ui.(pendingApprovals := Without(ui.pendingApprovals, a.id) + [a])
    case OnConnection(c) => ui.(isReconnecting := c == AtReconnecting)
    case OnError(m) => ui.(error := Some(m))
  }

  function Fold(ui: Ui, cs: seq<Callback>): Ui {
    if cs == [] then ui else Update(Fold(ui, cs[..|cs| - 1]), cs[|cs| - 1])
  }

  // ---------------------------------------------------------------------------
  // The server's side
  // ---------------------------------------------------------------------------

  // What a run is to the server: at most one step per index.
  datatype ServerRun = ServerRun(
    status: string,
    finishedAt: Option<string>,
    haltReason: Option<string>,
    steps: map<int, RunStep>)

  function ServerUpdate(s: ServerRun, c: Callback): ServerRun {
    match c
    case OnStepUpdate(step) => s.(steps := s.steps[step.index := step])
    case OnRunUpdate(status, finishedAt, haltReason) =>
      s.(status := status, finishedAt := finishedAt, haltReason := haltReason)
    case _ => s
  }

  function ServerAfter(s: ServerRun, cs: seq<Callback>): ServerRun {
    if cs == [] then s else ServerUpdate(ServerAfter(s, cs[..|cs| - 1]), cs[|cs| - 1])
  }

  predicate Distinct(steps: seq<RunStep>) {
    forall i, j :: 0 <= i < j < |steps| ==> steps[i].index != steps[j].index
  }

  function StepAt(steps: seq<RunStep>, index: int): Option<RunStep> {
    var i := FindStep(steps, index);
    if i < |steps| then Some(steps[i]) else None
  }

  // The client shows what the server has.
  ghost predicate Shows(run: RunData, s: ServerRun) {
    && run.status == s.status && run.finishedAt == s.finishedAt && run.haltReason == s.haltReason
    && Distinct(run.steps)
    && forall k: int :: StepAt(run.steps, k) == if k in s.steps then Some(s.steps[k]) else None
  }

  // ---------------------------------------------------------------------------
  // Theorems
  // ---------------------------------------------------------------------------

  // Merging replaces the one step with that index, or appends it, and moves nothing else.
  lemma MergeStepSets(steps: seq<RunStep>, next: RunStep)
    requires Distinct(steps)
    ensures Distinct(MergeStep(steps, next))
    ensures forall k: int :: StepAt(MergeStep(steps, next), k) == if k == next.index then Some(next) else StepAt(steps, k)
    ensures forall i :: 0 <= i < |steps| ==> MergeStep(steps, next)[i].index == steps[i].index
  {
    var merged := MergeStep(steps, next);
    assert forall i :: 0 <= i < |steps| ==> merged[i].index == steps[i].index;
    forall k: int
      ensures StepAt(merged, k) == if k == next.index then Some(next) else StepAt(steps, k)
    {
      var i, j := FindStep(steps, k), FindStep(merged, k);
      if k != next.index {
        assert i < |steps| ==> merged[i] == steps[i];
        assert j < |steps| ==> merged[j] == steps[j];
      } else {
        var at := FindStep(steps, next.index);
        assert merged[at] == next;
      }
    }
  }

  predicate IsSnapshot(c: Callback) {
    c.OnSnapshot?
  }

  lemma UpdateShows(ui: Ui, s: ServerRun, c: Callback)
    requires ui.run.Some? && Shows(ui.run.value, s) && !IsSnapshot(c)
    ensures Update(ui, c).run.Some? && Shows(Update(ui, c).run.value, ServerUpdate(s, c))
    ensures Update(ui, c).run.value.rest == ui.run.value.rest
  {
    if c.OnStepUpdate? {
      MergeStepSets(ui.run.value.steps, c.step);
    }
  }

  // Callbacks that carry the server's updates in order keep the client in step with the server,
  // whatever connection changes, approvals and errors come in between.
  lemma {:induction false} FoldFollowsServer(ui: Ui, s: ServerRun, cs: seq<Callback>)
    requires ui.run.Some? && Shows(ui.run.value, s)
    requires forall i :: 0 <= i < |cs| ==> !IsSnapshot(cs[i])
    ensures var f := Fold(ui, cs);
            && f.run.Some? && Shows(f.run.value, ServerAfter(s, cs)) && f.run.value.rest == ui.run.value.rest
  {
    if cs != [] {
      var front := cs[..|cs| - 1];
      FoldFollowsServer(ui, s, front);
      UpdateShows(Fold(ui, front), ServerAfter(s, front), cs[|cs| - 1]);
    }
  }

  function ToServer(run: RunData): ServerRun {
    ServerRun(run.status, run.finishedAt, run.haltReason, StepMap(run.steps))
  }

  function StepMap(steps: seq<RunStep>): map<int, RunStep> {
    if steps == [] then map[] else StepMap(steps[1..])[steps[0].index := steps[0]]
  }

  lemma {:induction false} StepMapIsStepAt(steps: seq<RunStep>, k: int)
    ensures StepAt(steps, k) == if k in StepMap(steps) then Some(StepMap(steps)[k]) else None
  {
    if steps != [] {
      StepMapIsStepAt(steps[1..], k);
    }
  }

  lemma {:induction false} FoldConcat(ui: Ui, a: seq<Callback>, b: seq<Callback>)
    ensures Fold(ui, a + b) == Fold(Fold(ui, a), b)
  {
    if b == [] {
      assert a + b == a;
    } else {
      assert (a + b)[..|a + b| - 1] == a + b[..|b| - 1];
      FoldConcat(ui, a, b[..|b| - 1]);
    }
  }

  // After any history, what counts is the last snapshot and the updates since: the client then agrees
  // with a server that was in that state and made those updates.
  lemma LastSnapshotThenUpdates(before: seq<Callback>, run: RunData, after: seq<Callback>)
    requires Distinct(run.steps) && forall i :: 0 <= i < |after| ==> !IsSnapshot(after[i])
    ensures var f := Fold(BLANK, before + [OnSnapshot(run)] + after);
            f.run.Some? && f.run.value.rest == run.rest && Shows(f.run.value, ServerAfter(ToServer(run), after))
  {
    var start := Fold(BLANK, before + [OnSnapshot(run)]);
    assert (before + [OnSnapshot(run)])[..|before|] == before;
    assert start.run == Some(run);
    forall k: int
      ensures StepAt(run.steps, k) == if k in StepMap(run.steps) then Some(StepMap(run.steps)[k]) else None
    {
      StepMapIsStepAt(run.steps, k);
    }
    FoldFollowsServer(start, ToServer(run), after);
    FoldConcat(BLANK, before + [OnSnapshot(run)], after);
  }

  // The last update sent for one index, if any.
  function LastStep(cs: seq<Callback>, k: int): Option<RunStep> {
    if cs == [] then None
    else
      var c := cs[|cs| - 1];
      if c.OnStepUpdate? && c.step.index == k then Some(c.step) else LastStep(cs[..|cs| - 1], k)
  }

  function LastRunUpdate(cs: seq<Callback>): Option<Callback> {
    if cs == [] then None
    else if cs[|cs| - 1].OnRunUpdate? then Some(cs[|cs| - 1])
    else LastRunUpdate(cs[..|cs| - 1])
  }

  // The server's state, spelt out: per index the last update sent, else what the snapshot had.
  lemma {:induction false} ServerAfterIsLastUpdate(s: ServerRun, cs: seq<Callback>, k: int)
    ensures var n := ServerAfter(s, cs);
            && (if LastStep(cs, k).Some? then k in n.steps && n.steps[k] == LastStep(cs, k).value
                else (k in n.steps <==> k in s.steps) && (k in s.steps ==> n.steps[k] == s.steps[k]))
            && (match LastRunUpdate(cs)
                case Some(u) => u.OnRunUpdate? && (n.status, n.finishedAt, n.haltReason) == (u.status, u.finishedAt, u.haltReason)
                case None => (n.status, n.finishedAt, n.haltReason) == (s.status, s.finishedAt, s.haltReason))
  {
    if cs != [] {
      ServerAfterIsLastUpdate(s, cs[..|cs| - 1], k);
    }
  }

  lemma {:induction false} ServerAfterConcat(s: ServerRun, a: seq<Callback>, b: seq<Callback>)
    ensures ServerAfter(s, a + b) == ServerAfter(ServerAfter(s, a), b)
  {
    if b == [] {
      assert a + b == a;
    } else {
      assert (a + b)[..|a + b| - 1] == a + b[..|b| - 1];
      ServerAfterConcat(s, a, b[..|b| - 1]);
    }
  }

  function ServerStep(s: ServerRun, k: int): Option<RunStep> {
    if k in s.steps then Some(s.steps[k]) else None
  }

  // The server made the updates u.  A snapshot of version v, the state after v of them, reaches the
  // client after q updates were due, and u[q..] follow; what is missed is u[v..q].
  ghost predicate SnapshotOf(run: RunData, start: ServerRun, u: seq<Callback>, v: nat, q: nat) {
    && v <= q <= |u|
    && (forall i :: 0 <= i < |u| ==> !IsSnapshot(u[i]))
    && Shows(run, ServerAfter(start, u[..v]))
  }

  function RunFields(run: RunData): (string, Option<string>, Option<string>) {
    (run.status, run.finishedAt, run.haltReason)
  }

  function UpdateFields(c: Callback): (string, Option<string>, Option<string>)
    requires c.OnRunUpdate?
  {
    (c.status, c.finishedAt, c.haltReason)
  }

  lemma {:induction false} LastRunUpdateIs(cs: seq<Callback>)
    ensures LastRunUpdate(cs).Some? ==> LastRunUpdate(cs).value.OnRunUpdate?
  {
    if cs != [] {
      LastRunUpdateIs(cs[..|cs| - 1]);
    }
  }

  // The client with the late snapshot shows what the snapshot's version and u[q..] make together.
  lemma LateSnapshotShows(before: seq<Callback>, run: RunData, start: ServerRun, u: seq<Callback>, v: nat, q: nat)
    requires SnapshotOf(run, start, u, v, q)
    ensures var f := Fold(BLANK, before + [OnSnapshot(run)] + u[q..]);
            f.run.Some? && Shows(f.run.value, ServerAfter(ServerAfter(start, u[..v]), u[q..]))
    ensures ServerAfter(start, u) == ServerAfter(ServerAfter(ServerAfter(start, u[..v]), u[v..q]), u[q..])
  {
    hide Shows, Update;
    var landed := Fold(BLANK, before + [OnSnapshot(run)]);
    assert landed.run == Some(run) by { SnapshotLands(before, run); }
    FoldFollowsServer(landed, ServerAfter(start, u[..v]), u[q..]);
    FoldConcat(BLANK, before + [OnSnapshot(run)], u[q..]);
    assert u == u[..v] + u[v..q] + u[q..];
    ServerAfterConcat(start, u[..v] + u[v..q], u[q..]);
    ServerAfterConcat(start, u[..v], u[v..q]);
  }

  lemma SnapshotLands(before: seq<Callback>, run: RunData)
    ensures Fold(BLANK, before + [OnSnapshot(run)]).run == Some(run)
  {
    assert (before + [OnSnapshot(run)])[..|before|] == before;
  }

  // For each step index the client then agrees with the server if and only if the step is updated again
  // in u[q..], or was not updated in u[v..q], or the last of those updates changed nothing.
  lemma LateSnapshotAgreesIff(before: seq<Callback>, run: RunData, start: ServerRun, u: seq<Callback>, v: nat, q: nat, k: int)
    requires SnapshotOf(run, start, u, v, q)
    ensures var f := Fold(BLANK, before + [OnSnapshot(run)] + u[q..]);
            f.run.Some? &&
            (StepAt(f.run.value.steps, k) == ServerStep(ServerAfter(start, u), k) <==>
             LastStep(u[q..], k).Some? || LastStep(u[v..q], k).None? || StepAt(run.steps, k) == LastStep(u[v..q], k))
  {
    LateSnapshotShows(before, run, start, u, v, q);
    var atV := ServerAfter(start, u[..v]);
    hide Fold, ServerAfter, LastStep;
    ServerAfterIsLastUpdate(atV, u[q..], k);
    ServerAfterIsLastUpdate(atV, u[v..q], k);
    ServerAfterIsLastUpdate(ServerAfter(atV, u[v..q]), u[q..], k);
  }

  // The same for the run's status, finish time and halt reason, which travel together.
  lemma LateSnapshotFieldsAgreeIff(before: seq<Callback>, run: RunData, start: ServerRun, u: seq<Callback>, v: nat, q: nat)
    requires SnapshotOf(run, start, u, v, q)
    ensures var f, s := Fold(BLANK, before + [OnSnapshot(run)] + u[q..]), ServerAfter(start, u);
            var missed := LastRunUpdate(u[v..q]);
            f.run.Some? && (missed.Some? ==> missed.value.OnRunUpdate?) &&
            (RunFields(f.run.value) == (s.status, s.finishedAt, s.haltReason) <==>
             LastRunUpdate(u[q..]).Some? || missed.None? || RunFields(run) == UpdateFields(missed.value))
  {
    LateSnapshotShows(before, run, start, u, v, q);
    LastRunUpdateIs(u[v..q]);
    var atV := ServerAfter(start, u[..v]);
    hide Fold, ServerAfter, LastRunUpdate;
    ServerAfterIsLastUpdate(atV, u[q..], 0);
    ServerAfterIsLastUpdate(atV, u[v..q], 0);
    ServerAfterIsLastUpdate(ServerAfter(atV, u[v..q]), u[q..], 0);
  }

  // So a snapshot that lands in time, with no update between its version and its arrival, leaves the
  // client in agreement with the server on everything, whatever came before.
  lemma SnapshotInTimeAgrees(before: seq<Callback>, run: RunData, start: ServerRun, u: seq<Callback>, v: nat)
    requires SnapshotOf(run, start, u, v, v)
    ensures var f := Fold(BLANK, before + [OnSnapshot(run)] + u[v..]);
            f.run.Some? && Shows(f.run.value, ServerAfter(start, u))
  {
    LateSnapshotShows(before, run, start, u, v, v);
    assert u[v..v] == [];
  }

  lemma {:induction false} WithoutRemoves(approvals: seq<Approval>, id: string)
    ensures forall a :: a in Without(approvals, id) <==> a in approvals && a.id != id
    ensures OnePerId(approvals) ==> OnePerId(Without(approvals, id))
  {
    if approvals != [] {
      WithoutRemoves(approvals[1..], id);
    }
  }

  predicate OnePerId(approvals: seq<Approval>) {
    forall i, j :: 0 <= i < j < |approvals| ==> approvals[i].id != approvals[j].id
  }

  // However often an approval is requested again, it is pending once.
  lemma {:induction false} ApprovalsStayDistinct(cs: seq<Callback>)
    ensures OnePerId(Fold(BLANK, cs).pendingApprovals)
  {
    if cs != [] {
      ApprovalsStayDistinct(cs[..|cs| - 1]);
      if cs[|cs| - 1].OnApprovalRequested? {
        WithoutRemoves(Fold(BLANK, cs[..|cs| - 1]).pendingApprovals, cs[|cs| - 1].approval.id);
      }
    }
  }

  predicate Requested(cs: seq<Callback>, id: string) {
    exists j :: 0 <= j < |cs| && cs[j].OnApprovalRequested? && cs[j].approval.id == id
  }

  // The approvals requested for which no later request uses the same id, in the order of the requests.
  function LastRequested(cs: seq<Callback>): seq<Approval> {
    if cs == [] then []
    else
      (if cs[0].OnApprovalRequested? && !Requested(cs[1..], cs[0].approval.id) then [cs[0].approval] else [])
      + LastRequested(cs[1..])
  }

  lemma RequestedStep(cs: seq<Callback>, c: Callback, id: string)
    ensures Requested(cs + [c], id) <==> Requested(cs, id) || (c.OnApprovalRequested? && c.approval.id == id)
  {
    var all := cs + [c];
    assert all[|cs|] == c && forall j :: 0 <= j < |cs| ==> all[j] == cs[j];
  }

  lemma {:induction false} WithoutJoin(a: seq<Approval>, b: seq<Approval>, id: string)
    ensures Without(a + b, id) == Without(a, id) + Without(b, id)
  {
    if a == [] {
      assert a + b == b;
    } else {
      assert (a + b)[1..] == a[1..] + b;
      WithoutJoin(a[1..], b, id);
    }
  }

  lemma WithoutOne(a: Approval, id: string)
    ensures Without([a], id) == if a.id == id then [] else [a]
  {
  }

  // What the first callback contributes.
  function First(cs: seq<Callback>): seq<Approval>
    requires cs != []
  {
    if cs[0].OnApprovalRequested? && !Requested(cs[1..], cs[0].approval.id) then [cs[0].approval] else []
  }

  lemma FirstStep(cs: seq<Callback>, c: Callback)
    requires cs != []
    ensures First(cs + [c]) == if c.OnApprovalRequested? then Without(First(cs), c.approval.id) else First(cs)
  {
    assert (cs + [c])[1..] == cs[1..] + [c] && (cs + [c])[0] == cs[0];
    if cs[0].OnApprovalRequested? {
      RequestedStep(cs[1..], c, cs[0].approval.id);
      if c.OnApprovalRequested? {
        WithoutOne(cs[0].approval, c.approval.id);
      }
    }
  }

  lemma {:induction false} LastRequestedStep(cs: seq<Callback>, c: Callback)
    ensures LastRequested(cs + [c]) ==
              if c.OnApprovalRequested? then Without(LastRequested(cs), c.approval.id) + [c.approval] else LastRequested(cs)
  {
    LastRequestedUnfolds(cs + [c]);
    if cs == [] {
      assert cs + [c] == [c] && [c][1..] == [];
    } else {
      var rest := cs[1..];
      assert (cs + [c])[1..] == rest + [c];
      LastRequestedStep(rest, c);
      FirstStep(cs, c);
      LastRequestedUnfolds(cs);
      hide Without, Requested, LastRequested, First;
      if c.OnApprovalRequested? {
        WithoutJoin(First(cs), LastRequested(rest), c.approval.id);
      }
    }
  }

  lemma LastRequestedUnfolds(cs: seq<Callback>)
    requires cs != []
    ensures LastRequested(cs) == First(cs) + LastRequested(cs[1..])
  {
  }

  // The pending approvals are exactly these.
  lemma {:induction false} PendingAreLastRequested(cs: seq<Callback>)
    ensures Fold(BLANK, cs).pendingApprovals == LastRequested(cs)
  {
    if cs != [] {
      hide LastRequested, Without, MergeStep;
      var n := |cs| - 1;
      PendingAreLastRequested(cs[..n]);
      LastRequestedStep(cs[..n], cs[n]);
      assert cs[..n] + [cs[n]] == cs;
    } else {
      assert LastRequested([]) == [];
    }
  }

  // Request i is for approval a, and no later one uses its id.
  predicate LastRequest(cs: seq<Callback>, i: nat, a: Approval) {
    i < |cs| && cs[i] == OnApprovalRequested(a) && !Requested(cs[i + 1..], a.id)
  }

  lemma {:induction false} LastRequestedIff(cs: seq<Callback>, a: Approval)
    ensures a in LastRequested(cs) <==> exists i: nat :: LastRequest(cs, i, a)
  {
    if cs != [] {
      var rest := cs[1..];
      LastRequestedIff(rest, a);
      hide LastRequested, Requested;
      LastRequestedUnfolds(cs);
      if i: nat :| LastRequest(rest, i, a) {
        assert rest[i + 1..] == cs[i + 1 + 1..];
        assert LastRequest(cs, i + 1, a);
      }
      if i: nat :| LastRequest(cs, i, a) {
        if i > 0 {
          assert rest[i - 1 + 1..] == cs[i + 1..];
          assert LastRequest(rest, i - 1, a);
        }
      }
      if cs[0] == OnApprovalRequested(a) && !Requested(rest, a.id) {
        assert LastRequest(cs, 0, a);
      }
    }
  }

  // An approval is pending if and only if some callback requested it and no later one used its id.
  lemma PendingIffRequested(cs: seq<Callback>, a: Approval)
    ensures a in Fold(BLANK, cs).pendingApprovals <==> exists i: nat :: LastRequest(cs, i, a)
  {
    PendingAreLastRequested(cs);
    LastRequestedIff(cs, a);
  }

  // The last callback of one kind decides each of the other parts.
  function LastError(cs: seq<Callback>): Option<string> {
    if cs == [] then None
    else
      match cs[|cs| - 1]
      case OnError(m) => Some(m)
      case OnSnapshot(_) => None
      case _ => LastError(cs[..|cs| - 1])
  }

  function LastConnection(cs: seq<Callback>): Option<Connection> {
    if cs == [] then None
    else if cs[|cs| - 1].OnConnection? then Some(cs[|cs| - 1].connection)
    else LastConnection(cs[..|cs| - 1])
  }

  // The error shown is the last one since the last snapshot, the banner follows the last connection state,
  // and nothing is shown of a run before its first snapshot.
  lemma {:induction false} OtherPartsAreLast(cs: seq<Callback>)
    ensures Fold(BLANK, cs).error == LastError(cs)
    ensures Fold(BLANK, cs).isReconnecting <==> LastConnection(cs) == Some(AtReconnecting)
    ensures Fold(BLANK, cs).run == None <==> forall i :: 0 <= i < |cs| ==> !cs[i].OnSnapshot?
  {
    if cs != [] {
      var n := |cs| - 1;
      OtherPartsAreLast(cs[..n]);
      assert forall i :: 0 <= i < n ==> cs[..n][i] == cs[i];
    }
  }

  // mergeStep as it is written: findIndex, then one slot of a copy.
  method MergeStepInCopy(steps: seq<RunStep>, next: RunStep) returns (out: seq<RunStep>)
    ensures out == MergeStep(steps, next)
  {
    var idx := 0;
    while idx < |steps| && steps[idx].index != next.index
      invariant 0 <= idx <= |steps|
      invariant forall j :: 0 <= j < idx ==> steps[j].index != next.index
    {
      idx := idx + 1;
    }
    if idx == |steps| {
      return steps + [next];
    }
    out := steps;
    out := out[idx := next];
  }
}
