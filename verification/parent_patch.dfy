/**
 What a finished child execution writes into its waiting parent: its output or
 its error goes to the head of the parent's stack, and its use of private
 credentials to the head and to the parent's waiting task. Several children of
 one wait may report, in any order.
 */
module ParentPatch {
  import opened Basics

  datatype Item = Item(json: string, pairedItem: Option<nat>)

  /** Output of a node, by connection type. */
  type Data = map<string, seq<seq<Item>>>

  datatype Task = Task(data: Option<Data>, source: string, used: bool, attempted: bool)

  /** Task lists by node name; a list can hold null placeholders. */
  type RunData = map<string, seq<Option<Task>>>

  datatype Pin = Pins(items: seq<string>) | OnePin(item: string)

  /** `IRun`, as far as it is read here. An empty user id counts as none. */
  datatype Run = Run(
    error: Option<string>, runData: RunData, lastNodeExecuted: Option<string>,
    pinData: map<string, Pin>, manual: bool, executedBy: Option<string>)

  datatype Related = Related(executionId: string, workflowId: string, shouldResume: Option<bool>)

  /** `DynamicCredentialsUsage`; a missing flag is false. */
  datatype Usage = Usage(used: bool, attempted: bool, userId: Option<string>)

  const NO_USAGE := Usage(false, false, None)

  datatype Metadata = Metadata(
    usage: Usage, resumeError: Option<string>, subExecution: Option<Related>, others: map<string, string>)

  /** Missing metadata has no field set. */
  datatype Entry = Entry(nodeName: string, data: Data, metadata: Metadata)

  /** A missing or empty stack are treated alike; `executedBy` is writable only if there is runtime data. */
  datatype Execution = Execution(
    waiting: bool, stack: seq<Entry>, runData: RunData, runtime: Option<Option<string>>)

  /** What one child reports: its run and the link to it. */
  datatype Report = Report(run: Run, child: Option<Related>)

  // ---- reading the child's run ----

  datatype LastData = Nothing | Last(task: Task) | TypeError

  function PinItems(pin: Pin): seq<string> {
    if pin.Pins? then pin.items else [pin.item]
  }

  /** `getLastExecutedNodeData`. Pinned output reads the source of the last task, whether there is one or not. */
  function LastExecutedNodeData(run: Run): LastData {
    if run.lastNodeExecuted.None? || run.lastNodeExecuted.value !in run.runData then Nothing
    else
      var node := run.lastNodeExecuted.value;
      var tasks := run.runData[node];
      var last := if tasks == [] then None else tasks[|tasks| - 1];
      if node in run.pinData && run.manual then
        if last.None? then TypeError
        else
          var pins := PinItems(run.pinData[node]);
          var items := seq(|pins|, i requires 0 <= i < |pins| => Item(pins[i], Some(i)));
          Last(Task(Some(map["main" := [items]]), last.value.source, false, false))
      else if last.None? then Nothing
      else Last(last.value)
  }

  function OutputOf(run: Run): Option<Data> {
    var last := LastExecutedNodeData(run);
    if last.Last? then last.task.data else None
  }

  predicate RunUsed(run: Run) {
    exists node | node in run.runData :: exists i | 0 <= i < |run.runData[node]| ::
      run.runData[node][i].Some? && run.runData[node][i].value.used
  }

  predicate RunAttempted(run: Run) {
    exists node | node in run.runData :: exists i | 0 <= i < |run.runData[node]| ::
      run.runData[node][i].Some? && run.runData[node][i].value.attempted
  }

  /** `summarizeDynamicCredentialsUsage`. */
  function Summary(run: Run): Usage {
    Usage(RunUsed(run), RunAttempted(run), if RunUsed(run) then run.executedBy else None)
  }

  // ---- one patch ----

  predicate Patchable(e: Execution) {
    e.waiting && e.stack != []
  }

  /** The report reaches the parent: the child failed, or its last node has output. */
  predicate Effective(r: Report) {
    !LastExecutedNodeData(r.run).TypeError? && (r.run.error.Some? || OutputOf(r.run).Some?)
  }

  predicate Failed(r: Report) { Effective(r) && r.run.error.Some? }

  predicate Succeeded(r: Report) { Effective(r) && r.run.error.None? }

  function Head(e: Execution): Entry
    requires e.stack != []
  {
    e.stack[0]
  }

  /** The later summary wins where it says something. */
  function Union(earlier: Usage, later: Usage): Usage {
    Usage(
      earlier.used || later.used, earlier.attempted || later.attempted,
      if later.userId.Some? then later.userId else earlier.userId)
  }

  function PatchHead(h: Entry, r: Report): Entry {
    var m := h.metadata.(usage := Union(h.metadata.usage, Summary(r.run)));
    if r.run.error.Some? then
      h.(metadata := m.(resumeError := r.run.error, subExecution := if r.child.Some? then r.child else m.subExecution))
    else if OutputOf(r.run).Some? then h.(metadata := m, data := OutputOf(r.run).value)
    else h.(metadata := m)
  }

  function Stamp(task: Option<Task>, u: Usage): Option<Task> {
    if task.None? then None
    else Some(task.value.(used := task.value.used || u.used, attempted := task.value.attempted || u.attempted))
  }

  /** The waiting task is the last one of the node at the head of the stack. */
  predicate IsWaitingTask(e: Execution, node: string, i: int)
    requires e.stack != []
  {
    node == Head(e).nodeName && node in e.runData && i == |e.runData[node]| - 1
  }

  function PatchRunData(e: Execution, u: Usage): RunData
    requires e.stack != []
  {
    var node := Head(e).nodeName;
    if node !in e.runData || e.runData[node] == [] then e.runData
    else
      var last := |e.runData[node]| - 1;
      e.runData[node := e.runData[node][last := Stamp(e.runData[node][last], u)]]
  }

  function PatchRuntime(runtime: Option<Option<string>>, u: Usage): Option<Option<string>> {
    if u.used && u.userId.Some? && runtime.Some? then Some(u.userId) else runtime
  }

  /** The parent after the report: unchanged unless it waits and the report says something. */
  function Patch(e: Execution, r: Report): Execution {
    if !Patchable(e) || !Effective(r) then e
    else
      var usage := Summary(r.run);
      Execution(true, [PatchHead(Head(e), r)] + e.stack[1..], PatchRunData(e, usage), PatchRuntime(e.runtime, usage))
  }

  function PatchAll(e: Execution, reports: seq<Report>): Execution {
    if reports == [] then e else Patch(PatchAll(e, reports[..|reports| - 1]), reports[|reports| - 1])
  }

  // ---- what no report changes ----

  /** `after` differs from `before` only where a patch may write. */
  ghost predicate OnlyPatched(before: Execution, after: Execution)
    requires before.stack != []
  {
    && after.waiting == before.waiting
    && |after.stack| == |before.stack| && after.stack[1..] == before.stack[1..]
    && Head(after).nodeName == Head(before).nodeName
    && Head(after).metadata.others == Head(before).metadata.others
    && after.runData.Keys == before.runData.Keys
    && after.runtime.Some? == before.runtime.Some?
    && forall node :: node in before.runData ==> TasksOnlyStamped(before, after, node)
  }

  /** Only the waiting task of the list differs, and only by more flags. */
  ghost predicate TasksOnlyStamped(before: Execution, after: Execution, node: string)
    requires before.stack != [] && node in before.runData && node in after.runData
  {
    && |after.runData[node]| == |before.runData[node]|
    && forall i :: 0 <= i < |before.runData[node]| ==>
         if IsWaitingTask(before, node, i) then MoreFlags(before.runData[node][i], after.runData[node][i])
         else after.runData[node][i] == before.runData[node][i]
  }

  /** The same task, with no flag taken back. */
  predicate MoreFlags(before: Option<Task>, after: Option<Task>) {
    if before.None? then after.None?
    else
      && after.Some?
      && after.value == before.value.(used := after.value.used, attempted := after.value.attempted)
      && (before.value.used ==> after.value.used) && (before.value.attempted ==> after.value.attempted)
  }

  lemma PatchOnlyPatches(e: Execution, r: Report)
    requires e.stack != []
    ensures OnlyPatched(e, Patch(e, r))
  {
    forall node | node in e.runData
      ensures TasksOnlyStamped(e, Patch(e, r), node)
    {
    }
  }

  lemma OnlyPatchedComposes(a: Execution, b: Execution, c: Execution)
    requires a.stack != [] && OnlyPatched(a, b) && OnlyPatched(b, c)
    ensures OnlyPatched(a, c)
  {
    forall node | node in a.runData
      ensures TasksOnlyStamped(a, c, node)
    {
      assert TasksOnlyStamped(a, b, node) && TasksOnlyStamped(b, c, node);
    }
  }

  /**
   Over any reports the status, the tail of the stack, the head's node and
   other metadata, and every task but the waiting one stay as they are.
   */
  lemma {:induction false} PatchesKeep(e: Execution, reports: seq<Report>)
    requires e.stack != []
    ensures OnlyPatched(e, PatchAll(e, reports))
    decreases |reports|
  {
    if reports != [] {
      var earlier, last := reports[..|reports| - 1], reports[|reports| - 1];
      PatchesKeep(e, earlier);
      PatchOnlyPatches(PatchAll(e, earlier), last);
      OnlyPatchedComposes(e, PatchAll(e, earlier), PatchAll(e, reports));
    }
  }

  // ---- flags ----

  predicate Used(r: Report) { RunUsed(r.run) }

  predicate ShowsUse(r: Report) { Effective(r) && RunUsed(r.run) }

  predicate ShowsAttempt(r: Report) { Effective(r) && RunAttempted(r.run) }

  ghost predicate SomeIs(reports: seq<Report>, p: Report -> bool) {
    exists i :: 0 <= i < |reports| && p(reports[i])
  }

  ghost predicate NoneIs(reports: seq<Report>, p: Report -> bool) {
    forall j :: 0 <= j < |reports| ==> !p(reports[j])
  }

  lemma SomeOfMore(reports: seq<Report>, p: Report -> bool)
    requires reports != []
    ensures SomeIs(reports, p) <==> SomeIs(reports[..|reports| - 1], p) || p(reports[|reports| - 1])
  {
    var n := |reports| - 1;
    if i :| 0 <= i < n && p(reports[i]) {
      assert p(reports[..n][i]);
    }
  }

  /** The waiting task, if there is one. */
  function WaitingTask(e: Execution): Option<Task>
    requires e.stack != []
  {
    var node := Head(e).nodeName;
    if node !in e.runData || e.runData[node] == [] then None else e.runData[node][|e.runData[node]| - 1]
  }

  lemma PatchFlags(e: Execution, r: Report)
    requires Patchable(e)
    ensures Patchable(Patch(e, r))
    ensures Effective(r) ==> Head(Patch(e, r)).metadata.usage == Union(Head(e).metadata.usage, Summary(r.run))
    ensures Effective(r) ==> WaitingTask(Patch(e, r)) == Stamp(WaitingTask(e), Summary(r.run))
  {
  }

  /** A flag at the head is set exactly if it was, or if some effective report sets it. */
  lemma {:induction false} HeadFlagsExact(e: Execution, reports: seq<Report>)
    requires Patchable(e)
    ensures Patchable(PatchAll(e, reports))
    ensures var before, after := Head(e).metadata.usage, Head(PatchAll(e, reports)).metadata.usage;
      && (after.used <==> before.used || SomeIs(reports, ShowsUse))
      && (after.attempted <==> before.attempted || SomeIs(reports, ShowsAttempt))
    decreases |reports|
  {
    if reports != [] {
      HeadFlagsExact(e, reports[..|reports| - 1]);
      PatchFlags(PatchAll(e, reports[..|reports| - 1]), reports[|reports| - 1]);
      SomeOfMore(reports, ShowsUse);
      SomeOfMore(reports, ShowsAttempt);
    }
  }

  /** The waiting task shows the same flags, so redaction sees them while the parent still waits. */
  lemma {:induction false} TaskFlagsExact(e: Execution, reports: seq<Report>)
    requires Patchable(e)
    ensures Patchable(PatchAll(e, reports))
    ensures var before, after := WaitingTask(e), WaitingTask(PatchAll(e, reports));
      && before.Some? == after.Some?
      && (before.Some? ==>
          && (after.value.used <==> before.value.used || SomeIs(reports, ShowsUse))
          && (after.value.attempted <==> before.value.attempted || SomeIs(reports, ShowsAttempt)))
    decreases |reports|
  {
    if reports != [] {
      TaskFlagsExact(e, reports[..|reports| - 1]);
      PatchFlags(PatchAll(e, reports[..|reports| - 1]), reports[|reports| - 1]);
      SomeOfMore(reports, ShowsUse);
      SomeOfMore(reports, ShowsAttempt);
    }
  }

  /** The flags do not depend on the order in which the children finish. */
  lemma FlagsIgnoreOrder(e: Execution, a: seq<Report>, b: seq<Report>)
    requires Patchable(e) && multiset(a) == multiset(b)
    ensures Patchable(PatchAll(e, a)) && Patchable(PatchAll(e, b))
    ensures var x, y := Head(PatchAll(e, a)).metadata.usage, Head(PatchAll(e, b)).metadata.usage;
      x.used == y.used && x.attempted == y.attempted
  {
    HeadFlagsExact(e, a);
    HeadFlagsExact(e, b);
    SameSome(a, b, ShowsUse);
    SameSome(a, b, ShowsAttempt);
  }

  lemma SameSome(a: seq<Report>, b: seq<Report>, p: Report -> bool)
    requires multiset(a) == multiset(b)
    ensures SomeIs(a, p) <==> SomeIs(b, p)
  {
    if SomeIs(a, p) {
      SomeIgnoresOrder(a, b, p);
    }
    if SomeIs(b, p) {
      SomeIgnoresOrder(b, a, p);
    }
  }

  lemma SomeIgnoresOrder(a: seq<Report>, b: seq<Report>, p: Report -> bool)
    requires multiset(a) == multiset(b) && SomeIs(a, p)
    ensures SomeIs(b, p)
  {
    var i :| 0 <= i < |a| && p(a[i]);
    assert a[i] in multiset(b);
    var j :| 0 <= j < |b| && b[j] == a[i];
  }

  /**
   Every child's use of a private credential shows on the parent if and only if
   it was flagged already, no child used one, or some child that did is
   effective: a child that ends without an error and without output is not.
   */
  lemma EveryUseShowsIff(e: Execution, reports: seq<Report>)
    requires Patchable(e)
    ensures Patchable(PatchAll(e, reports))
    ensures var before, after := Head(e).metadata.usage, Head(PatchAll(e, reports)).metadata.usage;
      (SomeIs(reports, Used) ==> after.used) <==> before.used || SomeIs(reports, ShowsUse) || NoneIs(reports, Used)
  {
    HeadFlagsExact(e, reports);
  }

  /**
   A child that used a private credential leaves no trace if its last node
   returned nothing at all, which the engine does not record in the run data.
   */
  lemma SilentChildLeavesNoFlag(e: Execution, node: string, last: string, task: Task, child: Option<Related>)
    requires Patchable(e) && last != node && task.used
    ensures var run := Run(None, map[node := [Some(task)]], Some(last), map[], false, None);
      RunUsed(run) && Patch(e, Report(run, child)) == e
  {
    var run := Run(None, map[node := [Some(task)]], Some(last), map[], false, None);
    assert node in run.runData && run.runData[node][0].value.used;
  }

  // ---- output and error ----

  /** Report `k` is the last one with the property `p`. */
  ghost predicate IsLast(reports: seq<Report>, k: int, p: Report -> bool) {
    0 <= k < |reports| && p(reports[k]) && forall j :: k < j < |reports| ==> !p(reports[j])
  }

  lemma IsLastOfMore(reports: seq<Report>, k: int, p: Report -> bool)
    requires IsLast(reports, k, p) && k < |reports| - 1
    ensures IsLast(reports[..|reports| - 1], k, p) && !p(reports[|reports| - 1])
  {
  }

  lemma {:induction false} LastIndex(reports: seq<Report>, p: Report -> bool) returns (k: int)
    requires !NoneIs(reports, p)
    ensures IsLast(reports, k, p)
    decreases |reports|
  {
    var n := |reports| - 1;
    if p(reports[n]) {
      k := n;
    } else {
      k := LastIndex(reports[..n], p);
    }
  }

  /** The head's data is the output of the last child that succeeded. */
  lemma {:induction false} DataOfLastSuccess(e: Execution, reports: seq<Report>, k: int)
    requires Patchable(e) && IsLast(reports, k, Succeeded)
    ensures Patchable(PatchAll(e, reports))
    ensures OutputOf(reports[k].run) == Some(Head(PatchAll(e, reports)).data)
    decreases |reports|
  {
    HeadFlagsExact(e, reports[..|reports| - 1]);
    if k < |reports| - 1 {
      IsLastOfMore(reports, k, Succeeded);
      DataOfLastSuccess(e, reports[..|reports| - 1], k);
    }
  }

  lemma {:induction false} DataWithoutSuccess(e: Execution, reports: seq<Report>)
    requires Patchable(e) && NoneIs(reports, Succeeded)
    ensures Patchable(PatchAll(e, reports))
    ensures Head(PatchAll(e, reports)).data == Head(e).data
    decreases |reports|
  {
    if reports != [] {
      DataWithoutSuccess(e, reports[..|reports| - 1]);
    }
  }

  /** The error is that of the last child that failed, whatever other children did before or after. */
  lemma {:induction false} ErrorOfLastFailure(e: Execution, reports: seq<Report>, k: int)
    requires Patchable(e) && IsLast(reports, k, Failed)
    ensures Patchable(PatchAll(e, reports))
    ensures reports[k].run.error.Some? && Head(PatchAll(e, reports)).metadata.resumeError == reports[k].run.error
    decreases |reports|
  {
    HeadFlagsExact(e, reports[..|reports| - 1]);
    if k < |reports| - 1 {
      IsLastOfMore(reports, k, Failed);
      ErrorOfLastFailure(e, reports[..|reports| - 1], k);
    }
  }

  lemma {:induction false} ErrorWithoutFailure(e: Execution, reports: seq<Report>)
    requires Patchable(e) && NoneIs(reports, Failed)
    ensures Patchable(PatchAll(e, reports))
    ensures Head(PatchAll(e, reports)).metadata.resumeError == Head(e).metadata.resumeError
    ensures Head(PatchAll(e, reports)).metadata.subExecution == Head(e).metadata.subExecution
    decreases |reports|
  {
    if reports != [] {
      ErrorWithoutFailure(e, reports[..|reports| - 1]);
    }
  }

  predicate FailedWithLink(r: Report) { Failed(r) && r.child.Some? }

  lemma {:induction false} LinkOfLastFailure(e: Execution, reports: seq<Report>, k: int)
    requires Patchable(e) && IsLast(reports, k, FailedWithLink)
    ensures Patchable(PatchAll(e, reports))
    ensures Head(PatchAll(e, reports)).metadata.subExecution == reports[k].child
    decreases |reports|
  {
    HeadFlagsExact(e, reports[..|reports| - 1]);
    if k < |reports| - 1 {
      IsLastOfMore(reports, k, FailedWithLink);
      LinkOfLastFailure(e, reports[..|reports| - 1], k);
    }
  }

  /**
   The recorded link is that of the child whose error is recorded, exactly if
   that child has a link or none was recorded by the parent or an earlier child.
   */
  lemma ErrorAndLinkAgreeIff(e: Execution, reports: seq<Report>, k: int)
    requires Patchable(e) && IsLast(reports, k, Failed)
    ensures Patchable(PatchAll(e, reports))
    ensures Head(PatchAll(e, reports)).metadata.subExecution == reports[k].child <==>
      reports[k].child.Some? || (Head(e).metadata.subExecution.None? && NoneIs(reports, FailedWithLink))
  {
    HeadFlagsExact(e, reports);
    if NoneIs(reports, FailedWithLink) {
      LinkWithoutLinkedFailure(e, reports);
    } else {
      var l := LastIndex(reports, FailedWithLink);
      LinkOfLastFailure(e, reports, l);
    }
  }

  lemma {:induction false} LinkWithoutLinkedFailure(e: Execution, reports: seq<Report>)
    requires Patchable(e) && NoneIs(reports, FailedWithLink)
    ensures Patchable(PatchAll(e, reports))
    ensures Head(PatchAll(e, reports)).metadata.subExecution == Head(e).metadata.subExecution
    decreases |reports|
  {
    if reports != [] {
      LinkWithoutLinkedFailure(e, reports[..|reports| - 1]);
    }
  }

  /** Every caller passes the child's link along: then error and link are always of one child, the last that failed. */
  lemma ErrorAndLinkAreOfOneChild(e: Execution, reports: seq<Report>, k: int)
    requires Patchable(e) && IsLast(reports, k, Failed)
    requires forall j :: 0 <= j < |reports| ==> reports[j].child.Some?
    ensures Patchable(PatchAll(e, reports))
    ensures var m := Head(PatchAll(e, reports)).metadata;
      m.resumeError == reports[k].run.error && m.subExecution == reports[k].child
  {
    ErrorOfLastFailure(e, reports, k);
    ErrorAndLinkAgreeIff(e, reports, k);
  }

  /** A patch that leaves the waiting task as it is leaves all tasks as they are. */
  lemma SameTaskSameRunData(e: Execution, u: Usage)
    requires e.stack != []
    requires WaitingTask(e).Some? ==> Stamp(WaitingTask(e), u) == WaitingTask(e)
    ensures PatchRunData(e, u) == e.runData
  {
    var node := Head(e).nodeName;
    if node in e.runData && e.runData[node] != [] {
      var tasks := e.runData[node];
      assert tasks[|tasks| - 1 := Stamp(tasks[|tasks| - 1], u)] == tasks;
    }
  }

  predicate NamesUser(r: Report) { Effective(r) && RunUsed(r.run) && r.run.executedBy.Some? }

  /** The resolved user on the head, and on the runtime data if there is any, is that of the last child naming one. */
  lemma {:induction false} UserOfLastNamed(e: Execution, reports: seq<Report>, k: int)
    requires Patchable(e) && IsLast(reports, k, NamesUser)
    ensures Patchable(PatchAll(e, reports))
    ensures Head(PatchAll(e, reports)).metadata.usage.userId == reports[k].run.executedBy
    ensures PatchAll(e, reports).runtime == if e.runtime.Some? then Some(reports[k].run.executedBy) else None
    decreases |reports|
  {
    HeadFlagsExact(e, reports[..|reports| - 1]);
    if k < |reports| - 1 {
      IsLastOfMore(reports, k, NamesUser);
      UserOfLastNamed(e, reports[..|reports| - 1], k);
    } else {
      PatchesKeep(e, reports[..k]);
    }
  }

  /** The recorded error is never cleared: there is one exactly if there was one or some child failed. */
  lemma ErrorIsNeverCleared(e: Execution, reports: seq<Report>)
    requires Patchable(e)
    ensures Patchable(PatchAll(e, reports))
    ensures Head(PatchAll(e, reports)).metadata.resumeError.Some? <==>
      Head(e).metadata.resumeError.Some? || exists k :: 0 <= k < |reports| && Failed(reports[k])
  {
    if NoneIs(reports, Failed) {
      ErrorWithoutFailure(e, reports);
    } else {
      var k := LastIndex(reports, Failed);
      ErrorOfLastFailure(e, reports, k);
    }
  }

  // ---- siblings that overlap ----

  /** A report first reads the parent and later writes back what it has read, patched. */
  datatype SiblingStep = Reads(child: nat) | Writes(child: nat)

  /** The stored parent, what each child has read, and, for both, which reports it shows. */
  datatype Race = Race(
    stored: Execution, shown: seq<nat>, read: map<nat, Execution>, readShown: map<nat, seq<nat>>)

  function StartRace(e: Execution): Race {
    Race(e, [], map[], map[])
  }

  /** A child writes only if it has read, and only if its report changes what it read. */
  function NextRace(r: Race, reports: seq<Report>, step: SiblingStep): Race {
    match step
    case Reads(c) => r.(read := r.read[c := r.stored], readShown := r.readShown[c := r.shown])
    case Writes(c) =>
      if c !in r.read || c !in r.readShown || c >= |reports| || !Patchable(r.read[c]) || !Effective(reports[c]) then r
      else r.(stored := Patch(r.read[c], reports[c]), shown := r.readShown[c] + [c])
  }

  function RunRace(e: Execution, reports: seq<Report>, steps: seq<SiblingStep>): Race {
    if steps == [] then StartRace(e)
    else NextRace(RunRace(e, reports, steps[..|steps| - 1]), reports, steps[|steps| - 1])
  }

  predicate InRange(cs: seq<nat>, reports: seq<Report>) {
    forall i :: 0 <= i < |cs| ==> cs[i] < |reports|
  }

  /** The reports of the named children, in that order. */
  function Named(reports: seq<Report>, cs: seq<nat>): seq<Report>
    requires InRange(cs, reports)
  {
    if cs == [] then [] else Named(reports, cs[..|cs| - 1]) + [reports[cs[|cs| - 1]]]
  }

  lemma {:induction false} NamedAt(reports: seq<Report>, cs: seq<nat>)
    requires InRange(cs, reports)
    ensures |Named(reports, cs)| == |cs| && forall i :: 0 <= i < |cs| ==> Named(reports, cs)[i] == reports[cs[i]]
    decreases |cs|
  {
    if cs != [] {
      NamedAt(reports, cs[..|cs| - 1]);
    }
  }

  ghost predicate Explained(e: Execution, reports: seq<Report>, shown: seq<nat>, actual: Execution) {
    InRange(shown, reports) && actual == PatchAll(e, Named(reports, shown))
  }

  ghost predicate RaceExplained(e: Execution, reports: seq<Report>, r: Race) {
    && Explained(e, reports, r.shown, r.stored)
    && r.readShown.Keys == r.read.Keys
    && forall c :: c in r.read ==> Explained(e, reports, r.readShown[c], r.read[c])
  }

  lemma PatchedIsExplained(e: Execution, reports: seq<Report>, shown: seq<nat>, actual: Execution, c: nat)
    requires Explained(e, reports, shown, actual) && c < |reports|
    ensures Explained(e, reports, shown + [c], Patch(actual, reports[c]))
  {
    var cs := shown + [c];
    assert cs[..|cs| - 1] == shown;
    var named := Named(reports, cs);
    assert named[..|named| - 1] == Named(reports, shown);
  }

  /** However reads and writes interleave, the parent is what the reports on the trail of its last write make of it. */
  lemma {:induction false} RaceIsExplained(e: Execution, reports: seq<Report>, steps: seq<SiblingStep>)
    ensures RaceExplained(e, reports, RunRace(e, reports, steps))
    decreases |steps|
  {
    if steps != [] {
      var r, last := RunRace(e, reports, steps[..|steps| - 1]), steps[|steps| - 1];
      RaceIsExplained(e, reports, steps[..|steps| - 1]);
      if last.Writes? && last.child in r.read && last.child < |reports| {
        PatchedIsExplained(e, reports, r.readShown[last.child], r.read[last.child], last.child);
      }
    }
  }

  // ---- the trail, read off the schedule ----

  /** The last of the first `n` steps in which child `c` reads. */
  function LastRead(steps: seq<SiblingStep>, n: nat, c: nat): Option<nat>
    requires n <= |steps|
  {
    if n == 0 then None
    else if steps[n - 1] == Reads(c) then Some(n - 1)
    else LastRead(steps, n - 1, c)
  }

  lemma {:induction false} LastReadIsBefore(steps: seq<SiblingStep>, n: nat, c: nat)
    requires n <= |steps| && LastRead(steps, n, c).Some?
    ensures LastRead(steps, n, c).value < n
  {
    if steps[n - 1] != Reads(c) {
      LastReadIsBefore(steps, n - 1, c);
    }
  }

  /** Step `k` writes: its child has read, and its report is effective. */
  predicate EffectiveWrite(reports: seq<Report>, steps: seq<SiblingStep>, k: nat)
    requires k < |steps|
  {
    && steps[k].Writes? && steps[k].child < |reports| && Effective(reports[steps[k].child])
    && LastRead(steps, k, steps[k].child).Some?
  }

  /**
   The children behind the parent after the first `n` steps: that of the last
   effective write, and, before it, those behind the parent that it had read.
   */
  function Trail(reports: seq<Report>, steps: seq<SiblingStep>, n: nat): seq<nat>
    requires n <= |steps|
  {
    if n == 0 then []
    else if EffectiveWrite(reports, steps, n - 1) then
      var c := steps[n - 1].child;
      LastReadIsBefore(steps, n - 1, c);
      Trail(reports, steps, LastRead(steps, n - 1, c).value) + [c]
    else Trail(reports, steps, n - 1)
  }

  /** The race after `n` steps shows what the schedule says, and every child has read what it says. */
  ghost predicate FollowsSchedule(e: Execution, reports: seq<Report>, steps: seq<SiblingStep>, n: nat)
    requires n <= |steps|
  {
    var r := RunRace(e, reports, steps[..n]);
    && Patchable(r.stored) && r.shown == Trail(reports, steps, n) && r.readShown.Keys == r.read.Keys
    && ReadsFollow(r, reports, steps, n)
  }

  ghost predicate ReadsFollow(r: Race, reports: seq<Report>, steps: seq<SiblingStep>, n: nat)
    requires n <= |steps|
  {
    forall c: nat :: ReadFollows(r, reports, steps, n, c)
  }

  ghost predicate ReadFollows(r: Race, reports: seq<Report>, steps: seq<SiblingStep>, n: nat, c: nat)
    requires n <= |steps|
  {
    && (c in r.read <==> LastRead(steps, n, c).Some?)
    && (c in r.read && c in r.readShown ==>
          && Patchable(r.read[c])
          && LastRead(steps, n, c).value < n
          && r.readShown[c] == Trail(reports, steps, LastRead(steps, n, c).value))
  }

  lemma NextFollows(
      r: Race, r': Race, reports: seq<Report>, steps: seq<SiblingStep>, n: nat)
    requires n < |steps| && r' == NextRace(r, reports, steps[n])
    requires Patchable(r.stored) && r.shown == Trail(reports, steps, n) && r.readShown.Keys == r.read.Keys
    requires ReadsFollow(r, reports, steps, n)
    ensures Patchable(r'.stored) && r'.shown == Trail(reports, steps, n + 1) && r'.readShown.Keys == r'.read.Keys
    ensures ReadsFollow(r', reports, steps, n + 1)
  {
    assert ReadFollows(r, reports, steps, n, steps[n].child);
    var m := n + 1;
    forall c: nat
      ensures ReadFollows(r', reports, steps, m, c)
    {
      assert ReadFollows(r, reports, steps, n, c);
    }
    if steps[n].Writes? && EffectiveWrite(reports, steps, n) {
      PatchFlags(r.read[steps[n].child], reports[steps[n].child]);
    }
  }

  lemma {:induction false} RaceFollowsSchedule(e: Execution, reports: seq<Report>, steps: seq<SiblingStep>, n: nat)
    requires Patchable(e) && n <= |steps|
    ensures FollowsSchedule(e, reports, steps, n)
  {
    if n == 0 {
      assert RunRace(e, reports, steps[..0]) == StartRace(e);
    } else {
      RaceFollowsSchedule(e, reports, steps, n - 1);
      assert steps[..n][..n - 1] == steps[..n - 1];
      NextFollows(RunRace(e, reports, steps[..n - 1]), RunRace(e, reports, steps[..n]), reports, steps, n - 1);
    }
  }

  /** Child `c` shows a use of a private credential. */
  predicate ChildShowsUse(reports: seq<Report>, c: nat) {
    c < |reports| && ShowsUse(reports[c])
  }

  lemma NamedShowsIff(reports: seq<Report>, cs: seq<nat>)
    requires InRange(cs, reports)
    ensures SomeIs(Named(reports, cs), ShowsUse) <==> exists i :: 0 <= i < |cs| && ChildShowsUse(reports, cs[i])
  {
    NamedAt(reports, cs);
    if i :| 0 <= i < |cs| && ChildShowsUse(reports, cs[i]) {
      assert ShowsUse(Named(reports, cs)[i]);
    }
    if SomeIs(Named(reports, cs), ShowsUse) {
      var i :| 0 <= i < |Named(reports, cs)| && ShowsUse(Named(reports, cs)[i]);
      assert ChildShowsUse(reports, cs[i]);
    }
  }

  /**
   Exactly when the flag is set after any interleaving: some child on the trail
   that the schedule leaves behind shows a use. The flag of a child that the
   trail misses is lost, although flags are meant to accumulate only.
   */
  lemma FlagSurvivesIff(e: Execution, reports: seq<Report>, steps: seq<SiblingStep>)
    requires Patchable(e)
    ensures var stored, trail := RunRace(e, reports, steps).stored, Trail(reports, steps, |steps|);
      && Patchable(stored)
      && (Head(stored).metadata.usage.used <==>
            Head(e).metadata.usage.used || exists i :: 0 <= i < |trail| && ChildShowsUse(reports, trail[i]))
  {
    assert steps[..|steps|] == steps;
    RaceFollowsSchedule(e, reports, steps, |steps|);
    RaceIsExplained(e, reports, steps);
    var trail := Trail(reports, steps, |steps|);
    HeadFlagsExact(e, Named(reports, trail));
    NamedShowsIff(reports, trail);
  }

  /** The flag of the only child that shows a use is lost exactly if the trail misses that child. */
  lemma FlagIsLostIff(e: Execution, reports: seq<Report>, steps: seq<SiblingStep>, c: nat)
    requires Patchable(e) && !Head(e).metadata.usage.used
    requires ChildShowsUse(reports, c) && forall d: nat :: ChildShowsUse(reports, d) ==> d == c
    ensures var stored := RunRace(e, reports, steps).stored;
      Patchable(stored) && (!Head(stored).metadata.usage.used <==> c !in Trail(reports, steps, |steps|))
  {
    FlagSurvivesIff(e, reports, steps);
  }

  lemma RaceStep(e: Execution, reports: seq<Report>, steps: seq<SiblingStep>, step: SiblingStep)
    ensures RunRace(e, reports, steps + [step]) == NextRace(RunRace(e, reports, steps), reports, step)
  {
    assert (steps + [step])[..|steps|] == steps;
  }

  /** Two siblings that both read before either writes: the first one's flag is erased by the second. */
  lemma OverlappingSiblingErasesFlag(e: Execution, used: Report, plain: Report)
    requires Patchable(e) && !Head(e).metadata.usage.used && ShowsUse(used) && Effective(plain) && !RunUsed(plain.run)
    ensures var r := RunRace(e, [used, plain], [Reads(0), Reads(1), Writes(0), Writes(1)]);
      r.stored == Patch(e, plain) && Patchable(r.stored) && !Head(r.stored).metadata.usage.used
  {
    var reports := [used, plain];
    var none: seq<SiblingStep> := [];
    RaceStep(e, reports, none, Reads(0));
    RaceStep(e, reports, none + [Reads(0)], Reads(1));
    RaceStep(e, reports, none + [Reads(0)] + [Reads(1)], Writes(0));
    RaceStep(e, reports, none + [Reads(0)] + [Reads(1)] + [Writes(0)], Writes(1));
    assert none + [Reads(0)] + [Reads(1)] + [Writes(0)] + [Writes(1)] == [Reads(0), Reads(1), Writes(0), Writes(1)];
    PatchFlags(e, plain);
  }

  function InTurn(n: nat): seq<SiblingStep> {
    if n == 0 then [] else InTurn(n - 1) + [Reads(n - 1)] + [Writes(n - 1)]
  }

  lemma ReadThenWrite(r: Race, reports: seq<Report>, c: nat)
    requires c < |reports|
    ensures NextRace(NextRace(r, reports, Reads(c)), reports, Writes(c)).stored == Patch(r.stored, reports[c])
  {
  }

  /** Reports that do not overlap lose nothing: reading and writing in turn is applying all of them. */
  lemma {:induction false} InTurnIsAtomic(e: Execution, reports: seq<Report>, n: nat)
    requires n <= |reports|
    ensures RunRace(e, reports, InTurn(n)).stored == PatchAll(e, reports[..n])
  {
    if n > 0 {
      InTurnIsAtomic(e, reports, n - 1);
      RaceStep(e, reports, InTurn(n - 1), Reads(n - 1));
      RaceStep(e, reports, InTurn(n - 1) + [Reads(n - 1)], Writes(n - 1));
      ReadThenWrite(RunRace(e, reports, InTurn(n - 1)), reports, n - 1);
      assert reports[..n][..n - 1] == reports[..n - 1];
    }
  }

  // ---- reports to several parents ----

  datatype Delivery = Delivery(parentId: string, report: Report)

  type Store = map<string, Execution>

  function Delivered(store: Store, d: Delivery): Store {
    if d.parentId in store then store[d.parentId := Patch(store[d.parentId], d.report)] else store
  }

  function DeliveredAll(store: Store, ds: seq<Delivery>): Store {
    if ds == [] then store else Delivered(DeliveredAll(store, ds[..|ds| - 1]), ds[|ds| - 1])
  }

  function ReportsTo(ds: seq<Delivery>, id: string): seq<Report> {
    if ds == [] then []
    else
      var earlier, last := ReportsTo(ds[..|ds| - 1], id), ds[|ds| - 1];
      if last.parentId == id then earlier + [last.report] else earlier
  }

  /** Reports to different parents do not interfere, in whatever order they interleave. */
  lemma {:induction false} DeliveriesAreIndependent(store: Store, ds: seq<Delivery>, id: string)
    ensures DeliveredAll(store, ds).Keys == store.Keys
    ensures id in store ==> DeliveredAll(store, ds)[id] == PatchAll(store[id], ReportsTo(ds, id))
    decreases |ds|
  {
    if ds != [] {
      var n := |ds| - 1;
      DeliveriesAreIndependent(store, ds[..n], id);
      var earlier := ReportsTo(ds[..n], id);
      assert (earlier + [ds[n].report])[..|earlier|] == earlier;
    }
  }

  // ---- shouldRestartParentExecution ----

  /** A parent link without the flag means restart; no link at all means none. */
  function ShouldRestart(parent: Option<Related>): (r: bool)
    ensures r <==> parent.Some? && parent.value.shouldResume != Some(false)
  {
    if parent.None? then false
    else if parent.value.shouldResume.None? then true
    else parent.value.shouldResume.value
  }
}
