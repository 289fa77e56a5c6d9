/** The classifier of failed tool calls: which failure was recovered by a later call, and
    which of the rest count against the run. */
module ToolErrors {
  import opened Options
  import opened Whitespace

  const BLOCKING_STATUSES: set<string> := {
    "artifact_output_error", "artifact_output_undeclared", "blocked", "cwd_blocked", "data_blocked",
    "edit_ops_blocked", "edit_text_blocked", "elevation_blocked", "error", "git_via_shell_blocked",
    "heal_mode_blocked", "integration_blocked", "light_mode_blocked", "non_zero_exit", "protected_blocked",
    "resource_constraint_blocked", "resource_policy_blocked", "run_script_blocked", "safety_violation",
    "shell_error", "skill_payload_blocked", "skill_state_blocked", "timeout", "unavailable",
    "user_files_path_blocked", "violation", "workspace_blocked", "write_file_blocked",
    "root_required_user_files", "root_required_active_workspace", "argument_error", "executor_error",
    "extension_error", "git_error", "mcp_error", "review_blocked", "run_script_error",
    "tool_reported_failure", "unknown_tool", "resource_blocked", "root_required", "safety_error"
  }

  const POLICY_DENIAL_STATUSES: set<string> := {
    "artifact_output_undeclared", "blocked", "cwd_blocked", "data_blocked", "edit_ops_blocked",
    "edit_text_blocked", "elevation_blocked", "git_via_shell_blocked", "heal_mode_blocked",
    "integration_blocked", "light_mode_blocked", "protected_blocked", "resource_constraint_blocked",
    "resource_policy_blocked", "run_script_blocked", "resource_blocked", "review_blocked",
    "skill_payload_blocked", "skill_state_blocked", "tool_reported_failure", "unavailable",
    "user_files_path_blocked", "workspace_blocked", "write_file_blocked"
  }

  const RECOVERY_TOOLS: set<string> := {
    "edit_text", "apply_patch", "edit_batch", "run_command", "run_script", "start_service", "stop_service",
    "write_file"
  }

  const ROOT_WRITE_TOOLS: set<string> := {"write_file", "edit_text", "apply_patch", "edit_batch"}
  const OK_STATUSES: set<string> := {"", "ok", "ok_autocorrected", "untyped"}
  const RECOVERABLE_STATUSES: set<string> := {"non_zero_exit", "shell_error"}
  const COSMETIC_TOOLS: set<string> := {"run_command", "run_script"}
  const READ_ONLY_TOOLS: set<string> := {
    "inspect_harness", "inspect_subagent", "read_file", "list_files", "search_code", "query_code", "query_data",
    "recent_tasks", "web_search", "chat_history", "vcs_read", "service_status", "service_logs", "get_task_result",
    "list_projects", "memory_read", "search_ui_translations"
  }
  const READONLY_BLOCK_STATUSES: set<string> := {"resource_policy_blocked", "resource_constraint_blocked"}

  /** A path as given, and its file name in lower case. */
  datatype Path = Path(text: string, name: string)

  /** The arguments that name a call's target, and the file list of a write. */
  datatype Args = Args(
    root: Option<string>,
    path: Option<Path>,
    cwd: Option<string>,
    cmd: Option<string>,
    script: Option<string>,
    name: Option<string>,
    outputs: Option<seq<string>>,
    files: seq<Path>)

  /** An empty tool or status is an absent one. `signalDeath` holds when the record names a
      signal or its exit code is below zero. */
  datatype Call = Call(
    isError: bool,
    tool: string,
    status: string,
    args: Args,
    artifactRegistered: bool,
    signalDeath: bool)

  datatype Record = Record(tool: string, status: string, recoveredBy: Option<nat>)

  datatype Bucket = Skipped | Ignored | Unresolved | Recovered(position: Option<nat>) | Cosmetic | PolicyDenied

  datatype Report = Report(
    unresolved: seq<Record>,
    recovered: seq<Record>,
    cosmetic: seq<Record>,
    ignored: seq<Record>,
    policyDenials: seq<Record>)

  function Or(value: string, default: string): string {
    if value == "" then default else value
  }

  function ToolOf(call: Call): string { Or(call.tool, "unknown") }

  function StatusOf(call: Call): string { Or(call.status, "error") }

  predicate Blank(text: string) {
    forall c :: c in text ==> IsSpace(c)
  }

  /** The named target files of a call. */
  function TargetPaths(args: Args): set<string> {
    (if args.path.Some? && args.path.value.text != "" then {args.path.value.text} else {}) +
    (if args.cwd.Some? && args.cwd.value != "" then {args.cwd.value} else {}) +
    (if args.outputs.Some? then set part | part in args.outputs.value && !Blank(part) else {})
  }

  /** The arguments that tell one target from another. */
  function TargetKey(args: Args): Args {
    args.(files := [])
  }

  function BaseNames(args: Args): set<string> {
    (if args.path.Some? && !Blank(args.path.value.text) then {args.path.value.name} else {}) +
    (set file | file in args.files && !Blank(file.text) :: file.name)
  }

  predicate Succeeded(call: Call) {
    !call.isError && Or(call.status, "ok") in OK_STATUSES
  }

  /** Whether a later call makes up for a failed one. */
  predicate Qualifies(failed: Call, later: Call) {
    var paths := TargetPaths(failed.args);
    var samePath := paths * TargetPaths(later.args) != {};
    && Succeeded(later)
    && if StatusOf(failed) in {"artifact_output_error", "artifact_output_undeclared"} then
         later.artifactRegistered && (samePath || paths == {})
       else
         (later.tool == ToolOf(failed) && TargetKey(later.args) == TargetKey(failed.args)) ||
         (later.artifactRegistered && samePath)
  }

  predicate RootRequired(call: Call) {
    StatusOf(call) in {"root_required_user_files", "root_required_active_workspace"}
  }

  /** Whether a later call writes through the root that `failed` was redirected to. */
  predicate WritesWhereAsked(failed: Call, later: Call) {
    var root := later.args.root.GetOr("");
    && Succeeded(later) && later.tool in ROOT_WRITE_TOOLS
    && if StatusOf(failed) == "root_required_user_files" then root == "user_files"
       else root == "active_workspace" || root == ""
  }

  predicate Counted(call: Call) {
    && call.isError && StatusOf(call) != "cognitive_tool_required"
    && (IgnoredBlock(call) || StatusOf(call) in BLOCKING_STATUSES || ToolOf(call) in RECOVERY_TOOLS)
  }

  predicate IgnoredBlock(call: Call) {
    StatusOf(call) in READONLY_BLOCK_STATUSES && ToolOf(call) in READ_ONLY_TOOLS
  }

  /** Where a failure goes that nothing made up for. */
  function Residual(call: Call): Bucket {
    if RootRequired(call) then Unresolved
    else if StatusOf(call) in RECOVERABLE_STATUSES && ToolOf(call) in COSMETIC_TOOLS && !call.signalDeath then Cosmetic
    else if StatusOf(call) in POLICY_DENIAL_STATUSES then PolicyDenied
    else Unresolved
  }

  // ---- who makes up for whom ----

  predicate ArtifactFailure(call: Call) {
    StatusOf(call) in {"artifact_output_error", "artifact_output_undeclared"}
  }

  predicate SameTarget(one: Args, other: Args) {
    && one.root == other.root && one.path == other.path && one.cwd == other.cwd && one.cmd == other.cmd
    && one.script == other.script && one.name == other.name && one.outputs == other.outputs
  }

  predicate SharesPath(one: Args, other: Args) {
    exists path :: path in TargetPaths(one) && path in TargetPaths(other)
  }

  /** A call that failed, or answered with no ok status, makes up for nothing. */
  lemma FailedRetryRecoversNothing(failed: Call, later: Call)
    requires later.isError || (later.status != "" && later.status !in {"ok", "ok_autocorrected", "untyped"})
    ensures !Qualifies(failed, later) && !WritesWhereAsked(failed, later)
  {
  }

  /** Without a registered artifact only the same tool on the very same target makes up for a
      failure, and never for one of an artifact: the same tool on another target does not. */
  lemma SameTargetRecovers(failed: Call, later: Call)
    requires !later.isError && later.status in {"", "ok", "ok_autocorrected", "untyped"} && !later.artifactRegistered
    ensures Qualifies(failed, later) <==>
      !ArtifactFailure(failed) && later.tool == Or(failed.tool, "unknown") && SameTarget(failed.args, later.args)
  {
    assert TargetKey(later.args) == TargetKey(failed.args) <==> SameTarget(failed.args, later.args);
  }

  /** A registered artifact makes up for what shares a path with it, whatever the tool, and for an
      artifact failure that named no path; for other failures the same target still does. */
  lemma ArtifactRecovers(failed: Call, later: Call)
    requires !later.isError && later.status in {"", "ok", "ok_autocorrected", "untyped"} && later.artifactRegistered
    ensures Qualifies(failed, later) <==>
      || SharesPath(failed.args, later.args)
      || (if ArtifactFailure(failed) then TargetPaths(failed.args) == {}
          else later.tool == Or(failed.tool, "unknown") && SameTarget(failed.args, later.args))
  {
    assert TargetKey(later.args) == TargetKey(failed.args) <==> SameTarget(failed.args, later.args);
    var shared := TargetPaths(failed.args) * TargetPaths(later.args);
    if SharesPath(failed.args, later.args) {
      var path :| path in TargetPaths(failed.args) && path in TargetPaths(later.args);
      assert path in shared;
    }
    if shared != {} {
      var path :| path in shared;
    }
  }

  /** The paths of a target: its path and its directory when given, and every output that is not
      blank. */
  lemma PathsOfTarget(args: Args, path: string)
    ensures path in TargetPaths(args) <==>
      || (args.path.Some? && args.path.value.text == path && path != "")
      || (args.cwd == Some(path) && path != "")
      || (args.outputs.Some? && path in args.outputs.value && !Blank(path))
  {
  }

  /** The names a write declares: that of its path and those of its files, each unless blank. */
  lemma NamesOfWrite(args: Args, name: string)
    ensures name in BaseNames(args) <==>
      || (args.path.Some? && !Blank(args.path.value.text) && args.path.value.name == name)
      || (exists file :: file in args.files && !Blank(file.text) && file.name == name)
  {
  }

  /** A redirected write is made up for by a write tool through the demanded root alone; the
      workspace is also the root of a write that names none. */
  lemma WritesThroughTheRoot(failed: Call, later: Call)
    requires RootRequired(failed) && !later.isError && later.status in {"", "ok", "ok_autocorrected", "untyped"}
    ensures WritesWhereAsked(failed, later) <==>
      && later.tool in {"write_file", "edit_text", "apply_patch", "edit_batch"}
      && (if StatusOf(failed) == "root_required_user_files" then later.args.root == Some("user_files")
          else later.args.root in {None, Some(""), Some("active_workspace")})
  {
  }

  /** What is left over: a redirect is unresolved; a shell exit of a command or script is cosmetic
      unless a signal killed it; a denial is a denial; everything else is unresolved. */
  lemma ResidualsOf(call: Call)
    ensures Residual(call) ==
      if !RootRequired(call) && StatusOf(call) in {"non_zero_exit", "shell_error"} &&
         ToolOf(call) in {"run_command", "run_script"} && !call.signalDeath then Cosmetic
      else if StatusOf(call) in POLICY_DENIAL_STATUSES then PolicyDenied
      else Unresolved
  {
  }

  /** Advisory redirects are never counted; a resource block on a read-only tool is ignored; of the
      rest a blocking status counts, and any status of a tool that changes things. */
  lemma CountedCallsAre(call: Call)
    ensures Counted(call) <==>
      && call.isError && StatusOf(call) != "cognitive_tool_required"
      && (IgnoredBlock(call) || StatusOf(call) in BLOCKING_STATUSES || ToolOf(call) in RECOVERY_TOOLS)
    ensures IgnoredBlock(call) <==>
      StatusOf(call) in {"resource_policy_blocked", "resource_constraint_blocked"} && ToolOf(call) in READ_ONLY_TOOLS
  {
  }

  // ---- what a bucket means ----

  ghost predicate AnyQualifies(calls: seq<Call>, i: nat)
    requires i < |calls|
  {
    exists k :: i < k < |calls| && Qualifies(calls[i], calls[k])
  }

  ghost predicate FirstQualifies(calls: seq<Call>, i: nat, k: nat)
    requires i < |calls|
  {
    i < k < |calls| && Qualifies(calls[i], calls[k]) && forall j :: i < j < k ==> !Qualifies(calls[i], calls[j])
  }

  /** Every blocked name is written later, through the demanded root. */
  ghost predicate AllWrittenLater(calls: seq<Call>, i: nat)
    requires i < |calls|
  {
    && BaseNames(calls[i].args) != {}
    && forall n :: n in BaseNames(calls[i].args) ==>
         exists k :: i < k < |calls| && WritesWhereAsked(calls[i], calls[k]) && n in BaseNames(calls[k].args)
  }

  /** The one bucket of call `i`; `position` is the 1-based position of the first call that made up for it. */
  ghost predicate Lands(calls: seq<Call>, i: nat, bucket: Bucket)
    requires i < |calls|
  {
    var call := calls[i];
    if !Counted(call) then bucket.Skipped?
    else if IgnoredBlock(call) then bucket.Ignored?
    else if RootRequired(call) then
      if AllWrittenLater(calls, i) then bucket == Recovered(None) else bucket.Unresolved?
    else if AnyQualifies(calls, i) then
      bucket.Recovered? && bucket.position.Some? && bucket.position.value > 0 &&
        FirstQualifies(calls, i, bucket.position.value - 1)
    else bucket == Residual(call)
  }

  // ---- the report ----

  function RecordOf(call: Call, bucket: Bucket): Record {
    Record(ToolOf(call), StatusOf(call), if bucket.Recovered? then bucket.position else None)
  }

  function Added(report: Report, call: Call, bucket: Bucket): Report {
    var one := [RecordOf(call, bucket)];
    match bucket
    case Skipped => report
    case Ignored => report.(ignored := report.ignored + one)
    case Unresolved => report.(unresolved := report.unresolved + one)
    case Recovered(_) => report.(recovered := report.recovered + one)
    case Cosmetic => report.(cosmetic := report.cosmetic + one)
    case PolicyDenied => report.(policyDenials := report.policyDenials + one)
  }

  /** The calls filed in trace order, each under its own bucket. */
  function Filed(calls: seq<Call>, buckets: seq<Bucket>): Report
    requires |calls| == |buckets|
  {
    if calls == [] then Report([], [], [], [], [])
    else Added(Filed(calls[..|calls| - 1], buckets[..|buckets| - 1]), calls[|calls| - 1], buckets[|buckets| - 1])
  }

  ghost predicate AllLand(calls: seq<Call>, buckets: seq<Bucket>) {
    |calls| == |buckets| && forall i :: 0 <= i < |calls| ==> Lands(calls, i, buckets[i])
  }

  /** The names that later calls write through the demanded root. */
  method NamesWrittenLater(calls: seq<Call>, i: nat) returns (names: set<string>)
    requires i < |calls|
    ensures forall n :: n in names <==>
      exists k :: i < k < |calls| && WritesWhereAsked(calls[i], calls[k]) && n in BaseNames(calls[k].args)
  {
    names := {};
    for later := i + 1 to |calls|
      invariant forall n :: n in names <==>
        exists k :: i < k < later && WritesWhereAsked(calls[i], calls[k]) && n in BaseNames(calls[k].args)
    {
      if WritesWhereAsked(calls[i], calls[later]) {
        names := names + BaseNames(calls[later].args);
      }
    }
  }

  method FindRecovery(calls: seq<Call>, i: nat) returns (position: Option<nat>)
    requires i < |calls|
    ensures position.None? ==> !AnyQualifies(calls, i)
    ensures position.Some? ==> position.value > 0 && FirstQualifies(calls, i, position.value - 1)
  {
    for later := i + 1 to |calls|
      invariant forall j :: i < j < later ==> !Qualifies(calls[i], calls[j])
    {
      if Qualifies(calls[i], calls[later]) {
        return Some(later + 1);
      }
    }
    return None;
  }

  method ClassifyCall(calls: seq<Call>, i: nat) returns (bucket: Bucket)
    requires i < |calls|
    ensures Lands(calls, i, bucket)
  {
    var call := calls[i];
    if !Counted(call) { return Skipped; }
    if IgnoredBlock(call) { return Ignored; }
    if RootRequired(call) {
      var written := NamesWrittenLater(calls, i);
      var blocked := BaseNames(call.args);
      return if blocked != {} && blocked <= written then Recovered(None) else Unresolved;
    }
    var position := FindRecovery(calls, i);
    if position.Some? { return Recovered(position); }
    if StatusOf(call) in RECOVERABLE_STATUSES && ToolOf(call) in COSMETIC_TOOLS && !call.signalDeath {
      return Cosmetic;
    }
    if StatusOf(call) in POLICY_DENIAL_STATUSES { return PolicyDenied; }
    return Unresolved;
  }

  /** The report of a trace: every call filed under the bucket it lands in. */
  ghost predicate IsReport(calls: seq<Call>, report: Report) {
    exists buckets :: AllLand(calls, buckets) && report == Filed(calls, buckets)
  }

  method ClassifyToolErrors(calls: seq<Call>) returns (report: Report)
    ensures IsReport(calls, report)
  {
    var unresolved, recovered, cosmetic, ignored, policyDenials: seq<Record> := [], [], [], [], [];
    ghost var buckets: seq<Bucket> := [];
    for i := 0 to |calls|
      invariant |buckets| == i
      invariant forall k :: 0 <= k < i ==> Lands(calls, k, buckets[k])
      invariant Report(unresolved, recovered, cosmetic, ignored, policyDenials) == Filed(calls[..i], buckets)
    {
      var bucket := ClassifyCall(calls, i);
      FiledOneMore(calls, i, buckets, bucket);
      var record := RecordOf(calls[i], bucket);
      match bucket {
        case Skipped =>
        case Ignored => ignored := ignored + [record];
        case Unresolved => unresolved := unresolved + [record];
        case Recovered(_) => recovered := recovered + [record];
        case Cosmetic => cosmetic := cosmetic + [record];
        case PolicyDenied => policyDenials := policyDenials + [record];
      }
      buckets := buckets + [bucket];
    }
    assert calls[..|calls|] == calls;
    assert AllLand(calls, buckets);
    report := Report(unresolved, recovered, cosmetic, ignored, policyDenials);
  }

  lemma FiledOneMore(calls: seq<Call>, i: nat, buckets: seq<Bucket>, bucket: Bucket)
    requires i < |calls| && |buckets| == i
    ensures Filed(calls[..i + 1], buckets + [bucket]) == Added(Filed(calls[..i], buckets), calls[i], bucket)
  {
    assert calls[..i + 1][..i] == calls[..i] && (buckets + [bucket])[..i] == buckets;
  }

  // ---- what the report promises ----

  lemma OneBucketEach(calls: seq<Call>, i: nat, one: Bucket, other: Bucket)
    requires i < |calls| && Lands(calls, i, one) && Lands(calls, i, other)
    ensures one == other
  {
  }

  lemma OneReport(calls: seq<Call>, one: Report, other: Report)
    requires IsReport(calls, one) && IsReport(calls, other)
    ensures one == other
  {
    var a: seq<Bucket> :| AllLand(calls, a) && one == Filed(calls, a);
    var b: seq<Bucket> :| AllLand(calls, b) && other == Filed(calls, b);
    forall i | 0 <= i < |calls| ensures a[i] == b[i] { OneBucketEach(calls, i, a[i], b[i]); }
    assert a == b;
  }

  /** The records of the calls whose bucket is wanted, in trace order. */
  function Chosen(calls: seq<Call>, buckets: seq<Bucket>, wanted: Bucket -> bool): seq<Record>
    requires |calls| == |buckets|
  {
    if calls == [] then []
    else
      var earlier := Chosen(calls[..|calls| - 1], buckets[..|buckets| - 1], wanted);
      var call, bucket := calls[|calls| - 1], buckets[|buckets| - 1];
      if wanted(bucket) then
        earlier + [Record(Or(call.tool, "unknown"), Or(call.status, "error"),
                          if bucket.Recovered? then bucket.position else None)]
      else earlier
  }

  /** Each of the five lists holds the calls of its own bucket and no others. */
  lemma {:induction false} ListsHoldTheirOwn(calls: seq<Call>, buckets: seq<Bucket>)
    requires |calls| == |buckets|
    ensures var report := Filed(calls, buckets);
      && report.unresolved == Chosen(calls, buckets, (b: Bucket) => b.Unresolved?)
      && report.recovered == Chosen(calls, buckets, (b: Bucket) => b.Recovered?)
      && report.cosmetic == Chosen(calls, buckets, (b: Bucket) => b.Cosmetic?)
      && report.ignored == Chosen(calls, buckets, (b: Bucket) => b.Ignored?)
      && report.policyDenials == Chosen(calls, buckets, (b: Bucket) => b.PolicyDenied?)
  {
    if calls != [] { ListsHoldTheirOwn(calls[..|calls| - 1], buckets[..|buckets| - 1]); }
  }

  function Size(report: Report): nat {
    |report.unresolved| + |report.recovered| + |report.cosmetic| + |report.ignored| + |report.policyDenials|
  }

  function CountedCalls(calls: seq<Call>): nat {
    if calls == [] then 0
    else CountedCalls(calls[..|calls| - 1]) + (if Counted(calls[|calls| - 1]) then 1 else 0)
  }

  /** Every counted failure is filed once, and nothing else is. */
  lemma {:induction false} EachFailureIsFiledOnce(calls: seq<Call>, buckets: seq<Bucket>)
    requires |calls| == |buckets| && forall i :: 0 <= i < |calls| ==> (buckets[i].Skipped? <==> !Counted(calls[i]))
    ensures Size(Filed(calls, buckets)) == CountedCalls(calls)
  {
    if calls != [] {
      EachFailureIsFiledOnce(calls[..|calls| - 1], buckets[..|buckets| - 1]);
    }
  }

  lemma OnlyCountedLand(calls: seq<Call>, report: Report)
    requires IsReport(calls, report)
    ensures Size(report) == CountedCalls(calls)
  {
    var buckets: seq<Bucket> :| AllLand(calls, buckets) && report == Filed(calls, buckets);
    forall i | 0 <= i < |calls| ensures buckets[i].Skipped? <==> !Counted(calls[i]) {
      assert Lands(calls, i, buckets[i]);
    }
    EachFailureIsFiledOnce(calls, buckets);
  }

  predicate CanMove(bucket: Bucket) {
    bucket.Unresolved? || bucket.Cosmetic? || bucket.PolicyDenied?
  }

  lemma LaterCallsStay(calls: seq<Call>, more: seq<Call>, i: nat)
    requires i < |calls|
    ensures (calls + more)[i] == calls[i]
    ensures AnyQualifies(calls, i) ==> AnyQualifies(calls + more, i)
    ensures AllWrittenLater(calls, i) ==> AllWrittenLater(calls + more, i)
    ensures forall k: nat :: k < |calls| ==> (FirstQualifies(calls, i, k) <==> FirstQualifies(calls + more, i, k))
  {
    var all := calls + more;
    assert forall k :: 0 <= k < |calls| ==> all[k] == calls[k];
    if AnyQualifies(calls, i) {
      var k :| i < k < |calls| && Qualifies(calls[i], calls[k]);
      assert Qualifies(all[i], all[k]);
    }
    if AllWrittenLater(calls, i) {
      forall n | n in BaseNames(all[i].args)
        ensures exists k :: i < k < |all| && WritesWhereAsked(all[i], all[k]) && n in BaseNames(all[k].args)
      {
        var k :| i < k < |calls| && WritesWhereAsked(calls[i], calls[k]) && n in BaseNames(calls[k].args);
        assert all[k] == calls[k];
      }
    }
  }

  /** A longer trace never takes a call out of `recovered` or `ignored` and never changes which
      call made up for it; it only moves residual failures into `recovered`. */
  lemma LongerTraceOnlyRecovers(calls: seq<Call>, more: seq<Call>, i: nat, before: Bucket, after: Bucket)
    requires i < |calls| && Lands(calls, i, before) && Lands(calls + more, i, after)
    ensures after == before || (CanMove(before) && after.Recovered?)
    ensures before.Recovered? || before.Ignored? ==> after == before
  {
    LaterCallsStay(calls, more, i);
    if Counted(calls[i]) && !IgnoredBlock(calls[i]) && !RootRequired(calls[i]) && AnyQualifies(calls, i) {
      FirstIsUnique(calls + more, i, before.position.value - 1, after.position.value - 1);
    }
  }

  lemma FirstIsUnique(calls: seq<Call>, i: nat, j: nat, k: nat)
    requires i < |calls| && FirstQualifies(calls, i, j) && FirstQualifies(calls, i, k)
    ensures j == k
  {
  }

  lemma QualifiesAmongNew(calls: seq<Call>, more: seq<Call>, i: nat)
    requires i < |calls| && !AnyQualifies(calls, i)
    ensures AnyQualifies(calls + more, i) <==> exists k :: 0 <= k < |more| && Qualifies(calls[i], more[k])
    ensures forall k: nat :: FirstQualifies(calls + more, i, k) ==> k >= |calls|
  {
    var all := calls + more;
    assert forall k :: 0 <= k < |more| ==> all[|calls| + k] == more[k];
    assert forall k :: 0 <= k < |calls| ==> all[k] == calls[k];
    if exists k :: 0 <= k < |more| && Qualifies(calls[i], more[k]) {
      var k :| 0 <= k < |more| && Qualifies(calls[i], more[k]);
      assert Qualifies(all[i], all[|calls| + k]);
    }
    if AnyQualifies(all, i) {
      var k :| i < k < |all| && Qualifies(all[i], all[k]);
      assert k >= |calls| && more[k - |calls|] == all[k];
    }
  }

  /** Some of `later` writes `name` through the root that `failed` was redirected to. */
  ghost predicate WrittenBy(failed: Call, later: seq<Call>, name: string) {
    exists k :: 0 <= k < |later| && WritesWhereAsked(failed, later[k]) && name in BaseNames(later[k].args)
  }

  lemma WrittenByBoth(failed: Call, one: seq<Call>, two: seq<Call>, name: string)
    ensures WrittenBy(failed, one + two, name) <==> WrittenBy(failed, one, name) || WrittenBy(failed, two, name)
  {
    var all := one + two;
    assert forall k :: 0 <= k < |one| ==> all[k] == one[k];
    assert forall k :: 0 <= k < |two| ==> all[|one| + k] == two[k];
  }

  lemma AllWrittenIsWrittenBy(calls: seq<Call>, i: nat)
    requires i < |calls|
    ensures AllWrittenLater(calls, i) <==>
      BaseNames(calls[i].args) != {} && forall n :: n in BaseNames(calls[i].args) ==>
        WrittenBy(calls[i], calls[i + 1..], n)
  {
    var later := calls[i + 1..];
    assert forall k :: 0 <= k < |later| ==> later[k] == calls[i + 1 + k];
    if AllWrittenLater(calls, i) {
      forall n | n in BaseNames(calls[i].args) ensures WrittenBy(calls[i], later, n) {
        var k :| i < k < |calls| && WritesWhereAsked(calls[i], calls[k]) && n in BaseNames(calls[k].args);
        assert later[k - i - 1] == calls[k];
      }
    }
  }

  /** What new calls must bring to recover a failure that the old ones left. */
  ghost predicate NewCallsRecover(calls: seq<Call>, more: seq<Call>, i: nat)
    requires i < |calls|
  {
    if RootRequired(calls[i]) then
      && BaseNames(calls[i].args) != {}
      && forall n :: n in BaseNames(calls[i].args) ==>
           WrittenBy(calls[i], calls[i + 1..], n) || WrittenBy(calls[i], more, n)
    else exists k :: 0 <= k < |more| && Qualifies(calls[i], more[k])
  }

  lemma RedirectRecovered(calls: seq<Call>, more: seq<Call>, i: nat)
    requires i < |calls| && RootRequired(calls[i])
    ensures AllWrittenLater(calls + more, i) <==> NewCallsRecover(calls, more, i)
  {
    var all, failed, earlier := calls + more, calls[i], calls[i + 1..];
    AllWrittenIsWrittenBy(all, i);
    assert all[i] == failed && all[i + 1..] == earlier + more;
    forall n | n in BaseNames(failed.args)
      ensures WrittenBy(all[i], all[i + 1..], n) <==> WrittenBy(failed, earlier, n) || WrittenBy(failed, more, n)
    {
      WrittenByBoth(failed, earlier, more, n);
    }
    if AllWrittenLater(all, i) {
      forall n | n in BaseNames(failed.args)
        ensures WrittenBy(failed, earlier, n) || WrittenBy(failed, more, n)
      {
        assert WrittenBy(all[i], all[i + 1..], n);
      }
    }
    if NewCallsRecover(calls, more, i) {
      forall n | n in BaseNames(failed.args) ensures WrittenBy(all[i], all[i + 1..], n) {
        assert WrittenBy(failed, earlier, n) || WrittenBy(failed, more, n);
      }
    }
  }

  /** A residual failure is recovered by new calls exactly when one of them qualifies, and is
      then credited to a new call; a redirected write exactly when old and new calls together
      wrote every blocked name where they were asked to. */
  lemma RecoveredByNewCalls(calls: seq<Call>, more: seq<Call>, i: nat, before: Bucket, after: Bucket)
    requires i < |calls| && Lands(calls, i, before) && Lands(calls + more, i, after) && CanMove(before)
    ensures after.Recovered? <==> NewCallsRecover(calls, more, i)
    ensures after.Recovered? && !RootRequired(calls[i]) ==> after.position.value > |calls|
  {
    assert (calls + more)[i] == calls[i];
    if RootRequired(calls[i]) {
      RedirectRecovered(calls, more, i);
    } else {
      QualifiesAmongNew(calls, more, i);
    }
  }

  /** A failure whose status only denies is counted like any other, and so can be recovered. */
  lemma DenialsAreWalked(call: Call)
    requires call.isError && StatusOf(call) in POLICY_DENIAL_STATUSES
    ensures Counted(call)
  {
  }
}
