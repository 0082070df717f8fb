/** The task-based log summarisation agent: its task ids, the choice of
    task for a message, which tasks `run` dispatches, the empty-log guard
    in front of the summary, and the pattern-analysis rewrite of a summary
    dictionary. Its line extraction is the same comprehension as the older
    agent's and is `LogSummary.ExtractLogs`. */
module LogSummaryTasks {
  import opened Common
  import LogSummary

  /** `AgentTaskType`. */
  datatype TaskType =
    | UnknownTask | LogSummarization | LogQna | RealtimeLogSummary | ExtractPatterns
    | OptimizeTopology | SynthesizeTopology | TopologyQna | Routing | RefineInput
    | ValidateTopology | LabCodeAssist | LabPeer

  /** The string value of each task type. */
  function TaskValue(t: TaskType): string
  {
    match t
    case UnknownTask => "unknown_task"
    case LogSummarization => "summarize"
    case LogQna => "log_qna"
    case RealtimeLogSummary => "realtime_summarization"
    case ExtractPatterns => "extract_patterns"
    case OptimizeTopology => "optimize_topology"
    case SynthesizeTopology => "synthesize_topology"
    case TopologyQna => "topology_qna"
    case Routing => "routing"
    case RefineInput => "refine_output"
    case ValidateTopology => "validate_topology"
    case LabCodeAssist => "lab_code_assist"
    case LabPeer => "lab_peer"
  }

  /** How an f-string renders a task type: `AgentTaskType` is a plain
      `Enum`, so its `str` is the class name and the member name, not the
      value. */
  function TaskName(t: TaskType): string
  {
    "AgentTaskType." +
    match t
    case UnknownTask => "UNKNOWN_TASK"
    case LogSummarization => "LOG_SUMMARIZATION"
    case LogQna => "LOG_QNA"
    case RealtimeLogSummary => "REALTIME_LOG_SUMMARY"
    case ExtractPatterns => "EXTRACT_PATTERNS"
    case OptimizeTopology => "OPTIMIZE_TOPOLOGY"
    case SynthesizeTopology => "SYNTHESIZE_TOPOLOGY"
    case TopologyQna => "TOPOLOGY_QNA"
    case Routing => "ROUTING"
    case RefineInput => "REFINE_INPUT"
    case ValidateTopology => "VALIDATE_TOPOLOGY"
    case LabCodeAssist => "LAB_CODE_ASSIST"
    case LabPeer => "LAB_PEER"
  }

  /** `process_message`'s choice of task. */
  function SelectTask(content: string): TaskType
  {
    var lowered := Lower(content);
    if Contains(lowered, "summarize") || Contains(lowered, "summary") then LogSummarization
    else if Contains(lowered, "pattern") || Contains(lowered, "anomaly") then ExtractPatterns
    else LogSummarization
  }

  /** Both agents choose the same task for the same message: this agent's
      choice has the string id the older agent picks. */
  lemma SelectTaskAgrees(content: string)
    ensures TaskValue(SelectTask(content)) == LogSummary.SelectTask(content)
    ensures SelectTask(content) == LogSummarization || SelectTask(content) == ExtractPatterns
  {
  }

  datatype Failure =
    | HttpError(status: nat, message: string, simulationId: Option<string>)
    | ValueError(message: string)
    | KeyError(key: string)
    | TypeError

  /** The handler `run` hands a task to. */
  datatype Handler = Summarize | AnswerQuestion | PatternAnalysis | RealtimeSummary

  datatype Dispatched = Handled(handler: Handler) | Rejected(failure: Failure)

  /** `run`'s dispatch once the input has been validated. */
  function Dispatch(task: TaskType): Dispatched
  {
    match task
    case LogSummarization => Handled(Summarize)
    case LogQna => Handled(AnswerQuestion)
    case ExtractPatterns => Handled(PatternAnalysis)
    case RealtimeLogSummary => Handled(RealtimeSummary)
    case _ => Rejected(ValueError("Task " + TaskName(task) + " not supported"))
  }

  /** Exactly the four log tasks are handled, each by its own handler;
      every other task is rejected with a `ValueError` naming the task as
      Python renders it. */
  lemma DispatchHandles(task: TaskType)
    ensures Dispatch(task).Handled? <==>
      task == LogSummarization || task == LogQna || task == ExtractPatterns || task == RealtimeLogSummary
    ensures Dispatch(task).Rejected? ==> Dispatch(task).failure == ValueError("Task " + TaskName(task) + " not supported")
    ensures forall other: TaskType ::
      (Dispatch(task).Handled? && Dispatch(other).Handled? && Dispatch(task).handler == Dispatch(other).handler) ==> task == other
  {
  }

  /** The tasks `_register_tasks` declares: the pattern task is not among
      them. */
  predicate Registered(task: TaskType)
  {
    task == LogSummarization || task == LogQna || task == RealtimeLogSummary
  }

  /** `run`'s dispatch hands every task `process_message` selects to a
      handler, summary or pattern analysis; the pattern task is the one
      selected task that is not registered, so input validation against
      the registered tasks stands between it and its handler. */
  lemma ProcessMessageHandled(content: string)
    ensures Dispatch(SelectTask(content)).Handled?
    ensures Dispatch(SelectTask(content)).handler == Summarize || Dispatch(SelectTask(content)).handler == PatternAnalysis
    ensures !Registered(SelectTask(content)) <==> Dispatch(SelectTask(content)).handler == PatternAnalysis
  {
    SelectTaskAgrees(content);
  }

  /** A routing task is refused with the enum member's name, not its
      value "routing". */
  lemma RoutingRejected()
    ensures Dispatch(Routing) == Rejected(ValueError("Task " + "AgentTaskType.ROUTING" + " not supported"))
    ensures Dispatch(Routing) != Rejected(ValueError("Task " + TaskValue(Routing) + " not supported"))
  {
    assert TaskName(Routing) == "AgentTaskType." + "ROUTING" == "AgentTaskType.ROUTING";
    assert |"Task " + TaskName(Routing) + " not supported"| == 40;
    assert |"Task " + TaskValue(Routing) + " not supported"| == 26;
  }

  datatype Resolved = Logs(logs: seq<string>) | Refused(failure: Failure)

  /** The start of `_summarize_logs`: with a simulation id the logs are
      those stored for it (`stored`, fetched from the log store), otherwise
      the `logs` of the input (`None` when absent or null); an empty list
      is refused with HTTP 400. */
  function ResolveLogs(simulationId: Option<string>, stored: seq<string>, given: Option<seq<string>>): (r: Resolved)
    ensures var chosen := if simulationId.Some? && simulationId.value != "" then stored
                          else if given.Some? then given.value else [];
      (r.Logs? <==> chosen != []) &&
      (r.Logs? ==> r.logs == chosen) &&
      (r.Refused? ==> r.failure == HttpError(400, "No logs provided", simulationId))
  {
    var logs := if simulationId.Some? && simulationId.value != "" then stored
                else if given.Some? then given.value else [];
    if logs == [] then Refused(HttpError(400, "No logs provided", simulationId)) else Logs(logs)
  }

  /** A summary dictionary's values: text, or anything else. */
  datatype Value = Text(text: string) | OtherValue

  datatype Rewritten = Rewritten(summary: map<string, Value>) | RewriteFailed(failure: Failure)

  /** `_extract_patterns`' in-place update of `summary_text`: a missing key
      raises `KeyError`, a non-text value cannot be appended to. */
  method MarkPatternAnalysis(summary: map<string, Value>) returns (r: Rewritten)
    ensures r.Rewritten? <==> "summary_text" in summary && summary["summary_text"].Text?
    ensures "summary_text" !in summary ==> r == RewriteFailed(KeyError("summary_text"))
    ensures "summary_text" in summary && !summary["summary_text"].Text? ==> r == RewriteFailed(TypeError)
    ensures r.Rewritten? ==>
      && r.summary.Keys == summary.Keys
      && r.summary["summary_text"] == Text("Pattern analysis: " + summary["summary_text"].text)
      && forall k :: k in summary && k != "summary_text" ==> r.summary[k] == summary[k]
  {
    if "summary_text" !in summary {
      return RewriteFailed(KeyError("summary_text"));
    }
    var current := summary["summary_text"];
    if !current.Text? {
      return RewriteFailed(TypeError);
    }
    r := Rewritten(summary["summary_text" := Text("Pattern analysis: " + current.text)]);
  }
}
