/** Vocabulary shared by the protocol and the coordinator. */
module Types {

  datatype Option<+T> = None | Some(value: T)

  /** A clock reading in milliseconds. */
  type Time = nat

  /** A JSON document, compared by its text. */
  type Json = string

  datatype RunStatus =
    | Queued
    | ContextBuilding
    | Planning
    | PolicyCheck
    | WaitingApproval
    | Executing
    | Verifying
    | Persisting
    | Completed
    | Failed
    | Cancelled
    | Paused

  predicate Terminal(status: RunStatus) {
    status in {Completed, Failed, Cancelled}
  }

  /** The statuses a coordinator run may end in. */
  predicate Final(status: RunStatus) {
    Terminal(status) || status in {Paused, WaitingApproval}
  }
}

/** The policy engine: every tool call is allowed, gated by an approval, or denied. */
module Policy {
  import opened Types

  datatype ActionClass = ReadOnly | SafeWrite | PublicWrite | PrivilegedHost | Destructive

  datatype Verdict = Allow | RequireApproval | Deny

  datatype Decision = Decision(actionClass: ActionClass, verdict: Verdict)

  const TOOL_TO_ACTION: map<string, ActionClass> := map[
    "technocore_read" := ReadOnly,
    "github_repo_read" := ReadOnly,
    "http_json_read" := ReadOnly,
    "internal_health" := ReadOnly,
    "technocore_signed_write" := PublicWrite,
    "db_self_write" := SafeWrite,
    "apply_privileged" := PrivilegedHost,
    "destructive_op" := Destructive
  ]

  function Decide(overrides: map<string, Verdict>, tool: string): (d: Decision) {
    if tool in overrides then Decision(ReadOnly, overrides[tool])
    else if tool !in TOOL_TO_ACTION then Decision(Destructive, Deny)
    else
      var c := TOOL_TO_ACTION[tool];
      match c
      case Destructive => Decision(c, Deny)
      case PrivilegedHost => Decision(c, RequireApproval)
      case PublicWrite => Decision(c, RequireApproval)
      case SafeWrite => Decision(c, Allow)
      case ReadOnly => Decision(c, Allow)
  }

  /** The verdict of an engine on which no override was set, as the worker builds it. */
  function Verdict0(tool: string): Verdict {
    Decide(map[], tool).verdict
  }

  /** The tools by name; an override decides about its tool whatever the tool does. */
  lemma VerdictByName(overrides: map<string, Verdict>, tool: string)
    ensures tool in overrides ==> Decide(overrides, tool).verdict == overrides[tool]
    ensures tool !in overrides ==> Decide(overrides, tool) == Decide(map[], tool)
    ensures Verdict0(tool) == Allow <==>
              tool in {"technocore_read", "github_repo_read", "http_json_read", "internal_health", "db_self_write"}
    ensures Verdict0(tool) == RequireApproval <==> tool in {"technocore_signed_write", "apply_privileged"}
  {
  }

  /** Without overrides exactly the reading tools and the writes to the own database pass; what is unknown is denied. */
  lemma VerdictByClass(tool: string)
    ensures Verdict0(tool) == Allow <==> tool in TOOL_TO_ACTION && TOOL_TO_ACTION[tool] in {ReadOnly, SafeWrite}
    ensures Verdict0(tool) == RequireApproval <==>
              tool in TOOL_TO_ACTION && TOOL_TO_ACTION[tool] in {PublicWrite, PrivilegedHost}
    ensures tool !in TOOL_TO_ACTION || TOOL_TO_ACTION[tool] == Destructive <==> Verdict0(tool) == Deny
  {
  }
}
