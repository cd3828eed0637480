/** Tools and the approval gate of the autonomous loop. A tool's behaviour is an arbitrary
    function of the outside world `W`, which it may change. */
module Tools {
  import opened Base

  datatype Json =
    | Null
    | Bool(b: bool)
    | Num(n: real)
    | Str(s: string)
    | Arr(items: seq<Json>)
    | Obj(fields: map<string, Json>)

  datatype ApprovalGate =
    | DryRun
    | Approved(ticket: string)
    | Allowlist(ticket: string, tools: set<string>)
  {
    predicate Permits(tool: string) {
      match this
      case DryRun => false
      case Approved(_) => true
      case Allowlist(_, tools) => tool in tools
    }
  }

  datatype ToolInvocation = ToolInvocation(tool: string, args: Json)

  datatype ToolResult = Executed(output: Json) | Planned(description: string)

  datatype ToolError =
    | Unknown(tool: string)
    | BadArgs(tool: string, message: string)
    | Failed(tool: string, message: string)

  datatype Tool<!W> = Tool(
    name: string,
    sideEffecting: bool,
    retrySafe: bool,
    execute: (W, Json) -> (W, Result<Json, ToolError>),
    plan: Json -> string)

  /** `ToolRegistry`: every tool sits under its own name. */
  type Registry<!W> = tools: map<string, Tool<W>> | forall name :: name in tools ==> tools[name].name == name
    witness map[]

  class ToolRegistry<!W> {
    var tools: Registry<W>

    constructor ()
      ensures tools == map[]
    {
      tools := map[];
    }

    /** A tool registered under a name already in use replaces the earlier one. */
    method Register(tool: Tool<W>)
      modifies this
      ensures tools == old(tools)[tool.name := tool]
    {
      tools := tools[tool.name := tool];
    }
  }

  predicate IsRetrySafe<W>(registry: Registry<W>, name: string) {
    name in registry && registry[name].retrySafe
  }

  /** `ToolRegistry::invoke`, with the world after the call. */
  function Invoke<W>(registry: Registry<W>, gate: ApprovalGate, world: W, invocation: ToolInvocation)
    : (W, Result<ToolResult, ToolError>)
  {
    if invocation.tool !in registry then (world, Err(Unknown(invocation.tool)))
    else
      var tool := registry[invocation.tool];
      if tool.sideEffecting && !gate.Permits(tool.name) then (world, Ok(Planned(tool.plan(invocation.args))))
      else
        var (after, output) := tool.execute(world, invocation.args);
        (after, match output case Ok(value) => Ok(Executed(value)) case Err(error) => Err(error))
  }

  /** The gates treat every side-effecting tool of the registry alike. */
  ghost predicate SamePermissions<W(!new)>(registry: Registry<W>, a: ApprovalGate, b: ApprovalGate) {
    forall name :: name in registry && registry[name].sideEffecting ==> (a.Permits(name) <==> b.Permits(name))
  }

  /** An invocation of a side-effecting tool that the gate does not permit only yields its plan
      and leaves the world alone. */
  ghost predicate RespectsGate<W(!new)>(registry: Registry<W>, gate: ApprovalGate, invocation: ToolInvocation,
                                        before: W, after: W, result: Result<ToolResult, ToolError>)
  {
    invocation.tool in registry && registry[invocation.tool].sideEffecting && !gate.Permits(invocation.tool)
    ==> after == before && result == Ok(Planned(registry[invocation.tool].plan(invocation.args)))
  }

  lemma InvokeRespectsGate<W(!new)>(registry: Registry<W>, gate: ApprovalGate, world: W, invocation: ToolInvocation)
    ensures var (after, result) := Invoke(registry, gate, world, invocation);
            RespectsGate(registry, gate, invocation, world, after, result)
  {
  }

  /** The gate in words: a side-effecting tool runs under a blanket approval or when it is named. */
  predicate Cleared(gate: ApprovalGate, name: string) {
    gate.Approved? || (gate.Allowlist? && name in gate.tools)
  }

  /** What an invocation comes to: an unknown tool fails; a read-only or cleared tool runs on the arguments
      given, and its answer, error and effect are passed on; any other is only planned. */
  lemma InvokeMeaning<W>(registry: Registry<W>, gate: ApprovalGate, world: W, name: string, args: Json)
    ensures var (after, result) := Invoke(registry, gate, world, ToolInvocation(name, args));
            && (name !in registry ==> result == Err(Unknown(name)) && after == world)
            && (name in registry && (registry[name].sideEffecting ==> Cleared(gate, name)) ==>
                  && after == registry[name].execute(world, args).0
                  && match registry[name].execute(world, args).1
                     case Ok(output) => result == Ok(Executed(output))
                     case Err(error) => result == Err(error))
            && (name in registry && registry[name].sideEffecting && !Cleared(gate, name) ==>
                  after == world && result == Ok(Planned(registry[name].plan(args))))
  {
  }
}
