/**
 The tool-calling agent. The language model and the tools are objects that log what is asked of them: a run is judged by
 what it made them do. Their answers are any function of the request and its number; arguments are held as JSON text.
 */
module Agent {
  import opened Common

  datatype RiskLevel = READ | WRITE | DESTRUCTIVE | EXTERNAL_SIDE_EFFECT
  /** What the model is told of a tool; the parameters are held as JSON text. */
  datatype Definition = Definition(name: string, description: string, parameters: string)
  datatype Tool = Tool(name: string, toolDefinition: Definition, requiredRoles: set<Role>, riskLevel: RiskLevel,
                       requiresConfirmation: bool, isMutation: bool)
  /** `userRole` is None for a string that names no role. */
  datatype Context = Context(organizationId: string, userId: string, userRole: Option<Role>)
  datatype Call = Call(id: string, name: string, arguments: string)
  /** The system prompt is made from what was retrieved. */
  datatype Message =
    | System(found: seq<Found>)
    | User(text: string)
    | Assistant(text: string)
    | ToolOutput(name: string, callId: string, text: string)
  datatype Usage = Usage(promptTokens: nat, completionTokens: nat, totalTokens: nat)
  datatype Reply = Failed | Reply(content: string, toolCalls: seq<Call>, usage: Option<Usage>)
  datatype ToolResult = Succeeded(data: string) | ToolError(error: string)
  datatype Parsed = Parsed(data: string) | Unparsed(errors: string)

  /** A retrieval result; its title may be given by itself or in the metadata. */
  datatype Found = Found(id: string, sourceType: string, sourceId: string, content: string, title: Option<string>,
                         metadataTitle: Option<string>, similarityScore: real)
  datatype Source = Source(id: string, sourceType: string, sourceId: string, title: Option<string>,
                           similarityScore: real)

  type Registry = map<string, Tool>
  /** The tools' schemas, by the tool's name and the input. */
  type Schema = (string, string) -> Parsed
  /** What tools answer, by the number of the invocation, the tool's name and the parsed input. */
  type Behaviour = (nat, string, string) -> ToolResult

  const DEFAULT_MAX_MUTATIONS: nat := 3

  // ---- The security policy ------------------------------------------------------------------------------

  datatype Evaluation = Allowed(sanitizedInput: string) | Denied(requiresConfirmation: bool, reason: string)

  predicate Mutates(t: Tool) {
    t.isMutation || t.riskLevel == WRITE || t.riskLevel == EXTERNAL_SIDE_EFFECT
  }

  function EvaluateToolExecution(tool: Option<Tool>, c: Context, input: string, mutationCalls: nat,
                                 maxMutations: Option<nat>, sanitize: string -> string): Evaluation {
    if tool.None? then Denied(false, "not registered")
    else if c.organizationId == "" || c.userId == "" then Denied(false, "missing context")
    else if !RoleMayUse(c.userRole, tool.value) then Denied(false, "role not authorized")
    else if tool.value.riskLevel == DESTRUCTIVE || tool.value.requiresConfirmation
    then Denied(true, "confirmation required")
    else if Mutates(tool.value)
         && mutationCalls >= (if maxMutations.Some? then maxMutations.value else DEFAULT_MAX_MUTATIONS)
    then Denied(false, "mutation limit reached")
    else Allowed(sanitize(input))
  }

  datatype ContextError = MissingContext | InvalidRole

  function ValidateRequestContext(c: Context): Option<ContextError> {
    if c.organizationId == "" || c.userId == "" then Some(MissingContext)
    else if c.userRole.None? then Some(InvalidRole)
    else None
  }

  // ---- The tool registry ----------------------------------------------------------------------------------

  /** Without a context the caller counts as a viewer. */
  function CallerRole(context: Option<Context>): Option<Role> {
    if context.None? then Some(VIEWER) else context.value.userRole
  }

  predicate RoleMayUse(role: Option<Role>, t: Tool) {
    role.Some? && role.value in t.requiredRoles
  }

  class ToolRegistry {
    var tools: Registry
    /** The names in the order in which they were first registered. */
    var order: seq<string>

    constructor ()
      ensures Valid() && tools == map[] && order == []
    {
      tools, order := map[], [];
    }

    ghost predicate Valid()
      reads this
    {
      && (forall n :: n in tools <==> n in order)
      && (forall n :: n in tools ==> tools[n].name == n)
      && (forall i, j :: 0 <= i < j < |order| ==> order[i] != order[j])
    }

    method Register(tool: Tool)
      requires Valid()
      modifies this
      ensures Valid() && tools == old(tools)[tool.name := tool]
      ensures order == if tool.name in old(tools) then old(order) else old(order) + [tool.name]
    {
      if tool.name !in tools {
        order := order + [tool.name];
      }
      tools := tools[tool.name := tool];
    }

    /**
     The definitions offered to the model are, in registration order, those of the registered tools that the role may
     use.
     */
    method GetToolDefinitions(context: Option<Context>) returns (definitions: seq<Definition>)
      requires Valid()
      ensures var role := if context.None? then Some(VIEWER) else context.value.userRole;
              definitions == DefinitionsOf(tools, Offered(order, tools, role))
    {
      var userRole := CallerRole(context);
      definitions := [];
      for i := 0 to |order|
        invariant definitions == DefinitionsOf(tools, Offered(order[..i], tools, userRole))
      {
        assert order[..i + 1][..i] == order[..i];
        if RoleMayUse(userRole, tools[order[i]]) {
          definitions := definitions + [tools[order[i]].toolDefinition];
        }
      }
      assert order[..|order|] == order;
    }
  }

  /** Of the names, in their order, those of tools that the role may use. */
  ghost function Offered(names: seq<string>, tools: Registry, role: Option<Role>): (offered: seq<string>)
    requires forall n :: n in names ==> n in tools
    ensures forall n :: n in offered ==> n in tools
  {
    if names == [] then []
    else
      var name := names[|names| - 1];
      Offered(names[..|names| - 1], tools, role) + if RoleMayUse(role, tools[name]) then [name] else []
  }

  ghost function DefinitionsOf(tools: Registry, names: seq<string>): (definitions: seq<Definition>)
    requires forall n :: n in names ==> n in tools
    ensures |definitions| == |names|
  {
    seq(|names|, i requires 0 <= i < |names| => tools[names[i]].toolDefinition)
  }

  /** Offered are exactly the registered tools that the role may use, each once. */
  lemma {:induction false} OfferedIff(names: seq<string>, tools: Registry, role: Option<Role>)
    requires forall n :: n in names ==> n in tools
    requires forall i, j :: 0 <= i < j < |names| ==> names[i] != names[j]
    ensures var offered := Offered(names, tools, role);
            && (forall n :: n in offered <==> n in names && role.Some? && role.value in tools[n].requiredRoles)
            && (forall i, j :: 0 <= i < j < |offered| ==> offered[i] != offered[j])
  {
    if names != [] {
      var init, last := names[..|names| - 1], names[|names| - 1];
      OfferedIff(init, tools, role);
      assert forall n :: n in names <==> n in init || n == last;
    }
  }

  /** The tools' side of an invocation: the schemas, and the effects of the inputs that parse. */
  class ToolBox {
    const schema: Schema
    const behaviour: Behaviour
    var ran: seq<(string, string)>

    constructor (schema: Schema, behaviour: Behaviour)
      ensures this.schema == schema && this.behaviour == behaviour && ran == []
    {
      this.schema, this.behaviour, ran := schema, behaviour, [];
    }

    method Execute(name: string, data: string) returns (result: ToolResult)
      modifies this
      ensures result == behaviour(|old(ran)|, name, data) && ran == old(ran) + [(name, data)]
    {
      result := behaviour(|ran|, name, data);
      ran := ran + [(name, data)];
    }
  }

  /** What executeTool checks by itself before a tool runs. */
  predicate Admits(tools: Registry, name: string, c: Context) {
    c.organizationId != "" && c.userId != "" && name in tools && RoleMayUse(c.userRole, tools[name])
  }

  const BAD_ARGUMENTS: string := "Tool argument validation failed: "

  /** A tool runs exactly when the registry's own guards admit it and its schema accepts the input. */
  method ExecuteTool(tools: Registry, name: string, c: Context, input: string, box: ToolBox)
    returns (result: ToolResult)
    modifies box
    ensures if c.organizationId != "" && c.userId != "" && name in tools
               && c.userRole.Some? && c.userRole.value in tools[name].requiredRoles
                  && box.schema(name, input).Parsed? then
              && result == box.behaviour(|old(box.ran)|, name, box.schema(name, input).data)
              && box.ran == old(box.ran) + [(name, box.schema(name, input).data)]
            else result.ToolError? && box.ran == old(box.ran)
    ensures Admits(tools, name, c) ==>
              && result == ResultOf(box.schema, box.behaviour, |old(box.ran)|, name, input)
              && box.ran == old(box.ran) + Invocation(box.schema, name, input)
  {
    if c.organizationId == "" || c.userId == "" {
      return ToolError("authentication required");
    }
    if name !in tools {
      return ToolError("not recognized");
    }
    if !RoleMayUse(c.userRole, tools[name]) {
      return ToolError("role not authorized");
    }
    var parsed := box.schema(name, input);
    if parsed.Unparsed? {
      return ToolError(BAD_ARGUMENTS + parsed.errors);
    }
    result := box.Execute(name, parsed.data);
  }

  /** What an input makes the tool run with: its parsed form, or nothing. */
  ghost function Invocation(schema: Schema, name: string, input: string): (ran: seq<(string, string)>)
    ensures |ran| <= 1
  {
    match schema(name, input)
    case Parsed(data) => [(name, data)]
    case Unparsed(_) => []
  }

  /** The result for an input, when n inputs have run before. */
  ghost function ResultOf(schema: Schema, behaviour: Behaviour, n: nat, name: string, input: string): ToolResult {
    match schema(name, input)
    case Parsed(data) => behaviour(n, name, data)
    case Unparsed(errors) => ToolError(BAD_ARGUMENTS + errors)
  }

  function GetTool(tools: Registry, name: string): Option<Tool> {
    if name in tools then Some(tools[name]) else None
  }

  // ---- What a run may dispatch -----------------------------------------------------------------------------

  function Signature(call: Call): string {
    call.name + ":" + call.arguments
  }

  /** Registered, permitted for the caller's role, neither destructive nor in need of confirmation. */
  predicate Permitted(tools: Registry, c: Context, call: Call) {
    && call.name in tools
    && RoleMayUse(c.userRole, tools[call.name])
    && tools[call.name].riskLevel != DESTRUCTIVE && !tools[call.name].requiresConfirmation
  }

  predicate IsMutating(tools: Registry, call: Call) {
    call.name in tools && Mutates(tools[call.name])
  }

  ghost function Mutations(tools: Registry, calls: seq<Call>): nat {
    if calls == [] then 0
    else Mutations(tools, calls[..|calls| - 1]) + if IsMutating(tools, calls[|calls| - 1]) then 1 else 0
  }

  ghost predicate SignatureIn(calls: seq<Call>, signature: string) {
    exists k :: 0 <= k < |calls| && Signature(calls[k]) == signature
  }

  /** Whether a call reaches a tool after those dispatched before. */
  ghost predicate Dispatches(tools: Registry, c: Context, before: seq<Call>, call: Call) {
    && Permitted(tools, c, call)
    && (IsMutating(tools, call) ==> Mutations(tools, before) < DEFAULT_MAX_MUTATIONS)
    && !SignatureIn(before, Signature(call))
  }

  /** Of the requested calls, in order, those that reach a tool. */
  ghost function Dispatched(tools: Registry, c: Context, calls: seq<Call>): seq<Call> {
    if calls == [] then []
    else
      var before, call := Dispatched(tools, c, calls[..|calls| - 1]), calls[|calls| - 1];
      if Dispatches(tools, c, before, call) then before + [call] else before
  }

  ghost function MutatingAt(tools: Registry, calls: seq<Call>): set<nat> {
    set k: nat | k < |calls| && calls[k].name in tools
                 && (tools[calls[k].name].isMutation || tools[calls[k].name].riskLevel == WRITE
                     || tools[calls[k].name].riskLevel == EXTERNAL_SIDE_EFFECT)
  }

  lemma MutatingAtSnoc(tools: Registry, init: seq<Call>, call: Call)
    ensures MutatingAt(tools, init + [call])
            == MutatingAt(tools, init) + if IsMutating(tools, call) then {|init|} else {}
    ensures |init| !in MutatingAt(tools, init)
  {
    var all := init + [call];
    assert all[|init|] == call && forall k :: 0 <= k < |init| ==> all[k] == init[k];
  }

  lemma {:induction false} MutationsAreCounted(tools: Registry, calls: seq<Call>)
    ensures |MutatingAt(tools, calls)| == Mutations(tools, calls)
  {
    if calls == [] {
      assert MutatingAt(tools, calls) == {};
    } else {
      var init, last := calls[..|calls| - 1], calls[|calls| - 1];
      MutationsAreCounted(tools, init);
      assert calls == init + [last];
      MutatingAtSnoc(tools, init, last);
    }
  }

  /**
   At most three dispatches mutate, no signature is dispatched twice, and only permitted calls that were requested.
   */
  lemma DispatchIsSafe(tools: Registry, c: Context, calls: seq<Call>)
    ensures var d := Dispatched(tools, c, calls);
            && |set k: nat | k < |d| && d[k].name in tools
                             && (tools[d[k].name].isMutation || tools[d[k].name].riskLevel == WRITE
                                 || tools[d[k].name].riskLevel == EXTERNAL_SIDE_EFFECT)| <= 3
            && (forall k :: 0 <= k < |d| ==>
                  && d[k] in calls && d[k].name in tools
                  && c.userRole.Some? && c.userRole.value in tools[d[k].name].requiredRoles
                  && tools[d[k].name].riskLevel != DESTRUCTIVE && !tools[d[k].name].requiresConfirmation)
            && (forall j, k :: 0 <= j < k < |d| ==>
                  d[j].name + ":" + d[j].arguments != d[k].name + ":" + d[k].arguments)
  {
    var d := Dispatched(tools, c, calls);
    DispatchInv(tools, c, calls);
    MutationsAreCounted(tools, d);
    assert MutatingAt(tools, d) == set k: nat | k < |d| && d[k].name in tools
                                                && (tools[d[k].name].isMutation || tools[d[k].name].riskLevel == WRITE
                                                    || tools[d[k].name].riskLevel == EXTERNAL_SIDE_EFFECT);
    assert forall k :: 0 <= k < |d| ==> Signature(d[k]) == d[k].name + ":" + d[k].arguments;
  }

  lemma {:induction false} DispatchInv(tools: Registry, c: Context, calls: seq<Call>)
    ensures var d := Dispatched(tools, c, calls);
            && Mutations(tools, d) <= DEFAULT_MAX_MUTATIONS
            && (forall k :: 0 <= k < |d| ==> Permitted(tools, c, d[k]) && d[k] in calls)
            && (forall j, k :: 0 <= j < k < |d| ==> Signature(d[j]) != Signature(d[k]))
  {
    if calls != [] {
      var init := calls[..|calls| - 1];
      DispatchInv(tools, c, init);
      var before, d := Dispatched(tools, c, init), Dispatched(tools, c, calls);
      assert forall x :: x in init ==> x in calls;
      if d != before {
        assert d[..|d| - 1] == before;
      }
    }
  }

  lemma {:induction false} DispatchGrows(tools: Registry, c: Context, calls: seq<Call>, n: nat)
    requires n <= |calls|
    ensures Dispatched(tools, c, calls[..n]) <= Dispatched(tools, c, calls)
    ensures Mutations(tools, Dispatched(tools, c, calls[..n])) <= Mutations(tools, Dispatched(tools, c, calls))
  {
    if n == |calls| {
      assert calls[..n] == calls;
    } else {
      var init := calls[..|calls| - 1];
      DispatchGrows(tools, c, init, n);
      assert init[..n] == calls[..n];
      var d := Dispatched(tools, c, calls);
      if d != Dispatched(tools, c, init) {
        assert d[..|d| - 1] == Dispatched(tools, c, init);
      }
    }
  }

  lemma LastIsHandled(tools: Registry, c: Context, calls: seq<Call>)
    requires calls != [] && Permitted(tools, c, calls[|calls| - 1])
    ensures var d, call := Dispatched(tools, c, calls), calls[|calls| - 1];
            SignatureIn(d, Signature(call)) || (IsMutating(tools, call) && Mutations(tools, d) >= DEFAULT_MAX_MUTATIONS)
  {
    var before, d := Dispatched(tools, c, calls[..|calls| - 1]), Dispatched(tools, c, calls);
    if d != before {
      assert d[|before|] == calls[|calls| - 1];
    }
  }

  lemma SignaturesGrow(before: seq<Call>, after: seq<Call>, signature: string)
    requires before <= after && SignatureIn(before, signature)
    ensures SignatureIn(after, signature)
  {
    var k :| 0 <= k < |before| && Signature(before[k]) == signature;
    assert after[k] == before[k];
  }

  /**
   No permitted request is lost: its signature was dispatched, unless it mutates and the mutation limit is used up.
   */
  lemma DispatchIsComplete(tools: Registry, c: Context, calls: seq<Call>, n: nat)
    requires n < |calls| && Permitted(tools, c, calls[n])
    ensures var d := Dispatched(tools, c, calls);
            SignatureIn(d, Signature(calls[n]))
                || (IsMutating(tools, calls[n]) && Mutations(tools, d) == DEFAULT_MAX_MUTATIONS)
  {
    DispatchInv(tools, c, calls);
    DispatchGrows(tools, c, calls, n + 1);
    var upTo, d := Dispatched(tools, c, calls[..n + 1]), Dispatched(tools, c, calls);
    LastIsHandled(tools, c, calls[..n + 1]);
    if SignatureIn(upTo, Signature(calls[n])) {
      SignaturesGrow(upTo, d, Signature(calls[n]));
    }
  }

  /** When no registered name holds a colon, equal signatures mean the same tool and the same arguments. */
  lemma SignatureIdentifiesCall(tools: Registry, a: Call, b: Call)
    requires forall n :: n in tools ==> ':' !in n
    requires a.name in tools && b.name in tools && Signature(a) == Signature(b)
    ensures a.name == b.name && a.arguments == b.arguments
  {
    assert ":" == [':'];
    SplitAtFirst(a.name, a.arguments, b.name, b.arguments, ':');
  }

  /** What the policy lets through, the registry's own guards let through too. */
  lemma PolicyImpliesRegistryGuards(tools: Registry, c: Context, call: Call, mutationCalls: nat,
                                    sanitize: string -> string)
    requires EvaluateToolExecution(GetTool(tools, call.name), c, call.arguments, mutationCalls, None, sanitize).Allowed?
    ensures Admits(tools, call.name, c) && Permitted(tools, c, call)
  {
  }

  // ---- What a run does to the tools --------------------------------------------------------------------------

  /** What runs for dispatched calls: of their sanitized inputs, in order, those that parse. */
  ghost function Invocations(sanitize: string -> string, schema: Schema,
                             dispatched: seq<Call>): (r: seq<(string, string)>) {
    if dispatched == [] then []
    else
      var call := dispatched[|dispatched| - 1];
      Invocations(sanitize, schema, dispatched[..|dispatched| - 1])
          + Invocation(schema, call.name, sanitize(call.arguments))
  }

  /** A registered tool, open to the caller's role, neither destructive nor in need of confirmation. */
  ghost predicate Runnable(tools: Registry, c: Context, name: string) {
    && name in tools && c.userRole.Some? && c.userRole.value in tools[name].requiredRoles
    && tools[name].riskLevel != DESTRUCTIVE && !tools[name].requiresConfirmation
  }

  ghost function MutatingRuns(tools: Registry, ran: seq<(string, string)>): nat {
    if ran == [] then 0
    else
      var name := ran[|ran| - 1].0;
      MutatingRuns(tools, ran[..|ran| - 1]) + if name in tools && Mutates(tools[name]) then 1 else 0
  }

  lemma MutatingRunsSnoc(tools: Registry, ran: seq<(string, string)>, run: (string, string))
    ensures MutatingRuns(tools, ran + [run])
            == MutatingRuns(tools, ran) + if run.0 in tools && Mutates(tools[run.0]) then 1 else 0
  {
    assert (ran + [run])[..|ran|] == ran;
  }

  lemma OneRun(tools: Registry, c: Context, schema: Schema, before: seq<(string, string)>, call: Call, input: string)
    requires Permitted(tools, c, call)
    requires forall k :: 0 <= k < |before| ==> Runnable(tools, c, before[k].0)
    ensures var ran := before + Invocation(schema, call.name, input);
            && MutatingRuns(tools, ran) <= MutatingRuns(tools, before) + (if IsMutating(tools, call) then 1 else 0)
            && (forall k :: 0 <= k < |ran| ==> Runnable(tools, c, ran[k].0))
  {
    match schema(call.name, input)
    case Parsed(data) => MutatingRunsSnoc(tools, before, (call.name, data));
    case Unparsed(_) => assert before + [] == before;
  }

  /** Mutating runs are mutating dispatches whose inputs parse, and runnable tools are those of permitted calls. */
  lemma {:induction false} RunsAreDispatches(tools: Registry, c: Context, sanitize: string -> string, schema: Schema,
                                             dispatched: seq<Call>)
    requires forall k :: 0 <= k < |dispatched| ==> Permitted(tools, c, dispatched[k])
    ensures var ran := Invocations(sanitize, schema, dispatched);
            && MutatingRuns(tools, ran) <= Mutations(tools, dispatched)
            && (forall k :: 0 <= k < |ran| ==> Runnable(tools, c, ran[k].0))
  {
    if dispatched != [] {
      var init, call := dispatched[..|dispatched| - 1], dispatched[|dispatched| - 1];
      RunsAreDispatches(tools, c, sanitize, schema, init);
      OneRun(tools, c, schema, Invocations(sanitize, schema, init), call, sanitize(call.arguments));
    }
  }

  ghost function MutatingRunsFrom(tools: Registry, ran: seq<(string, string)>, from: nat): set<nat> {
    set k: nat | from <= k < |ran| && ran[k].0 in tools
                 && (tools[ran[k].0].isMutation || tools[ran[k].0].riskLevel == WRITE
                     || tools[ran[k].0].riskLevel == EXTERNAL_SIDE_EFFECT)
  }

  lemma {:induction false} MutatingRunsAreCounted(tools: Registry, ran0: seq<(string, string)>,
                                                  ran: seq<(string, string)>)
    ensures |MutatingRunsFrom(tools, ran0 + ran, |ran0|)| == MutatingRuns(tools, ran)
  {
    if ran == [] {
      assert MutatingRunsFrom(tools, ran0 + ran, |ran0|) == {};
    } else {
      var init, last := ran[..|ran| - 1], ran[|ran| - 1];
      var all, before := ran0 + ran, ran0 + init;
      MutatingRunsAreCounted(tools, ran0, init);
      assert all == before + [last];
      var n := |before|;
      assert MutatingRunsFrom(tools, all, |ran0|)
             == MutatingRunsFrom(tools, before, |ran0|) + if last.0 in tools && Mutates(tools[last.0]) then {n} else {};
    }
  }

  lemma RunsInv(tools: Registry, c: Context, sanitize: string -> string, schema: Schema, calls: seq<Call>)
    ensures var ran := Invocations(sanitize, schema, Dispatched(tools, c, calls));
            && |MutatingRunsFrom(tools, ran, 0)| <= 3
            && forall k :: 0 <= k < |ran| ==> Runnable(tools, c, ran[k].0)
  {
    var ran := Invocations(sanitize, schema, Dispatched(tools, c, calls));
    DispatchInv(tools, c, calls);
    RunsAreDispatches(tools, c, sanitize, schema, Dispatched(tools, c, calls));
    MutatingRunsAreCounted(tools, [], ran);
    assert [] + ran == ran;
  }

  /** Of the runs after the first ones, all are of runnable tools, and at most three mutate. */
  ghost predicate SafeRuns(tools: Registry, c: Context, ran0: seq<(string, string)>, ran: seq<(string, string)>) {
    && |MutatingRunsFrom(tools, ran, |ran0|)| <= 3
    && forall k :: |ran0| <= k < |ran| ==> Runnable(tools, c, ran[k].0)
  }

  lemma SafeRunsMean(tools: Registry, c: Context, ran0: seq<(string, string)>, ran: seq<(string, string)>)
    requires SafeRuns(tools, c, ran0, ran)
    ensures forall k :: |ran0| <= k < |ran| ==> Runnable(tools, c, ran[k].0)
    ensures |set k: nat | |ran0| <= k < |ran| && ran[k].0 in tools
                          && (tools[ran[k].0].isMutation || tools[ran[k].0].riskLevel == WRITE
                              || tools[ran[k].0].riskLevel == EXTERNAL_SIDE_EFFECT)| <= 3
  {
    assert MutatingRunsFrom(tools, ran, |ran0|)
           == set k: nat | |ran0| <= k < |ran| && ran[k].0 in tools
                           && (tools[ran[k].0].isMutation || tools[ran[k].0].riskLevel == WRITE
                               || tools[ran[k].0].riskLevel == EXTERNAL_SIDE_EFFECT);
  }

  lemma NoRunsAreSafe(tools: Registry, c: Context, ran: seq<(string, string)>)
    ensures SafeRuns(tools, c, ran, ran)
  {
    assert MutatingRunsFrom(tools, ran, |ran|) == {};
  }

  /** Whatever calls are requested, only runnable tools run, and at most three runs mutate. */
  lemma RunsAreSafe(tools: Registry, c: Context, sanitize: string -> string, schema: Schema, calls: seq<Call>)
    ensures var ran := Invocations(sanitize, schema, Dispatched(tools, c, calls));
            && |set k: nat | k < |ran| && ran[k].0 in tools
                             && (tools[ran[k].0].isMutation || tools[ran[k].0].riskLevel == WRITE
                                 || tools[ran[k].0].riskLevel == EXTERNAL_SIDE_EFFECT)| <= 3
            && forall k :: 0 <= k < |ran| ==> Runnable(tools, c, ran[k].0)
  {
    RunsInv(tools, c, sanitize, schema, calls);
    var ran := Invocations(sanitize, schema, Dispatched(tools, c, calls));
    SafeRunsMean(tools, c, [], ran);
    assert MutatingRunsFrom(tools, ran, 0)
           == set k: nat | k < |ran| && ran[k].0 in tools
                           && (tools[ran[k].0].isMutation || tools[ran[k].0].riskLevel == WRITE
                               || tools[ran[k].0].riskLevel == EXTERNAL_SIDE_EFFECT);
  }

  // ---- What a run says -----------------------------------------------------------------------------------------

  const DUPLICATE: string := "You have already called this tool with these exact parameters and received the output."
  const NO_ANSWER: string := "I was unable to find an answer to your query."
  const TOOL_LIMIT_SAID: string := "I have reached the maximum allowed tool call limit."
  const TOOL_LIMIT_ASKED: string := "Maximum tool execution limit reached."
  const TOOL_LIMIT_ANSWER: string := "Tool execution limit reached. Please refine your query."
  const STEP_LIMIT_ASKED: string := "Maximum reasoning steps reached."
  const STEP_LIMIT_ANSWER: string := "Reasoning limit reached before completing full analysis."

  /** What a request to the model carries beside the messages. */
  datatype Options = Options(tools: Option<seq<Definition>>, temperature: real, timeoutMs: nat, maxTokens: nat)

  /** What a run works with; `base` counts the tool invocations made before it. */
  datatype Setting = Setting(tools: Registry, c: Context, sanitize: string -> string, schema: Schema,
                             behaviour: Behaviour, base: nat, options: Options, sources: Option<seq<Source>>)

  function TextOf(result: ToolResult): string {
    match result
    case Succeeded(data) => data
    case ToolError(error) => error
  }

  /** Why a call is not dispatched: the policy's reason, else that it repeats a call. */
  ghost function Refusal(tools: Registry, c: Context, before: seq<Call>, call: Call,
                         sanitize: string -> string): string {
    match EvaluateToolExecution(GetTool(tools, call.name), c, call.arguments, Mutations(tools, before), None, sanitize)
    case Denied(_, reason) => reason
    case Allowed(_) => DUPLICATE
  }

  /** The answer to a call after those handled before: the sanitized result of its tool, or the sanitized refusal. */
  ghost function OutputOf(s: Setting, before: seq<Call>, call: Call): Message {
    var d := Dispatched(s.tools, s.c, before);
    var n := s.base + |Invocations(s.sanitize, s.schema, d)|;
    var result := if Dispatches(s.tools, s.c, d, call)
                  then ResultOf(s.schema, s.behaviour, n, call.name, s.sanitize(call.arguments))
                  else ToolError(Refusal(s.tools, s.c, d, call, s.sanitize));
    ToolOutput(call.name, call.id, s.sanitize(TextOf(result)))
  }

  /** The answers to the calls of one reply, in order. */
  ghost function OutputsOf(s: Setting, before: seq<Call>, batch: seq<Call>): seq<Message> {
    if batch == [] then []
    else
      var init := batch[..|batch| - 1];
      OutputsOf(s, before, init) + [OutputOf(s, before + init, batch[|batch| - 1])]
  }

  /** Array.from(new Set(names)): each name once, by first occurrence. */
  function Distinct(names: seq<string>): (d: seq<string>)
    ensures forall n :: n in d <==> n in names
    ensures forall i, j :: 0 <= i < j < |d| ==> d[i] != d[j]
  {
    if names == [] then []
    else
      var d, last := Distinct(names[..|names| - 1]), names[|names| - 1];
      assert forall n :: n in names <==> n in names[..|names| - 1] || n == last;
      if last in d then d else d + [last]
  }

  /** Of two names the one that is first used first comes first. */
  lemma {:induction false} DistinctKeepsOrder(names: seq<string>, i: nat, j: nat, m: nat)
    requires var d := Distinct(names); i < j < |d| && m < |names| && names[m] == d[j]
    ensures exists n :: 0 <= n < m && names[n] == Distinct(names)[i]
  {
    var init, last := names[..|names| - 1], names[|names| - 1];
    var before := Distinct(init);
    if j < |before| {
      var m' := if m < |init| then m else FirstUse(init, before[j]);
      DistinctKeepsOrder(init, i, j, m');
      var n :| 0 <= n < m' && init[n] == before[i];
      assert names[n] == Distinct(names)[i];
    } else {
      assert before[i] in init && last !in init;
      var n :| 0 <= n < |init| && init[n] == before[i];
      assert names[n] == Distinct(names)[i];
    }
  }

  function FirstUse(names: seq<string>, name: string): (n: nat)
    requires name in names
    ensures n < |names| && names[n] == name
  {
    if names[0] == name then 0 else 1 + FirstUse(names[1..], name)
  }

  lemma MutationsSnoc(tools: Registry, calls: seq<Call>, call: Call)
    ensures Mutations(tools, calls + [call]) == Mutations(tools, calls) + if IsMutating(tools, call) then 1 else 0
  {
    assert (calls + [call])[..|calls|] == calls;
  }

  lemma SignatureInSnoc(calls: seq<Call>, call: Call, signature: string)
    ensures SignatureIn(calls + [call], signature) <==> SignatureIn(calls, signature) || Signature(call) == signature
  {
    var all := calls + [call];
    assert all[|calls|] == call;
    if SignatureIn(calls, signature) {
      var k :| 0 <= k < |calls| && Signature(calls[k]) == signature;
      assert all[k] == calls[k];
    }
  }

  /** The run's counters: mutating dispatches, signatures already let through, names of the tools asked for. */
  datatype Books = Books(mutationCalls: nat, callSignatures: map<string, nat>, toolsUsed: seq<string>)

  ghost predicate Bookkept(tools: Registry, calls: seq<Call>, dispatched: seq<Call>, b: Books) {
    && b.mutationCalls == Mutations(tools, dispatched)
    && (forall s :: s in b.callSignatures <==> SignatureIn(dispatched, s))
    && (forall s :: s in b.callSignatures ==> b.callSignatures[s] >= 1)
    && b.toolsUsed == Names(calls)
  }

  ghost function Names(calls: seq<Call>): (names: seq<string>)
    ensures |names| == |calls|
  {
    seq(|calls|, i requires 0 <= i < |calls| => calls[i].name)
  }

  lemma BooksAfterDispatch(tools: Registry, calls: seq<Call>, dispatched: seq<Call>, b: Books, call: Call, b': Books)
    requires Bookkept(tools, calls, dispatched, b) && Signature(call) !in b.callSignatures
    requires b'.mutationCalls == b.mutationCalls + if IsMutating(tools, call) then 1 else 0
    requires b'.callSignatures == b.callSignatures[Signature(call) := 1] && b'.toolsUsed == b.toolsUsed + [call.name]
    ensures Bookkept(tools, calls + [call], dispatched + [call], b')
  {
    MutationsSnoc(tools, dispatched, call);
    forall s ensures s in b'.callSignatures <==> SignatureIn(dispatched + [call], s) {
      SignatureInSnoc(dispatched, call, s);
    }
    assert Names(calls + [call]) == Names(calls) + [call.name];
  }

  lemma BooksAfterRefusal(tools: Registry, calls: seq<Call>, dispatched: seq<Call>, b: Books, call: Call, b': Books)
    requires Bookkept(tools, calls, dispatched, b)
    requires b'.mutationCalls == b.mutationCalls && b'.toolsUsed == b.toolsUsed + [call.name]
    requires b'.callSignatures.Keys == b.callSignatures.Keys
    requires forall s :: s in b'.callSignatures ==> b'.callSignatures[s] >= 1
    ensures Bookkept(tools, calls + [call], dispatched, b')
  {
    assert Names(calls + [call]) == Names(calls) + [call.name];
  }

  /** Exactly when the policy allows a call, and when it asks for a confirmation; what it allows it sanitizes. */
  lemma PolicyAllowsIff(tools: Registry, c: Context, call: Call, mutationCalls: nat, maxMutations: Option<nat>,
                        sanitize: string -> string)
    ensures var evaluation :=
              EvaluateToolExecution(GetTool(tools, call.name), c, call.arguments, mutationCalls, maxMutations,
                                    sanitize);
            && (evaluation.Allowed? <==>
                  && call.name in tools && c.organizationId != "" && c.userId != ""
                  && c.userRole.Some? && c.userRole.value in tools[call.name].requiredRoles
                  && tools[call.name].riskLevel != DESTRUCTIVE && !tools[call.name].requiresConfirmation
                  && (tools[call.name].isMutation || tools[call.name].riskLevel == WRITE
                      || tools[call.name].riskLevel == EXTERNAL_SIDE_EFFECT ==>
                        mutationCalls < if maxMutations.Some? then maxMutations.value else 3))
            && (evaluation.Allowed? ==> evaluation.sanitizedInput == sanitize(call.arguments))
            && (evaluation.Denied? && evaluation.requiresConfirmation <==>
                  && call.name in tools && c.organizationId != "" && c.userId != ""
                  && c.userRole.Some? && c.userRole.value in tools[call.name].requiredRoles
                  && (tools[call.name].riskLevel == DESTRUCTIVE || tools[call.name].requiresConfirmation))
  {
  }

  /** The policy's verdict and the duplicate check together decide whether a call is dispatched. */
  method Judge(tools: Registry, c: Context, call: Call, ghost calls: seq<Call>, ghost dispatched: seq<Call>, b: Books,
               sanitize: string -> string)
    returns (dispatch: bool, input: string, reason: string, b': Books)
    requires ValidateRequestContext(c).None? && Bookkept(tools, calls, dispatched, b)
    ensures dispatch <==> Dispatches(tools, c, dispatched, call)
    ensures if dispatch then input == sanitize(call.arguments)
        else reason == Refusal(tools, c, dispatched, call, sanitize)
    ensures Bookkept(tools, calls + [call], if dispatch then dispatched + [call] else dispatched, b')
  {
    dispatch, input, reason := false, "", "";
    b' := b.(toolsUsed := b.toolsUsed + [call.name]);
    var tool := GetTool(tools, call.name);
    var securityEval := EvaluateToolExecution(tool, c, call.arguments, b.mutationCalls, None, sanitize);
    PolicyAllowsIff(tools, c, call, b.mutationCalls, None, sanitize);
    if securityEval.Denied? {
      reason := securityEval.reason;
      BooksAfterRefusal(tools, calls, dispatched, b, call, b');
    } else {
      var signature := Signature(call);
      var callCount := (if signature in b.callSignatures then b.callSignatures[signature] else 0) + 1;
      b' := b'.(callSignatures := b.callSignatures[signature := callCount]);
      if callCount >= 2 {
        reason := DUPLICATE;
        BooksAfterRefusal(tools, calls, dispatched, b, call, b');
      } else {
        dispatch, input := true, securityEval.sanitizedInput;
        if Mutates(tool.value) {
          b' := b'.(mutationCalls := b.mutationCalls + 1);
        }
        BooksAfterDispatch(tools, calls, dispatched, b, call, b');
      }
    }
  }

  /** The tools ran exactly the dispatched ones of the calls, after what they ran before. */
  ghost predicate RanFor(s: Setting, ran0: seq<(string, string)>, ran: seq<(string, string)>, calls: seq<Call>) {
    |ran0| == s.base && ran == ran0 + Invocations(s.sanitize, s.schema, Dispatched(s.tools, s.c, calls))
  }

  ghost predicate Booked(s: Setting, calls: seq<Call>, b: Books) {
    Bookkept(s.tools, calls, Dispatched(s.tools, s.c, calls), b)
  }

  lemma DispatchedSnoc(s: Setting, ran0: seq<(string, string)>, calls: seq<Call>, call: Call)
    ensures var d := Dispatched(s.tools, s.c, calls);
            var d' := if Dispatches(s.tools, s.c, d, call) then d + [call] else d;
            && Dispatched(s.tools, s.c, calls + [call]) == d'
            && ran0 + Invocations(s.sanitize, s.schema, d')
               == (ran0 + Invocations(s.sanitize, s.schema, d))
                  + if d' == d then [] else Invocation(s.schema, call.name, s.sanitize(call.arguments))
  {
    assert (calls + [call])[..|calls|] == calls;
    var d := Dispatched(s.tools, s.c, calls);
    assert (d + [call])[..|d|] == d;
  }

  lemma OutputIs(s: Setting, before: seq<Call>, call: Call, n: nat, result: ToolResult)
    requires var d := Dispatched(s.tools, s.c, before);
             && n == s.base + |Invocations(s.sanitize, s.schema, d)|
             && result == if Dispatches(s.tools, s.c, d, call)
                          then ResultOf(s.schema, s.behaviour, n, call.name, s.sanitize(call.arguments))
                          else ToolError(Refusal(s.tools, s.c, d, call, s.sanitize))
    ensures OutputOf(s, before, call) == ToolOutput(call.name, call.id, s.sanitize(TextOf(result)))
  {
  }

  method RunOrRefuse(tools: Registry, c: Context, call: Call, dispatch: bool, input: string, reason: string,
                     box: ToolBox)
    returns (toolResult: ToolResult)
    requires ValidateRequestContext(c).None? && (dispatch ==> Permitted(tools, c, call))
    modifies box
    ensures toolResult == if dispatch then ResultOf(box.schema, box.behaviour, |old(box.ran)|, call.name, input)
                          else ToolError(reason)
    ensures box.ran == old(box.ran) + if dispatch then Invocation(box.schema, call.name, input) else []
  {
    toolResult := ToolError(reason);
    if dispatch {
      toolResult := ExecuteTool(tools, call.name, c, input, box);
    }
  }

  ghost predicate InSetting(s: Setting, tools: Registry, c: Context, sanitize: string -> string, box: ToolBox) {
    s.tools == tools && s.c == c && s.sanitize == sanitize && s.schema == box.schema && s.behaviour == box.behaviour
  }

  /** One requested call: dispatched or refused, and answered with one output. */
  method HandleCall(tools: Registry, c: Context, call: Call, messages: seq<Message>, b: Books, box: ToolBox,
                    sanitize: string -> string, ghost s: Setting, ghost ran0: seq<(string, string)>,
                    ghost calls: seq<Call>)
    returns (messages': seq<Message>, b': Books)
    requires ValidateRequestContext(c).None? && InSetting(s, tools, c, sanitize, box)
    requires RanFor(s, ran0, box.ran, calls) && Booked(s, calls, b)
    modifies box
    ensures RanFor(s, ran0, box.ran, calls + [call]) && Booked(s, calls + [call], b')
    ensures messages' == messages + [OutputOf(s, calls, call)]
    ensures var input := sanitize(call.arguments);
            Dispatches(tools, c, Dispatched(tools, c, calls), call) && box.schema(call.name, input).Parsed? ==>
              && box.ran == old(box.ran) + [(call.name, box.schema(call.name, input).data)]
              && messages' == messages + [
                   match box.behaviour(|old(box.ran)|, call.name, box.schema(call.name, input).data)
                   case Succeeded(data) => ToolOutput(call.name, call.id, sanitize(data))
                   case ToolError(error) => ToolOutput(call.name, call.id, sanitize(error))]
  {
    ghost var dispatched := Dispatched(tools, c, calls);
    var dispatch, input, reason, books := Judge(tools, c, call, calls, dispatched, b, sanitize);
    DispatchedSnoc(s, ran0, calls, call);
    var toolResult := RunOrRefuse(tools, c, call, dispatch, input, reason, box);
    OutputIs(s, calls, call, |old(box.ran)|, toolResult);
    messages' := messages + [ToolOutput(call.name, call.id, sanitize(TextOf(toolResult)))];
    b' := books;
  }

  lemma AppendNext(before: seq<Call>, calls: seq<Call>, k: nat)
    requires k < |calls|
    ensures (before + calls[..k]) + [calls[k]] == before + calls[..k + 1]
  {
  }

  lemma OutputsNext(s: Setting, messages: seq<Message>, before: seq<Call>, batch: seq<Call>, k: nat)
    requires k < |batch|
    ensures (messages + OutputsOf(s, before, batch[..k])) + [OutputOf(s, before + batch[..k], batch[k])]
            == messages + OutputsOf(s, before, batch[..k + 1])
  {
    assert batch[..k + 1][..k] == batch[..k];
  }

  /** The requested calls of one reply, one after another. */
  method HandleCalls(tools: Registry, c: Context, toolCalls: seq<Call>, messages0: seq<Message>, b0: Books,
                     box: ToolBox, sanitize: string -> string, ghost s: Setting, ghost ran0: seq<(string, string)>,
                     ghost calls0: seq<Call>)
    returns (messages: seq<Message>, b: Books)
    requires ValidateRequestContext(c).None? && InSetting(s, tools, c, sanitize, box)
    requires RanFor(s, ran0, box.ran, calls0) && Booked(s, calls0, b0)
    modifies box
    ensures RanFor(s, ran0, box.ran, calls0 + toolCalls) && Booked(s, calls0 + toolCalls, b)
    ensures messages == messages0 + OutputsOf(s, calls0, toolCalls)
  {
    messages, b := messages0, b0;
    assert calls0 + toolCalls[..0] == calls0;
    for k := 0 to |toolCalls|
      invariant RanFor(s, ran0, box.ran, calls0 + toolCalls[..k]) && Booked(s, calls0 + toolCalls[..k], b)
      invariant messages == messages0 + OutputsOf(s, calls0, toolCalls[..k])
    {
      messages, b := HandleCall(tools, c, toolCalls[k], messages, b, box, sanitize, s, ran0, calls0 + toolCalls[..k]);
      AppendNext(calls0, toolCalls, k);
      OutputsNext(s, messages0, calls0, toolCalls, k);
    }
    assert toolCalls[..|toolCalls|] == toolCalls;
  }

  // ---- The model -------------------------------------------------------------------------------------------------

  datatype Exchange = Exchange(messages: seq<Message>, options: Options, reply: Reply)
  {
    predicate WithTools() {
      options.tools.Some?
    }
  }

  class LanguageModel {
    const answer: (nat, seq<Message>, Options) -> Reply
    var asked: seq<Exchange>

    constructor (answer: (nat, seq<Message>, Options) -> Reply)
      ensures this.answer == answer && asked == []
    {
      this.answer, asked := answer, [];
    }

    method Generate(messages: seq<Message>, options: Options) returns (reply: Reply)
      modifies this
      ensures reply == answer(|old(asked)|, messages, options)
      ensures asked == old(asked) + [Exchange(messages, options, reply)]
    {
      reply := answer(|asked|, messages, options);
      asked := asked + [Exchange(messages, options, reply)];
    }
  }

  // ---- Runs as the model sees them -------------------------------------------------------------------------------

  ghost predicate WithinLimit(taken: seq<Call>, e: Exchange, maxToolCalls: nat) {
    e.WithTools() && e.reply.Reply? && |taken| + |e.reply.toolCalls| <= maxToolCalls
  }

  /** The calls a run takes on: those of each reply to a request with tools, as long as they stay within the limit. */
  ghost function TakenOn(asked: seq<Exchange>, maxToolCalls: nat): (calls: seq<Call>)
    ensures |calls| <= maxToolCalls
  {
    if asked == [] then []
    else
      var before, e := TakenOn(asked[..|asked| - 1], maxToolCalls), asked[|asked| - 1];
      if WithinLimit(before, e, maxToolCalls) then before + e.reply.toolCalls else before
  }

  /** The conversation after exchanges whose calls were taken on: each reply and the answers to its calls. */
  ghost function Conversation(s: Setting, start: seq<Message>, asked: seq<Exchange>, maxToolCalls: nat): seq<Message> {
    if asked == [] then start
    else
      var init, reply := asked[..|asked| - 1], asked[|asked| - 1].reply;
      if reply.Failed? then Conversation(s, start, init, maxToolCalls)
      else
        Conversation(s, start, init, maxToolCalls) + [Assistant(reply.content)]
        + OutputsOf(s, TakenOn(init, maxToolCalls), reply.toolCalls)
  }

  /** The exchange shows the model the whole conversation so far, and the tools. */
  ghost predicate Asks(s: Setting, start: seq<Message>, init: seq<Exchange>, e: Exchange, maxToolCalls: nat) {
    e.options == s.options && e.WithTools() && e.messages == Conversation(s, start, init, maxToolCalls)
  }

  /** Every exchange asked, and got calls within the limit. */
  ghost predicate Going(s: Setting, start: seq<Message>, asked: seq<Exchange>, maxToolCalls: nat) {
    asked == [] ||
    var init, e := asked[..|asked| - 1], asked[|asked| - 1];
    && Going(s, start, init, maxToolCalls) && Asks(s, start, init, e, maxToolCalls)
    && WithinLimit(TakenOn(init, maxToolCalls), e, maxToolCalls) && e.reply.toolCalls != []
  }

  /** The last exchange got more calls than the limit leaves. */
  ghost predicate AtToolLimit(s: Setting, start: seq<Message>, asked: seq<Exchange>, maxSteps: nat, maxToolCalls: nat) {
    asked != [] &&
    var init, e := asked[..|asked| - 1], asked[|asked| - 1];
    && Going(s, start, init, maxToolCalls) && |init| < maxSteps && Asks(s, start, init, e, maxToolCalls)
    && e.reply.Reply? && !WithinLimit(TakenOn(init, maxToolCalls), e, maxToolCalls)
  }

  function OrElse(content: string, fallback: string): string {
    if content != "" then content else fallback
  }

  /** How a run may end: with a reply that asks for no tools, at the limit of calls, or at the limit of steps. */
  ghost predicate Finished(s: Setting, start: seq<Message>, asked: seq<Exchange>, maxSteps: nat, maxToolCalls: nat) {
    asked != [] &&
    var init, e := asked[..|asked| - 1], asked[|asked| - 1];
    if e.WithTools() then
      && Going(s, start, init, maxToolCalls) && |init| < maxSteps && Asks(s, start, init, e, maxToolCalls)
      && (e.reply.Failed? || e.reply.toolCalls == [])
    else if AtToolLimit(s, start, init, maxSteps, maxToolCalls) then
      && e.options == s.options.(tools := None)
      && e.messages == Conversation(s, start, init[..|init| - 1], maxToolCalls)
                       + [Assistant(OrElse(init[|init| - 1].reply.content, TOOL_LIMIT_SAID)), User(TOOL_LIMIT_ASKED)]
    else
      && e.options == s.options.(tools := None)
      && Going(s, start, init, maxToolCalls) && |init| == maxSteps
      && e.messages == Conversation(s, start, init, maxToolCalls) + [User(STEP_LIMIT_ASKED)]
  }

  ghost function Fallback(s: Setting, start: seq<Message>, asked: seq<Exchange>, maxSteps: nat,
                          maxToolCalls: nat): string
    requires asked != []
  {
    if asked[|asked| - 1].WithTools() then NO_ANSWER
    else if AtToolLimit(s, start, asked[..|asked| - 1], maxSteps, maxToolCalls) then TOOL_LIMIT_ANSWER
    else STEP_LIMIT_ANSWER
  }

  /** The response tells of the run: its last reply, its steps, and the calls it took on. */
  ghost predicate Tells(s: Setting, start: seq<Message>, o: Outcome, asked: seq<Exchange>, maxSteps: nat,
                        maxToolCalls: nat)
    requires asked != []
  {
    var e, calls := asked[|asked| - 1], TakenOn(asked, maxToolCalls);
    if e.reply.Failed? then o == ProviderError
    else
      && o.Response?
      && o.answer == s.sanitize(OrElse(e.reply.content, Fallback(s, start, asked, maxSteps, maxToolCalls)))
      && o.stepsCount == (if e.WithTools() then |asked| else |asked| - 1)
      && o.toolCallsCount == |calls|
      && o.toolsUsed == Distinct(Names(calls))
      && o.sources == s.sources && o.usage == e.reply.usage
  }

  lemma LimitOffersTools(s: Setting, start: seq<Message>, asked: seq<Exchange>, maxSteps: nat, maxToolCalls: nat)
    requires AtToolLimit(s, start, asked, maxSteps, maxToolCalls)
    ensures |asked| <= maxSteps && forall k :: 0 <= k < |asked| ==> asked[k].WithTools()
  {
    var going := asked[..|asked| - 1];
    GoingOffersTools(s, start, going, maxToolCalls);
    assert forall k :: 0 <= k < |going| ==> asked[k] == going[k];
  }

  /** A finished run asked at most maxSteps times with tools and once without. */
  lemma FinishedWithinSteps(s: Setting, start: seq<Message>, asked: seq<Exchange>, maxSteps: nat, maxToolCalls: nat)
    requires Finished(s, start, asked, maxSteps, maxToolCalls)
    ensures |asked| <= maxSteps + 1
    ensures forall k :: 0 <= k < |asked| - 1 ==> asked[k].WithTools()
  {
    var init, e := asked[..|asked| - 1], asked[|asked| - 1];
    if !e.WithTools() && AtToolLimit(s, start, init, maxSteps, maxToolCalls) {
      LimitOffersTools(s, start, init, maxSteps, maxToolCalls);
      assert forall k :: 0 <= k < |init| ==> asked[k] == init[k];
    } else {
      GoingOffersTools(s, start, init, maxToolCalls);
      assert forall k :: 0 <= k < |init| ==> asked[k] == init[k];
    }
  }

  lemma {:induction false} GoingOffersTools(s: Setting, start: seq<Message>, asked: seq<Exchange>, maxToolCalls: nat)
    requires Going(s, start, asked, maxToolCalls)
    ensures forall k :: 0 <= k < |asked| ==> asked[k].WithTools()
  {
    if asked != [] {
      var init := asked[..|asked| - 1];
      GoingOffersTools(s, start, init, maxToolCalls);
      assert forall k :: 0 <= k < |init| ==> asked[k] == init[k];
    }
  }

  // ---- The orchestrator --------------------------------------------------------------------------------------------

  datatype Outcome =
    | Response(answer: string, stepsCount: nat, toolCallsCount: nat, toolsUsed: seq<string>,
               sources: Option<seq<Source>>, usage: Option<Usage>)
    | ContextRejected(error: ContextError)
    | EmptyMessage
    | ProviderError

  lemma ExchangeSnoc(s: Setting, start: seq<Message>, asked: seq<Exchange>, e: Exchange, maxToolCalls: nat)
    ensures var taken, after := TakenOn(asked, maxToolCalls), asked + [e];
            && after[..|after| - 1] == asked && after[|after| - 1] == e
            && TakenOn(after, maxToolCalls)
               == (if WithinLimit(taken, e, maxToolCalls) then taken + e.reply.toolCalls else taken)
            && (e.reply.Reply? ==>
                  Conversation(s, start, after, maxToolCalls)
                  == Conversation(s, start, asked, maxToolCalls) + [Assistant(e.reply.content)]
                      + OutputsOf(s, taken, e.reply.toolCalls))
  {
    assert (asked + [e])[..|asked|] == asked;
  }

  /** The request that ends a run, and the text that stands in for an empty reply to it. */
  ghost predicate EndsRun(s: Setting, start: seq<Message>, asked: seq<Exchange>, maxSteps: nat, maxToolCalls: nat,
                          messages: seq<Message>, options: Options, fallback: string)
  {
    if options.tools.Some? then
      options == s.options && Going(s, start, asked, maxToolCalls) && |asked| < maxSteps
      && messages == Conversation(s, start, asked, maxToolCalls) && fallback == NO_ANSWER
    else if AtToolLimit(s, start, asked, maxSteps, maxToolCalls) then
      options == s.options.(tools := None) && messages == Conversation(s, start, asked[..|asked| - 1], maxToolCalls)
                  + [Assistant(OrElse(asked[|asked| - 1].reply.content, TOOL_LIMIT_SAID)), User(TOOL_LIMIT_ASKED)]
      && fallback == TOOL_LIMIT_ANSWER
    else
      options == s.options.(tools := None) && Going(s, start, asked, maxToolCalls) && |asked| == maxSteps
      && messages == Conversation(s, start, asked, maxToolCalls) + [User(STEP_LIMIT_ASKED)]
         && fallback == STEP_LIMIT_ANSWER
  }

  lemma LastExchange(s: Setting, start: seq<Message>, asked: seq<Exchange>, maxSteps: nat, maxToolCalls: nat,
                     e: Exchange, fallback: string)
    requires EndsRun(s, start, asked, maxSteps, maxToolCalls, e.messages, e.options, fallback)
    requires e.WithTools() && e.reply.Reply? ==> e.reply.toolCalls == []
    ensures Finished(s, start, asked + [e], maxSteps, maxToolCalls)
    ensures TakenOn(asked + [e], maxToolCalls) == TakenOn(asked, maxToolCalls)
    ensures Fallback(s, start, asked + [e], maxSteps, maxToolCalls) == fallback
  {
    ExchangeSnoc(s, start, asked, e, maxToolCalls);
  }

  /** The outcome of a run, from its last reply. */
  method Conclude(reply: Reply, fallback: string, step: nat, totalToolCalls: nat, toolsUsed: seq<string>,
                  sources: Option<seq<Source>>, sanitize: string -> string, ghost s: Setting, ghost start: seq<Message>,
                  ghost asked: seq<Exchange>, ghost maxSteps: nat, ghost maxToolCalls: nat, ghost e: Exchange)
    returns (o: Outcome)
    requires e.reply == reply && sanitize == s.sanitize && sources == s.sources
             && (e.WithTools() && reply.Reply? ==> reply.toolCalls == [])
    requires EndsRun(s, start, asked, maxSteps, maxToolCalls, e.messages, e.options, fallback)
    requires step == (if e.WithTools() then |asked| + 1 else |asked|)
    requires totalToolCalls == |TakenOn(asked, maxToolCalls)| && toolsUsed == Names(TakenOn(asked, maxToolCalls))
    ensures Finished(s, start, asked + [e], maxSteps, maxToolCalls)
    ensures TakenOn(asked + [e], maxToolCalls) == TakenOn(asked, maxToolCalls)
    ensures Tells(s, start, o, asked + [e], maxSteps, maxToolCalls)
  {
    LastExchange(s, start, asked, maxSteps, maxToolCalls, e, fallback);
    if reply.Failed? {
      return ProviderError;
    }
    o := Response(sanitize(OrElse(reply.content, fallback)), step, totalToolCalls, Distinct(toolsUsed), sources,
                  reply.usage);
  }

  /** Between two steps of the loop. */
  ghost predicate InLoop(s: Setting, start: seq<Message>, asked: seq<Exchange>, maxToolCalls: nat,
                         messages: seq<Message>, b: Books, ran0: seq<(string, string)>, ran: seq<(string, string)>)
  {
    && Going(s, start, asked, maxToolCalls) && messages == Conversation(s, start, asked, maxToolCalls)
    && Booked(s, TakenOn(asked, maxToolCalls), b) && RanFor(s, ran0, ran, TakenOn(asked, maxToolCalls))
  }

  lemma NotAtToolLimit(s: Setting, start: seq<Message>, asked: seq<Exchange>, maxSteps: nat, maxToolCalls: nat)
    requires Going(s, start, asked, maxToolCalls)
    ensures !AtToolLimit(s, start, asked, maxSteps, maxToolCalls)
  {
  }

  /** The calls of a reply are taken on. */
  method TakeCalls(tools: Registry, c: Context, response: Reply, messages: seq<Message>, b: Books, box: ToolBox,
                   sanitize: string -> string,
                   ghost s: Setting, ghost start: seq<Message>, ghost asked: seq<Exchange>, ghost maxToolCalls: nat,
                   ghost ran0: seq<(string, string)>)
    returns (messages': seq<Message>, b': Books)
    requires ValidateRequestContext(c).None? && InSetting(s, tools, c, sanitize, box)
    requires InLoop(s, start, asked, maxToolCalls, messages, b, ran0, box.ran)
    requires s.options.tools.Some?
             && WithinLimit(TakenOn(asked, maxToolCalls), Exchange(messages, s.options, response), maxToolCalls)
                && response.toolCalls != []
    modifies box
    ensures InLoop(s, start, asked + [Exchange(messages, s.options, response)], maxToolCalls, messages', b', ran0,
                   box.ran)
  {
    ghost var e := Exchange(messages, s.options, response);
    ExchangeSnoc(s, start, asked, e, maxToolCalls);
    messages', b' := HandleCalls(tools, c, response.toolCalls, messages + [Assistant(response.content)], b, box,
                                 sanitize, s, ran0, TakenOn(asked, maxToolCalls));
  }

  /** The request that ends a run without offering tools. */
  method AskForAnswer(model: LanguageModel, messages: seq<Message>, options: Options, fallback: string, step: nat,
                      totalToolCalls: nat, toolsUsed: seq<string>, sources: Option<seq<Source>>,
                      sanitize: string -> string, ghost s: Setting, ghost start: seq<Message>,
                      ghost asked: seq<Exchange>, ghost maxSteps: nat, ghost maxToolCalls: nat)
    returns (o: Outcome, ghost e: Exchange)
    requires sanitize == s.sanitize && sources == s.sources && options.tools == None
    requires EndsRun(s, start, asked, maxSteps, maxToolCalls, messages, options, fallback)
    requires step == |asked| && totalToolCalls == |TakenOn(asked, maxToolCalls)|
             && toolsUsed == Names(TakenOn(asked, maxToolCalls))
    modifies model
    ensures model.asked == old(model.asked) + [e]
    ensures Finished(s, start, asked + [e], maxSteps, maxToolCalls)
            && TakenOn(asked + [e], maxToolCalls) == TakenOn(asked, maxToolCalls)
    ensures Tells(s, start, o, asked + [e], maxSteps, maxToolCalls)
  {
    var reply := model.Generate(messages, options);
    e := Exchange(messages, options, reply);
    o := Conclude(reply, fallback, step, totalToolCalls, toolsUsed, sources, sanitize, s, start, asked, maxSteps,
                  maxToolCalls, e);
  }

  lemma OverLimitStops(s: Setting, start: seq<Message>, asked: seq<Exchange>, maxSteps: nat, maxToolCalls: nat,
                       e: Exchange)
    requires Going(s, start, asked, maxToolCalls) && |asked| < maxSteps && Asks(s, start, asked, e, maxToolCalls)
    requires e.reply.Reply? && |TakenOn(asked, maxToolCalls)| + |e.reply.toolCalls| > maxToolCalls
    ensures EndsRun(s, start, asked + [e], maxSteps, maxToolCalls,
                    e.messages + [Assistant(OrElse(e.reply.content, TOOL_LIMIT_SAID)), User(TOOL_LIMIT_ASKED)],
                    s.options.(tools := None), TOOL_LIMIT_ANSWER)
    ensures TakenOn(asked + [e], maxToolCalls) == TakenOn(asked, maxToolCalls)
  {
    ExchangeSnoc(s, start, asked, e, maxToolCalls);
  }

  lemma LogGrows(log: seq<Exchange>, asked: seq<Exchange>, e: Exchange)
    ensures (log + asked) + [e] == log + (asked + [e])
  {
  }

  /** The reasoning loop. */
  method Converse(tools: Registry, c: Context, start: seq<Message>, maxSteps: nat, maxToolCalls: nat, options: Options,
                  sources: Option<seq<Source>>, model: LanguageModel, box: ToolBox, sanitize: string -> string)
    returns (outcome: Outcome, ghost asked: seq<Exchange>)
    requires ValidateRequestContext(c).None? && options.tools.Some?
    modifies model, box
    ensures model.asked == old(model.asked) + asked
    ensures var s := Setting(tools, c, sanitize, box.schema, box.behaviour, |old(box.ran)|, options, sources);
            && Finished(s, start, asked, maxSteps, maxToolCalls)
            && RanFor(s, old(box.ran), box.ran, TakenOn(asked, maxToolCalls))
            && Tells(s, start, outcome, asked, maxSteps, maxToolCalls)
  {
    ghost var s := Setting(tools, c, sanitize, box.schema, box.behaviour, |box.ran|, options, sources);
    ghost var log, ran := model.asked, box.ran;
    var messages := start;
    var b := Books(0, map[], []);
    var step, totalToolCalls := 0, 0;
    asked := [];
    StartOfLoop(s, start, maxToolCalls, b, ran);
    while step < maxSteps
      invariant model.asked == log + asked && |asked| == step <= maxSteps
      invariant InLoop(s, start, asked, maxToolCalls, messages, b, ran, box.ran)
      invariant totalToolCalls == |TakenOn(asked, maxToolCalls)|
      decreases maxSteps - step
    {
      var response := model.Generate(messages, options);
      step := step + 1;
      ghost var before, e := asked, Exchange(messages, s.options, response);
      LogGrows(log, before, e);
      asked := before + [e];
      if response.Failed? || response.toolCalls == [] {
        outcome := Conclude(response, NO_ANSWER, step, totalToolCalls, b.toolsUsed, sources, sanitize, s, start, before,
                            maxSteps, maxToolCalls, e);
        return;
      }
      if totalToolCalls + |response.toolCalls| > maxToolCalls {
        OverLimitStops(s, start, before, maxSteps, maxToolCalls, e);
        messages := messages + [Assistant(OrElse(response.content, TOOL_LIMIT_SAID)), User(TOOL_LIMIT_ASKED)];
        outcome, e := AskForAnswer(model, messages, options.(tools := None), TOOL_LIMIT_ANSWER, step, totalToolCalls,
                                   b.toolsUsed, sources, sanitize, s, start, asked, maxSteps, maxToolCalls);
        LogGrows(log, asked, e);
        asked := asked + [e];
        return;
      }
      messages, b := TakeCalls(tools, c, response, messages, b, box, sanitize, s, start, before, maxToolCalls, ran);
      ExchangeSnoc(s, start, before, e, maxToolCalls);
      totalToolCalls := totalToolCalls + |response.toolCalls|;
    }
    NotAtToolLimit(s, start, asked, maxSteps, maxToolCalls);
    messages := messages + [User(STEP_LIMIT_ASKED)];
    ghost var e;
    outcome, e := AskForAnswer(model, messages, options.(tools := None), STEP_LIMIT_ANSWER, step, totalToolCalls,
                               b.toolsUsed, sources, sanitize, s, start, asked, maxSteps, maxToolCalls);
    LogGrows(log, asked, e);
    asked := asked + [e];
  }

  lemma StartOfLoop(s: Setting, start: seq<Message>, maxToolCalls: nat, b: Books, ran: seq<(string, string)>)
    requires b == Books(0, map[], []) && s.base == |ran|
    ensures InLoop(s, start, [], maxToolCalls, start, b, ran, ran)
  {
    assert Invocations(s.sanitize, s.schema, []) == [] && ran + [] == ran;
  }

  lemma RanSafely(s: Setting, ran0: seq<(string, string)>, ran: seq<(string, string)>, calls: seq<Call>)
    requires RanFor(s, ran0, ran, calls)
    ensures ran0 <= ran && SafeRuns(s.tools, s.c, ran0, ran)
  {
    var new_ := Invocations(s.sanitize, s.schema, Dispatched(s.tools, s.c, calls));
    RunsInv(s.tools, s.c, s.sanitize, s.schema, calls);
    MutatingRunsAreCounted(s.tools, ran0, new_);
    MutatingRunsAreCounted(s.tools, [], new_);
    assert [] + new_ == new_;
    assert forall k :: |ran0| <= k < |ran| ==> ran[k] == new_[k - |ran0|];
  }

  ghost function ToolOutputs(messages: seq<Message>): nat {
    if messages == [] then 0
    else ToolOutputs(messages[..|messages| - 1]) + if messages[|messages| - 1].ToolOutput? then 1 else 0
  }

  lemma {:induction false} ToolOutputsAppend(a: seq<Message>, b: seq<Message>)
    ensures ToolOutputs(a + b) == ToolOutputs(a) + ToolOutputs(b)
  {
    if b == [] {
      assert a + b == a;
    } else {
      var init := b[..|b| - 1];
      assert (a + b)[..|a + b| - 1] == a + init;
      ToolOutputsAppend(a, init);
    }
  }

  lemma {:induction false} OneOutputPerCall(s: Setting, before: seq<Call>, batch: seq<Call>)
    ensures ToolOutputs(OutputsOf(s, before, batch)) == |batch|
  {
    if batch != [] {
      var init := batch[..|batch| - 1];
      OneOutputPerCall(s, before, init);
      var last := [OutputOf(s, before + init, batch[|batch| - 1])];
      ToolOutputsAppend(OutputsOf(s, before, init), last);
      assert last[..0] == [];
    }
  }

  lemma ToolOutputsOfTwo(a: Message, b: Message)
    requires !a.ToolOutput? && !b.ToolOutput?
    ensures ToolOutputs([a]) == 0 && ToolOutputs([a, b]) == 0
  {
    assert [a, b][..1] == [a] && [a][..0] == [];
  }

  /** The conversation holds one tool message for each call taken on. */
  lemma {:induction false} OutputsCountCalls(s: Setting, start: seq<Message>, asked: seq<Exchange>, maxToolCalls: nat)
    requires Going(s, start, asked, maxToolCalls) && ToolOutputs(start) == 0
    ensures ToolOutputs(Conversation(s, start, asked, maxToolCalls)) == |TakenOn(asked, maxToolCalls)|
  {
    if asked != [] {
      var init, e := asked[..|asked| - 1], asked[|asked| - 1];
      OutputsCountCalls(s, start, init, maxToolCalls);
      var c, said := Conversation(s, start, init, maxToolCalls), Assistant(e.reply.content);
      var outputs := OutputsOf(s, TakenOn(init, maxToolCalls), e.reply.toolCalls);
      ToolOutputsOfTwo(said, said);
      ToolOutputsAppend(c, [said]);
      ToolOutputsAppend(c + [said], outputs);
      OneOutputPerCall(s, TakenOn(init, maxToolCalls), e.reply.toolCalls);
    }
  }

  /** The last request of a finished run shows one tool message for each call the run took on. */
  lemma LastRequestCountsCalls(s: Setting, start: seq<Message>, asked: seq<Exchange>, maxSteps: nat, maxToolCalls: nat)
    requires Finished(s, start, asked, maxSteps, maxToolCalls) && ToolOutputs(start) == 0
    ensures ToolOutputs(asked[|asked| - 1].messages) == |TakenOn(asked, maxToolCalls)|
  {
    var init, e := asked[..|asked| - 1], asked[|asked| - 1];
    if !e.WithTools() && AtToolLimit(s, start, init, maxSteps, maxToolCalls) {
      var said := Assistant(OrElse(init[|init| - 1].reply.content, TOOL_LIMIT_SAID));
      OutputsCountCalls(s, start, init[..|init| - 1], maxToolCalls);
      ToolOutputsOfTwo(said, User(TOOL_LIMIT_ASKED));
      ToolOutputsAppend(Conversation(s, start, init[..|init| - 1], maxToolCalls), [said, User(TOOL_LIMIT_ASKED)]);
    } else {
      OutputsCountCalls(s, start, init, maxToolCalls);
      if !e.WithTools() {
        ToolOutputsOfTwo(User(STEP_LIMIT_ASKED), User(STEP_LIMIT_ASKED));
        ToolOutputsAppend(Conversation(s, start, init, maxToolCalls), [User(STEP_LIMIT_ASKED)]);
      }
    }
  }

  /** What a response counts: steps and calls within their limits, and as many calls as tool messages were shown. */
  lemma CountsAreRight(s: Setting, start: seq<Message>, o: Outcome, asked: seq<Exchange>, maxSteps: nat,
                       maxToolCalls: nat)
    requires Finished(s, start, asked, maxSteps, maxToolCalls) && ToolOutputs(start) == 0 && o.Response?
    requires Tells(s, start, o, asked, maxSteps, maxToolCalls)
    ensures o.stepsCount <= maxSteps && o.toolCallsCount <= maxToolCalls
    ensures o.toolCallsCount == ToolOutputs(asked[|asked| - 1].messages)
  {
    FinishedWithinSteps(s, start, asked, maxSteps, maxToolCalls);
    LastRequestCountsCalls(s, start, asked, maxSteps, maxToolCalls);
  }

  function SourcesOf(found: seq<Found>): Option<seq<Source>> {
    if found == [] then None
    else Some(seq(|found|, i requires 0 <= i < |found| =>
                    var m := found[i];
                    Source(m.id, m.sourceType, m.sourceId, if m.title.Some? then m.title else m.metadataTitle,
                           m.similarityScore)))
  }

  /** A response names each source that was found, under its own title or else that of its metadata; or none. */
  lemma SourcesAre(found: seq<Found>)
    ensures SourcesOf(found).None? <==> found == []
    ensures found != [] ==>
              && |SourcesOf(found).value| == |found|
              && forall i :: 0 <= i < |found| ==>
                   var source := SourcesOf(found).value[i];
                   && source.id == found[i].id && source.sourceType == found[i].sourceType
                   && source.sourceId == found[i].sourceId && source.similarityScore == found[i].similarityScore
                   && (found[i].title.Some? ==> source.title == found[i].title)
                   && (found[i].title.None? ==> source.title == found[i].metadataTitle)
  {
  }

  datatype Request = Request(message: string, includeRagContext: Option<bool>, maxSteps: nat, maxToolCalls: nat,
                             temperature: real, timeoutMs: nat, maxTokens: nat)

  /** What a run uses of the retrieval, which is None when it fails. */
  function Retrieved(request: Request, retrieval: Option<seq<Found>>): seq<Found> {
    if request.includeRagContext != Some(false) && retrieval.Some? then retrieval.value else []
  }

  /** The setting of a run, which offers the model the tools that the caller's role may use. */
  ghost function SettingOf(registry: ToolRegistry, c: Context, request: Request, found: seq<Found>, box: ToolBox,
                           base: nat, sanitize: string -> string): Setting
    requires registry.Valid()
    reads registry
  {
    var offered := DefinitionsOf(registry.tools, Offered(registry.order, registry.tools, c.userRole));
    Setting(registry.tools, c, sanitize, box.schema, box.behaviour, base,
            Options(Some(offered), request.temperature, request.timeoutMs, request.maxTokens), SourcesOf(found))
  }

  // ---- What the model is shown -------------------------------------------------------------------------------------

  /** What a user wrote and what tools answered is shown sanitized. */
  ghost predicate Scrubbed(sanitize: string -> string, m: Message) {
    match m
    case User(text) =>
      text == "Maximum tool execution limit reached." || text == "Maximum reasoning steps reached."
      || exists raw :: text == sanitize(raw)
    case ToolOutput(_, _, text) => exists raw :: text == sanitize(raw)
    case _ => true
  }

  ghost predicate AllScrubbed(sanitize: string -> string, messages: seq<Message>) {
    forall i :: 0 <= i < |messages| ==> Scrubbed(sanitize, messages[i])
  }

  lemma {:induction false} OutputsAreScrubbed(s: Setting, before: seq<Call>, batch: seq<Call>)
    ensures AllScrubbed(s.sanitize, OutputsOf(s, before, batch))
  {
    if batch != [] {
      OutputsAreScrubbed(s, before, batch[..|batch| - 1]);
    }
  }

  lemma {:induction false} ConversationIsScrubbed(s: Setting, start: seq<Message>, asked: seq<Exchange>,
                                                  maxToolCalls: nat)
    requires AllScrubbed(s.sanitize, start)
    ensures var c := Conversation(s, start, asked, maxToolCalls); start <= c && AllScrubbed(s.sanitize, c)
  {
    if asked != [] {
      var init := asked[..|asked| - 1];
      ConversationIsScrubbed(s, start, init, maxToolCalls);
      if asked[|asked| - 1].reply.Reply? {
        OutputsAreScrubbed(s, TakenOn(init, maxToolCalls), asked[|asked| - 1].reply.toolCalls);
      }
    }
  }

  /** A request shows the start of the run, nothing that is not scrubbed, and offers the run's tools or none. */
  ghost predicate ShownOk(s: Setting, start: seq<Message>, e: Exchange) {
    && start <= e.messages && AllScrubbed(s.sanitize, e.messages)
    && (e.options == s.options || e.options == s.options.(tools := None))
  }

  lemma {:induction false} GoingIsShown(s: Setting, start: seq<Message>, asked: seq<Exchange>, maxToolCalls: nat)
    requires Going(s, start, asked, maxToolCalls) && AllScrubbed(s.sanitize, start)
    ensures forall k :: 0 <= k < |asked| ==> ShownOk(s, start, asked[k])
  {
    if asked != [] {
      var init := asked[..|asked| - 1];
      GoingIsShown(s, start, init, maxToolCalls);
      ConversationIsScrubbed(s, start, init, maxToolCalls);
      assert forall k :: 0 <= k < |init| ==> asked[k] == init[k];
    }
  }

  lemma LastIsShown(s: Setting, start: seq<Message>, going: seq<Exchange>, e: Exchange, said: seq<Message>,
                    maxToolCalls: nat)
    requires AllScrubbed(s.sanitize, start) && AllScrubbed(s.sanitize, said)
    requires e.messages == Conversation(s, start, going, maxToolCalls) + said
    requires e.options == s.options || e.options == s.options.(tools := None)
    ensures ShownOk(s, start, e)
  {
    ConversationIsScrubbed(s, start, going, maxToolCalls);
  }

  lemma StoppedIsShown(s: Setting, start: seq<Message>, init: seq<Exchange>, e: Exchange, maxSteps: nat,
                       maxToolCalls: nat)
    requires AtToolLimit(s, start, init, maxSteps, maxToolCalls) && AllScrubbed(s.sanitize, start)
    requires e.options == s.options.(tools := None)
    requires e.messages == Conversation(s, start, init[..|init| - 1], maxToolCalls)
                           + [Assistant(OrElse(init[|init| - 1].reply.content, TOOL_LIMIT_SAID)),
                              User(TOOL_LIMIT_ASKED)]
    ensures ShownOk(s, start, e) && forall k :: 0 <= k < |init| ==> ShownOk(s, start, init[k])
  {
    var going, last := init[..|init| - 1], init[|init| - 1];
    GoingIsShown(s, start, going, maxToolCalls);
    LastIsShown(s, start, going, e, [Assistant(OrElse(last.reply.content, TOOL_LIMIT_SAID)), User(TOOL_LIMIT_ASKED)],
                maxToolCalls);
    assert last.messages == Conversation(s, start, going, maxToolCalls) + [];
    LastIsShown(s, start, going, last, [], maxToolCalls);
    assert forall k :: 0 <= k < |going| ==> init[k] == going[k];
  }

  lemma FinishedIsShown(s: Setting, start: seq<Message>, asked: seq<Exchange>, maxSteps: nat, maxToolCalls: nat)
    requires Finished(s, start, asked, maxSteps, maxToolCalls) && AllScrubbed(s.sanitize, start)
    ensures forall k :: 0 <= k < |asked| ==> ShownOk(s, start, asked[k])
  {
    var init, e := asked[..|asked| - 1], asked[|asked| - 1];
    if !e.WithTools() && AtToolLimit(s, start, init, maxSteps, maxToolCalls) {
      StoppedIsShown(s, start, init, e, maxSteps, maxToolCalls);
    } else {
      GoingIsShown(s, start, init, maxToolCalls);
      var said := if e.WithTools() then [] else [User(STEP_LIMIT_ASKED)];
      assert e.messages == Conversation(s, start, init, maxToolCalls) + said;
      LastIsShown(s, start, init, e, said, maxToolCalls);
    }
    assert forall k :: 0 <= k < |init| ==> asked[k] == init[k];
  }

  /** All the calls that replies to requests with tools ask for. */
  ghost function Requested(asked: seq<Exchange>): seq<Call> {
    if asked == [] then []
    else
      var e := asked[|asked| - 1];
      Requested(asked[..|asked| - 1]) + if e.WithTools() && e.reply.Reply? then e.reply.toolCalls else []
  }

  lemma {:induction false} GoingTakesAll(s: Setting, start: seq<Message>, asked: seq<Exchange>, maxToolCalls: nat)
    requires Going(s, start, asked, maxToolCalls)
    ensures TakenOn(asked, maxToolCalls) == Requested(asked)
  {
    if asked != [] {
      GoingTakesAll(s, start, asked[..|asked| - 1], maxToolCalls);
    }
  }

  /**
   A run takes on every call that is requested, unless these are more than maxToolCalls; and it stops offering tools
   only after all its steps or when more calls are requested.
   */
  lemma TakesAllWithinLimit(s: Setting, start: seq<Message>, asked: seq<Exchange>, maxSteps: nat, maxToolCalls: nat)
    requires Finished(s, start, asked, maxSteps, maxToolCalls)
    ensures |Requested(asked)| <= maxToolCalls ==> TakenOn(asked, maxToolCalls) == Requested(asked)
    ensures !asked[|asked| - 1].WithTools() ==> |asked| == maxSteps + 1 || |Requested(asked)| > maxToolCalls
  {
    var init, e := asked[..|asked| - 1], asked[|asked| - 1];
    if !e.WithTools() && AtToolLimit(s, start, init, maxSteps, maxToolCalls) {
      GoingTakesAll(s, start, init[..|init| - 1], maxToolCalls);
      assert Requested(init) == Requested(init[..|init| - 1]) + init[|init| - 1].reply.toolCalls;
    } else {
      GoingTakesAll(s, start, init, maxToolCalls);
    }
  }

  /**
   What a run keeps beside its counts: what it shows, what it takes on, and that its answer is never made of nothing.
   */
  ghost predicate KeepsFaith(s: Setting, start: seq<Message>, o: Outcome, asked: seq<Exchange>, maxSteps: nat,
                             maxToolCalls: nat)
    requires asked != []
  {
    && (forall k :: 0 <= k < |asked| ==> ShownOk(s, start, asked[k]))
    && (!asked[|asked| - 1].WithTools() ==> |asked| == maxSteps + 1 || |Requested(asked)| > maxToolCalls)
    && (o.Response? ==>
          && asked[|asked| - 1].reply.Reply?
          && (|Requested(asked)| <= maxToolCalls ==> o.toolCallsCount == |Requested(asked)|)
          && var content := asked[|asked| - 1].reply.content;
          exists text :: text != "" && o.answer == s.sanitize(text) && (content != "" ==> text == content))
  }

  lemma RunKeepsFaith(s: Setting, start: seq<Message>, o: Outcome, asked: seq<Exchange>, maxSteps: nat,
                      maxToolCalls: nat)
    requires Finished(s, start, asked, maxSteps, maxToolCalls) && AllScrubbed(s.sanitize, start)
    requires Tells(s, start, o, asked, maxSteps, maxToolCalls)
    ensures KeepsFaith(s, start, o, asked, maxSteps, maxToolCalls)
  {
    FinishedIsShown(s, start, asked, maxSteps, maxToolCalls);
    TakesAllWithinLimit(s, start, asked, maxSteps, maxToolCalls);
    if o.Response? {
      var content := asked[|asked| - 1].reply.content;
      var text := OrElse(content, Fallback(s, start, asked, maxSteps, maxToolCalls));
      assert text != "" && o.answer == s.sanitize(text) && (content != "" ==> text == content);
    }
  }

  /** A request to the model carries what the caller asked for, and the role's tools or none. */
  ghost predicate CarriesRequest(registry: ToolRegistry, c: Context, request: Request, o: Options)
    requires registry.Valid()
    reads registry
  {
    && o.temperature == request.temperature && o.timeoutMs == request.timeoutMs && o.maxTokens == request.maxTokens
    && (o.tools.Some? ==>
          o.tools.value == DefinitionsOf(registry.tools, Offered(registry.order, registry.tools, c.userRole)))
  }

  /** A run for a valid context and a message, over what was retrieved. */
  method RunFor(registry: ToolRegistry, c: Context, request: Request, found: seq<Found>, model: LanguageModel,
                box: ToolBox, sanitize: string -> string)
    returns (outcome: Outcome, ghost asked: seq<Exchange>)
    requires registry.Valid() && ValidateRequestContext(c).None?
    modifies model, box
    ensures model.asked == old(model.asked) + asked && 0 < |asked| <= request.maxSteps + 1 && old(box.ran) <= box.ran
    ensures !outcome.ContextRejected? && !outcome.EmptyMessage?
    ensures var s := SettingOf(registry, c, request, found, box, |old(box.ran)|, sanitize);
            var start := [System(found), User(sanitize(request.message))];
            && Finished(s, start, asked, request.maxSteps, request.maxToolCalls)
            && RanFor(s, old(box.ran), box.ran, TakenOn(asked, request.maxToolCalls))
            && Tells(s, start, outcome, asked, request.maxSteps, request.maxToolCalls)
            && KeepsFaith(s, start, outcome, asked, request.maxSteps, request.maxToolCalls)
    ensures outcome.Response? ==>
              && outcome.stepsCount <= request.maxSteps && outcome.toolCallsCount <= request.maxToolCalls
              && outcome.toolCallsCount == ToolOutputs(asked[|asked| - 1].messages)
    ensures SafeRuns(registry.tools, c, old(box.ran), box.ran)
    ensures forall k :: 0 <= k < |asked| ==> CarriesRequest(registry, c, request, asked[k].options)
  {
    var toolDefinitions := registry.GetToolDefinitions(Some(c));
    var messages := [System(found), User(sanitize(request.message))];
    var options := Options(Some(toolDefinitions), request.temperature, request.timeoutMs, request.maxTokens);
    ghost var s, ran := SettingOf(registry, c, request, found, box, |box.ran|, sanitize), box.ran;
    outcome, asked := Converse(registry.tools, c, messages, request.maxSteps, request.maxToolCalls, options,
                               SourcesOf(found), model, box, sanitize);
    FinishedWithinSteps(s, messages, asked, request.maxSteps, request.maxToolCalls);
    RanSafely(s, ran, box.ran, TakenOn(asked, request.maxToolCalls));
    assert AllScrubbed(sanitize, messages);
    RunKeepsFaith(s, messages, outcome, asked, request.maxSteps, request.maxToolCalls);
    assert forall k :: 0 <= k < |asked| ==> ShownOk(s, messages, asked[k]);
    if outcome.Response? {
      ToolOutputsOfTwo(messages[0], messages[1]);
      CountsAreRight(s, messages, outcome, asked, request.maxSteps, request.maxToolCalls);
    }
  }

  /**
   For every model and every behaviour of the tools: the model is asked at most maxSteps + 1 times, offered the tools of
   the caller's role, and shown the whole conversation, whose tool messages are the sanitized results and refusals; the
   tools run exactly the calls that policy, duplicate check and schema let through, so only runnable tools, of which at
   most three runs mutate; and the response tells of it.
   */
  method RunAgent(registry: ToolRegistry, c: Context, request: Request, retrieval: Option<seq<Found>>,
                  model: LanguageModel, box: ToolBox, sanitize: string -> string, trim: string -> string)
    returns (outcome: Outcome, ghost asked: seq<Exchange>)
    requires registry.Valid()
    modifies model, box
    ensures outcome == ContextRejected(MissingContext) <==> c.organizationId == "" || c.userId == ""
    ensures outcome == ContextRejected(InvalidRole) <==> c.organizationId != "" && c.userId != "" && c.userRole.None?
    ensures outcome.EmptyMessage? <==>
            !outcome.ContextRejected? && (request.message == "" || trim(request.message) == "")
    ensures model.asked == old(model.asked) + asked && |asked| <= request.maxSteps + 1 && old(box.ran) <= box.ran
    ensures outcome.ContextRejected? || outcome.EmptyMessage? ==> asked == [] && box.ran == old(box.ran)
    ensures !(outcome.ContextRejected? || outcome.EmptyMessage?) ==>
              var found := if request.includeRagContext == Some(false) || retrieval.None? then [] else retrieval.value;
              var s := SettingOf(registry, c, request, found, box, |old(box.ran)|, sanitize);
              var start := [System(found), User(sanitize(request.message))];
              && Finished(s, start, asked, request.maxSteps, request.maxToolCalls)
              && RanFor(s, old(box.ran), box.ran, TakenOn(asked, request.maxToolCalls))
              && Tells(s, start, outcome, asked, request.maxSteps, request.maxToolCalls)
              && KeepsFaith(s, start, outcome, asked, request.maxSteps, request.maxToolCalls)
    ensures outcome.Response? ==>
              && outcome.stepsCount <= request.maxSteps && outcome.toolCallsCount <= request.maxToolCalls
              && asked != [] && outcome.toolCallsCount == ToolOutputs(asked[|asked| - 1].messages)
    ensures outcome.Response? ==>
              && asked[|asked| - 1].reply.Reply? && outcome.usage == asked[|asked| - 1].reply.usage
              && outcome.sources == SourcesOf(Retrieved(request, retrieval))
    ensures forall k :: 0 <= k < |asked| ==> CarriesRequest(registry, c, request, asked[k].options)
    ensures forall k :: |old(box.ran)| <= k < |box.ran| ==> Runnable(registry.tools, c, box.ran[k].0)
    ensures |set k: nat | |old(box.ran)| <= k < |box.ran| && box.ran[k].0 in registry.tools
                          && (registry.tools[box.ran[k].0].isMutation
                              || registry.tools[box.ran[k].0].riskLevel == WRITE
                              || registry.tools[box.ran[k].0].riskLevel == EXTERNAL_SIDE_EFFECT)| <= 3
  {
    asked := [];
    ghost var ran := box.ran;
    NoRunsAreSafe(registry.tools, c, ran);
    SafeRunsMean(registry.tools, c, ran, ran);
    var invalid := ValidateRequestContext(c);
    if invalid.Some? {
      return ContextRejected(invalid.value), asked;
    }
    if request.message == "" || trim(request.message) == "" {
      return EmptyMessage, asked;
    }
    outcome, asked := RunFor(registry, c, request, Retrieved(request, retrieval), model, box, sanitize);
    SafeRunsMean(registry.tools, c, ran, box.ran);
  }
}
