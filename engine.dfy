/** The request handlers of the registration-flow service: registration,
    initiation and submission, over one process-wide definition map and
    one process-wide cursor shared by every flow. */
module FlowEngine {
  import opened Common
  import opened Text
  import opened FlowModel
  import opened NodeRender
  import opened ActionResolve

  /** The id `/initiate` moves the cursor to: the first node id of the first
      page, absent when that page lists no nodes. */
  function StartNodeId(def: FlowDefinition): Option<string>
    requires |def.flow.pages| > 0
  {
    var startPage := def.flow.pages[0];
    if |startPage.nodes| > 0 then Some(startPage.nodes[0]) else None
  }

  /** What `/initiate` replies and where it leaves the cursor. The cursor is
      moved before the start node is rendered, so a start id that names no
      node still moves it. */
  function InitiateOutcome(defs: map<string, FlowDefinition>, cursor: Option<string>, appId: string, freshId: string)
    : (Result<Response, Error>, Option<string>)
  {
    if appId == "" || appId !in defs then (Err(InvalidAppId), cursor)
    else
      var def := defs[appId];
      if |def.flow.pages| == 0 then (Err(StartPageMissing), cursor)
      else
        var start := StartNodeId(def);
        (RenderNode(freshId, INCOMPLETE, REGISTRATION, def, start), start)
  }

  /** The node a non-DONE action moves to, given its uppercased type: the
      head of `next` for NEXT and EXECUTOR, the head of `previous` for
      PREVIOUS; nothing for any other type, for a missing or empty list, or
      for an empty (falsy) id. */
  function TargetOf(kind: string, a: NodeAction): Option<string>
  {
    var targets :=
      if kind == "NEXT" || kind == "EXECUTOR" then a.next
      else if kind == "PREVIOUS" then a.previous
      else None;
    if targets.Some? && |targets.value| > 0 && targets.value[0] != "" then Some(targets.value[0]) else None
  }

  /** What `/submit` replies and where it leaves the cursor. */
  function SubmitOutcome(defs: map<string, FlowDefinition>, cursor: Option<string>,
                         appId: string, flowId: string, action: string, freshId: string)
    : (Result<Response, Error>, Option<string>)
  {
    if appId == "" || flowId == "" || action == "" then (Err(SubmitFieldsMissing), cursor)
    else if appId !in defs then (Err(NoDefinitionForApp), cursor)
    else
      var def := defs[appId];
      match FindNode(def, cursor)
      case None => (Err(CurrentNodeNotFound), cursor)
      case Some(node) =>
        match Resolve(node.actions, action)
        case ThrowsOnEmptyExecutors => (Err(EmptyExecutorList), cursor)
        case NoMatch => (Err(ActionNotFound), cursor)
        case Resolved(a) =>
          var kind := Upper(a.action.actionType);
          if kind == "DONE" then (Ok(CompletionResponse(freshId, COMPLETED, REGISTRATION, CompletionMessage)), cursor)
          else match TargetOf(kind, a)
            case None => (Err(NoTargetNode), cursor)
            case Some(target) => (RenderNode(flowId, INCOMPLETE, REGISTRATION, def, Some(target)), Some(target))
  }

  /** The service state: registered definitions by application id, and the
      single cursor. An id that could not be read (JavaScript `undefined`) is
      `None`. */
  class Engine {
    var flowDefinitions: map<string, FlowDefinition>
    var currentNodeId: Option<string>

    constructor ()
      ensures flowDefinitions == map[] && currentNodeId == Some("")
    {
      flowDefinitions := map[];
      currentNodeId := Some("");
    }

    /** `/registration-flow`: stores the definition under `appId`,
        replacing any earlier one. */
    method RegisterFlow(appId: string, flowDefinition: Option<FlowDefinition>) returns (r: Result<Response, Error>)
      modifies this`flowDefinitions
      ensures appId != "" && flowDefinition.Some? ==>
        r == Ok(Registered(RegistrationMessage)) && flowDefinitions == old(flowDefinitions)[appId := flowDefinition.value]
      ensures appId == "" || flowDefinition.None? ==>
        r == Err(RegistrationFieldsMissing) && flowDefinitions == old(flowDefinitions)
    {
      if appId == "" || flowDefinition.None? {
        return Err(RegistrationFieldsMissing);
      }
      flowDefinitions := flowDefinitions[appId := flowDefinition.value];
      r := Ok(Registered(RegistrationMessage));
    }

    /** `/initiate`; `freshId` is the id the generator hands out. */
    method Initiate(appId: string, freshId: string) returns (r: Result<Response, Error>)
      modifies this`currentNodeId
      ensures (r, currentNodeId) == InitiateOutcome(flowDefinitions, old(currentNodeId), appId, freshId)
    {
      if appId == "" || appId !in flowDefinitions {
        return Err(InvalidAppId);
      }
      var def := flowDefinitions[appId];
      if |def.flow.pages| == 0 {
        return Err(StartPageMissing);
      }
      var startPage := def.flow.pages[0];
      currentNodeId := if |startPage.nodes| > 0 then Some(startPage.nodes[0]) else None;
      r := BuildFlowResponse(freshId, INCOMPLETE, REGISTRATION, def, currentNodeId);
    }

    /** `/submit`; `freshId` is the id the generator hands out when the flow
        completes. The submitted `inputs` are never read and are not modelled. */
    method Submit(appId: string, flowId: string, action: string, freshId: string) returns (r: Result<Response, Error>)
      modifies this`currentNodeId
      ensures (r, currentNodeId) == SubmitOutcome(flowDefinitions, old(currentNodeId), appId, flowId, action, freshId)
    {
      if appId == "" || flowId == "" || action == "" {
        return Err(SubmitFieldsMissing);
      }
      if appId !in flowDefinitions {
        return Err(NoDefinitionForApp);
      }
      var def := flowDefinitions[appId];
      var currentNode := FindNode(def, currentNodeId);
      if currentNode.None? {
        return Err(CurrentNodeNotFound);
      }

      var resolution := ResolveAction(currentNode.value.actions, action);
      if resolution.ThrowsOnEmptyExecutors? {
        return Err(EmptyExecutorList);
      }
      if resolution.NoMatch? {
        return Err(ActionNotFound);
      }
      var triggeredAction := resolution.action;

      var kind := Upper(triggeredAction.action.actionType);
      if kind == "DONE" {
        return Ok(CompletionResponse(freshId, COMPLETED, REGISTRATION, CompletionMessage));
      }

      var nextNodeId: Option<string> := None;
      if kind == "NEXT" || kind == "EXECUTOR" {
        if triggeredAction.next.Some? && |triggeredAction.next.value| > 0 {
          nextNodeId := Some(triggeredAction.next.value[0]);
        }
      } else if kind == "PREVIOUS" {
        if triggeredAction.previous.Some? && |triggeredAction.previous.value| > 0 {
          nextNodeId := Some(triggeredAction.previous.value[0]);
        }
      }
      if nextNodeId.None? || nextNodeId.value == "" {
        return Err(NoTargetNode);
      }

      currentNodeId := nextNodeId;
      r := BuildFlowResponse(flowId, INCOMPLETE, REGISTRATION, def, nextNodeId);
    }
  }
}
