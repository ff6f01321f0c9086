/** What the handlers promise, stated over their outcome functions. */
module FlowProperties {
  import opened Common
  import opened Text
  import opened FlowModel
  import opened NodeRender
  import opened ActionResolve
  import opened FlowEngine

  /** Node `k` is the first node of `def` whose id is `id`. This is
      `Common.IsFirstIndex` for the id test inside `FindNode`; it is spelled
      out on the field because that test is a lambda literal, and Dafny does
      not identify two lambda literals written in different places. */
  ghost predicate IsFirstNodeWithId(def: FlowDefinition, id: string, k: int)
  {
    0 <= k < |def.nodes| && def.nodes[k].id == id
    && forall j :: 0 <= j < k ==> def.nodes[j].id != id
  }

  /** Looking up a node id finds the first node carrying it. For the same
      lambda reason as above this is proved from `FindNode`'s own contract
      rather than from `Common.FindIsFirst`. */
  lemma FindNodeIsFirst(def: FlowDefinition, id: string, k: int)
    requires IsFirstNodeWithId(def, id, k)
    ensures FindNode(def, Some(id)) == Some(def.nodes[k])
  {
    var r := FindNode(def, Some(id));
    assert r.Some?;
    var i :| 0 <= i < |def.nodes| && def.nodes[i] == r.value && Some(def.nodes[i].id) == Some(id)
      && forall j :: 0 <= j < i ==> Some(def.nodes[j].id) != Some(id);
    assert !(i < k) && !(k < i);
  }

  /** After `def` is registered under `appId`, initiating that application
      moves the cursor to the first node id of the first page and renders
      exactly the first node carrying that id, under the fresh flow id. */
  lemma RegisterThenInitiate(defs: map<string, FlowDefinition>, cursor: Option<string>, appId: string,
                             def: FlowDefinition, freshId: string, k: int)
    requires appId != ""
    requires |def.flow.pages| > 0 && |def.flow.pages[0].nodes| > 0
    requires IsFirstNodeWithId(def, def.flow.pages[0].nodes[0], k)
    ensures InitiateOutcome(defs[appId := def], cursor, appId, freshId)
         == (Ok(NodeResponse(freshId, INCOMPLETE, REGISTRATION, def, def.nodes[k])), Some(def.flow.pages[0].nodes[0]))
  {
    FindNodeIsFirst(def, def.flow.pages[0].nodes[0], k);
  }

  /** Initiating an application that is not registered is an error and
      leaves the cursor where it was. */
  lemma InitiateUnknownApp(defs: map<string, FlowDefinition>, cursor: Option<string>, appId: string, freshId: string)
    requires appId !in defs
    ensures InitiateOutcome(defs, cursor, appId, freshId) == (Err(InvalidAppId), cursor)
  {
  }

  /** The request is well formed, the application is registered, the
      cursor names `node`, and scanning its actions does not throw. */
  ghost predicate AtNode(defs: map<string, FlowDefinition>, cursor: Option<string>,
                         appId: string, flowId: string, action: string, node: Node)
  {
    appId != "" && flowId != "" && action != ""
    && appId in defs && FindNode(defs[appId], cursor) == Some(node)
    && !AnyEmptyExecutors(node.actions)
  }

  /** When the last action matching the submitted name has type NEXT or
      EXECUTOR (any case) and a non-empty first `next` id, the cursor moves
      there and the reply is the render of that node under the submitted
      flow id. */
  lemma SubmitFollowsNext(defs: map<string, FlowDefinition>, cursor: Option<string>, appId: string,
                          flowId: string, action: string, freshId: string, node: Node, k: int)
    requires AtNode(defs, cursor, appId, flowId, action, node)
    requires IsLastMatch(node.actions, action, k)
    requires Upper(node.actions[k].action.actionType) in {"NEXT", "EXECUTOR"}
    requires node.actions[k].next.Some? && |node.actions[k].next.value| > 0 && node.actions[k].next.value[0] != ""
    ensures var target := node.actions[k].next.value[0];
      SubmitOutcome(defs, cursor, appId, flowId, action, freshId)
      == (RenderNode(flowId, INCOMPLETE, REGISTRATION, defs[appId], Some(target)), Some(target))
  {
    LastMatchIsLast(node.actions, action, k);
  }

  /** The same for PREVIOUS and the first `previous` id. */
  lemma SubmitFollowsPrevious(defs: map<string, FlowDefinition>, cursor: Option<string>, appId: string,
                              flowId: string, action: string, freshId: string, node: Node, k: int)
    requires AtNode(defs, cursor, appId, flowId, action, node)
    requires IsLastMatch(node.actions, action, k)
    requires Upper(node.actions[k].action.actionType) == "PREVIOUS"
    requires node.actions[k].previous.Some? && |node.actions[k].previous.value| > 0 && node.actions[k].previous.value[0] != ""
    ensures var target := node.actions[k].previous.value[0];
      SubmitOutcome(defs, cursor, appId, flowId, action, freshId)
      == (RenderNode(flowId, INCOMPLETE, REGISTRATION, defs[appId], Some(target)), Some(target))
  {
    LastMatchIsLast(node.actions, action, k);
  }

  /** A DONE action completes with the freshly generated id, not the
      submitted one, renders nothing and leaves the cursor alone. */
  lemma SubmitDone(defs: map<string, FlowDefinition>, cursor: Option<string>, appId: string,
                   flowId: string, action: string, freshId: string, node: Node, k: int)
    requires AtNode(defs, cursor, appId, flowId, action, node)
    requires IsLastMatch(node.actions, action, k)
    requires Upper(node.actions[k].action.actionType) == "DONE"
    ensures SubmitOutcome(defs, cursor, appId, flowId, action, freshId)
         == (Ok(CompletionResponse(freshId, COMPLETED, REGISTRATION, CompletionMessage)), cursor)
  {
    LastMatchIsLast(node.actions, action, k);
  }

  /** A matched action of an unrecognised type, or one whose target list is
      missing, empty or headed by an empty id, is an error and leaves the
      cursor alone. */
  lemma SubmitWithoutTarget(defs: map<string, FlowDefinition>, cursor: Option<string>, appId: string,
                            flowId: string, action: string, freshId: string, node: Node, k: int)
    requires AtNode(defs, cursor, appId, flowId, action, node)
    requires IsLastMatch(node.actions, action, k)
    requires var a := node.actions[k]; var kind := Upper(a.action.actionType);
      kind != "DONE"
      && (kind in {"NEXT", "EXECUTOR"} ==> a.next.None? || |a.next.value| == 0 || a.next.value[0] == "")
      && (kind == "PREVIOUS" ==> a.previous.None? || |a.previous.value| == 0 || a.previous.value[0] == "")
    ensures SubmitOutcome(defs, cursor, appId, flowId, action, freshId) == (Err(NoTargetNode), cursor)
  {
    LastMatchIsLast(node.actions, action, k);
  }

  /** A name that no action of the current node matches is never a silent
      success: it is ActionNotFound, and the cursor stays. */
  lemma SubmitUnknownAction(defs: map<string, FlowDefinition>, cursor: Option<string>, appId: string,
                            flowId: string, action: string, freshId: string, node: Node)
    requires AtNode(defs, cursor, appId, flowId, action, node)
    requires forall i :: 0 <= i < |node.actions| ==> !Matches(node.actions[i], action)
    ensures SubmitOutcome(defs, cursor, appId, flowId, action, freshId) == (Err(ActionNotFound), cursor)
  {
    LastMatchNone(node.actions, action);
  }

  /** Submit moves the cursor only on a transition: every reply other than
      a rendered node leaves it where it was, except the failure to render
      a target that does not exist, which happens after the move. */
  lemma SubmitMovesCursorOnlyOnTransition(defs: map<string, FlowDefinition>, cursor: Option<string>,
                                          appId: string, flowId: string, action: string, freshId: string)
    ensures var (r, c) := SubmitOutcome(defs, cursor, appId, flowId, action, freshId);
      c != cursor ==> (r.Ok? && r.value.FlowResponse?) || r == Err(RenderedNodeNotFound)
  {
  }

  /** A rendered reply is exactly the render of the node the cursor now
      names, under the submitted flow id. */
  lemma SubmitRendersNewCursor(defs: map<string, FlowDefinition>, cursor: Option<string>,
                               appId: string, flowId: string, action: string, freshId: string)
    ensures var (r, c) := SubmitOutcome(defs, cursor, appId, flowId, action, freshId);
      r.Ok? && r.value.FlowResponse? ==>
        appId in defs && c.Some? && r == RenderNode(flowId, INCOMPLETE, REGISTRATION, defs[appId], c)
  {
  }

  /** There is one cursor for every flow: the flow id a client submits does
      not influence where the cursor goes. */
  lemma CursorIgnoresFlowId(defs: map<string, FlowDefinition>, cursor: Option<string>, appId: string,
                            flowId1: string, flowId2: string, action: string, freshId: string)
    requires flowId1 != "" && flowId2 != ""
    ensures SubmitOutcome(defs, cursor, appId, flowId1, action, freshId).1
         == SubmitOutcome(defs, cursor, appId, flowId2, action, freshId).1
  {
  }
}
