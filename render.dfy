/** The node renderer: expands a node's element and block references into
    the ordered `elements` and `blocks` of a flow response. Ids that resolve
    to nothing are skipped. */
module NodeRender {
  import opened Common
  import opened FlowModel
  import opened ElementTransform

  /** `def.nodes.find(n => n.id === nodeId)`; an absent id finds no node. */
  function FindNode(def: FlowDefinition, nodeId: Option<string>): (r: Option<Node>)
    ensures r.None? <==> forall i :: 0 <= i < |def.nodes| ==> Some(def.nodes[i].id) != nodeId
    ensures r.Some? ==>
      exists i :: 0 <= i < |def.nodes| && def.nodes[i] == r.value && Some(def.nodes[i].id) == nodeId
                  && forall j :: 0 <= j < i ==> Some(def.nodes[j].id) != nodeId
  {
    Find(def.nodes, (n: Node) => Some(n.id) == nodeId)
  }

  function FindBlock(def: FlowDefinition, id: string): Option<Block>
  {
    Find(def.blocks, (b: Block) => b.id == id)
  }

  function FindElement(def: FlowDefinition, id: string): Option<Element>
  {
    Find(def.elements, (e: Element) => e.id == id)
  }

  /** The element lookup returns the first element carrying the id. */
  lemma FindElementIsFirst(def: FlowDefinition, id: string, k: int)
    requires 0 <= k < |def.elements| && def.elements[k].id == id
    requires forall j :: 0 <= j < k ==> def.elements[j].id != id
    ensures FindElement(def, id) == Some(def.elements[k])
  {
    FindIsFirst(def.elements, (e: Element) => e.id == id, k);
  }

  /** The transformed element an id resolves to, or nothing. */
  function ElementFor(def: FlowDefinition, node: Node, id: string): seq<ElementOutput>
  {
    match FindElement(def, id)
    case Some(e) => [Transform(e, node)]
    case None => []
  }

  /** The transformed elements of the ids that resolve, in id order. */
  function ResolvedElements(def: FlowDefinition, node: Node, ids: seq<string>): seq<ElementOutput>
  {
    if ids == [] then []
    else ResolvedElements(def, node, ids[..|ids| - 1]) + ElementFor(def, node, ids[|ids| - 1])
  }

  /** What one entry of `node.elements` contributes to `elements`: a
      block's resolvable members in block order, or the element itself. */
  function ElementsOfReference(def: FlowDefinition, node: Node, ref: string): seq<ElementOutput>
  {
    match FindBlock(def, ref)
    case Some(b) => ResolvedElements(def, node, b.nodes)
    case None => ElementFor(def, node, ref)
  }

  /** What one entry of `node.elements` contributes to `blocks`. */
  function BlocksOfReference(def: FlowDefinition, ref: string): seq<BlockOutput>
  {
    match FindBlock(def, ref)
    case Some(b) => [BlockOutput(b.id, b.nodes)]
    case None => []
  }

  function RenderedElements(def: FlowDefinition, node: Node, refs: seq<string>): seq<ElementOutput>
  {
    if refs == [] then []
    else RenderedElements(def, node, refs[..|refs| - 1]) + ElementsOfReference(def, node, refs[|refs| - 1])
  }

  function RenderedBlocks(def: FlowDefinition, refs: seq<string>): seq<BlockOutput>
  {
    if refs == [] then []
    else RenderedBlocks(def, refs[..|refs| - 1]) + BlocksOfReference(def, refs[|refs| - 1])
  }

  /** The response rendered for a node once it is found. */
  function NodeResponse(flowId: string, flowStatus: string, flowType: string, def: FlowDefinition, node: Node): Response
  {
    FlowResponse(flowId, flowStatus, flowType, RenderedElements(def, node, node.elements), RenderedBlocks(def, node.elements))
  }

  /** The response `buildFlowResponse` produces for `nodeId`. */
  function RenderNode(flowId: string, flowStatus: string, flowType: string, def: FlowDefinition, nodeId: Option<string>): Result<Response, Error>
  {
    match FindNode(def, nodeId)
    case None => Err(RenderedNodeNotFound)
    case Some(node) => Ok(NodeResponse(flowId, flowStatus, flowType, def, node))
  }

  /** The number of element references a list of ids makes: a block counts
      its members, any other id counts once. */
  function ReferenceCount(def: FlowDefinition, refs: seq<string>): nat
  {
    if refs == [] then 0
    else
      var last := refs[|refs| - 1];
      ReferenceCount(def, refs[..|refs| - 1]) + match FindBlock(def, last) { case Some(b) => |b.nodes| case None => 1 }
  }

  /** The inner loop of `buildFlowResponse`: pushes the transform of each
      member id of a block that names an element, in member order. */
  method PushBlockMembers(def: FlowDefinition, node: Node, members: seq<string>, acc: seq<ElementOutput>)
    returns (finalElements: seq<ElementOutput>)
    ensures finalElements == acc + ResolvedElements(def, node, members)
  {
    finalElements := acc;
    for j := 0 to |members|
      invariant finalElements == acc + ResolvedElements(def, node, members[..j])
    {
      ResolvedStep(def, node, members, j);
      var blockEl := FindElement(def, members[j]);
      if blockEl.Some? {
        var transformed := ElementToProperties(blockEl.value, node);
        finalElements := finalElements + [transformed];
      }
    }
    assert members[..|members|] == members;
  }

  /** `buildFlowResponse`: walks the node's ids, pushing block descriptors
      and transformed elements as it goes. */
  method BuildFlowResponse(flowId: string, flowStatus: string, flowType: string, def: FlowDefinition, nodeId: Option<string>)
    returns (r: Result<Response, Error>)
    ensures r == RenderNode(flowId, flowStatus, flowType, def, nodeId)
  {
    var found := FindNode(def, nodeId);
    if found.None? {
      return Err(RenderedNodeNotFound);
    }
    var node := found.value;

    var finalElements: seq<ElementOutput> := [];
    var finalBlocks: seq<BlockOutput> := [];
    for i := 0 to |node.elements|
      invariant finalElements == RenderedElements(def, node, node.elements[..i])
      invariant finalBlocks == RenderedBlocks(def, node.elements[..i])
    {
      var elementId := node.elements[i];
      RenderStep(def, node, node.elements, i);
      var block := FindBlock(def, elementId);
      if block.Some? {
        finalBlocks := finalBlocks + [BlockOutput(block.value.id, block.value.nodes)];
        finalElements := PushBlockMembers(def, node, block.value.nodes, finalElements);
      } else {
        var el := FindElement(def, elementId);
        if el.Some? {
          var transformed := ElementToProperties(el.value, node);
          finalElements := finalElements + [transformed];
        }
      }
    }
    assert node.elements[..|node.elements|] == node.elements;
    r := Ok(FlowResponse(flowId, flowStatus, flowType, finalElements, finalBlocks));
  }

  /** One more id extends the rendered outputs by what that id contributes. */
  lemma RenderStep(def: FlowDefinition, node: Node, refs: seq<string>, i: int)
    requires 0 <= i < |refs|
    ensures RenderedElements(def, node, refs[..i + 1]) == RenderedElements(def, node, refs[..i]) + ElementsOfReference(def, node, refs[i])
    ensures RenderedBlocks(def, refs[..i + 1]) == RenderedBlocks(def, refs[..i]) + BlocksOfReference(def, refs[i])
  {
    assert refs[..i + 1][..i] == refs[..i];
  }

  /** One more member id extends a block's elements by that member's transform, if it resolves. */
  lemma ResolvedStep(def: FlowDefinition, node: Node, ids: seq<string>, j: int)
    requires 0 <= j < |ids|
    ensures ResolvedElements(def, node, ids[..j + 1]) == ResolvedElements(def, node, ids[..j]) + ElementFor(def, node, ids[j])
  {
    assert ids[..j + 1][..j] == ids[..j];
  }

  /** Rendering distributes over concatenation of reference lists: the
      output is the in-order concatenation of what each reference gives. */
  lemma {:induction false} RenderConcatenates(def: FlowDefinition, node: Node, a: seq<string>, b: seq<string>)
    ensures RenderedElements(def, node, a + b) == RenderedElements(def, node, a) + RenderedElements(def, node, b)
    ensures RenderedBlocks(def, a + b) == RenderedBlocks(def, a) + RenderedBlocks(def, b)
  {
    if b != [] {
      var b' := b[..|b| - 1];
      assert (a + b)[..|a + b| - 1] == a + b';
      assert (a + b)[|a + b| - 1] == b[|b| - 1];
      RenderConcatenates(def, node, a, b');
    } else {
      assert a + b == a;
    }
  }

  /** An id that names neither a block nor an element is skipped: removing
      it changes neither output. */
  lemma {:induction false} UnresolvedReferenceSkipped(def: FlowDefinition, node: Node, a: seq<string>, ref: string, b: seq<string>)
    requires FindBlock(def, ref).None? && FindElement(def, ref).None?
    ensures RenderedElements(def, node, a + [ref] + b) == RenderedElements(def, node, a + b)
    ensures RenderedBlocks(def, a + [ref] + b) == RenderedBlocks(def, a + b)
  {
    var x := a + [ref];
    assert x[..|x| - 1] == a && x[|x| - 1] == ref;
    assert RenderedElements(def, node, x) == RenderedElements(def, node, a);
    assert RenderedBlocks(def, x) == RenderedBlocks(def, a);
    RenderConcatenates(def, node, x, b);
    RenderConcatenates(def, node, a, b);
  }

  lemma {:induction false} ResolvedElementsBound(def: FlowDefinition, node: Node, ids: seq<string>)
    ensures |ResolvedElements(def, node, ids)| <= |ids|
  {
    if ids != [] {
      ResolvedElementsBound(def, node, ids[..|ids| - 1]);
    }
  }

  /** The outputs are never longer than the references that produce them. */
  lemma {:induction false} RenderedLengthBound(def: FlowDefinition, node: Node, refs: seq<string>)
    ensures |RenderedElements(def, node, refs)| <= ReferenceCount(def, refs)
    ensures |RenderedBlocks(def, refs)| <= |refs|
  {
    if refs != [] {
      var last := refs[|refs| - 1];
      RenderedLengthBound(def, node, refs[..|refs| - 1]);
      match FindBlock(def, last)
      case Some(b) => ResolvedElementsBound(def, node, b.nodes);
      case None =>
    }
  }

  /** Every member of a resolved list is the transform of a definition element. */
  lemma {:induction false} ResolvedElementsFromDefinition(def: FlowDefinition, node: Node, ids: seq<string>)
    ensures forall o :: o in ResolvedElements(def, node, ids) ==>
      exists e :: e in def.elements && o == Transform(e, node)
  {
    if ids != [] {
      ResolvedElementsFromDefinition(def, node, ids[..|ids| - 1]);
    }
  }

  /** Every rendered element is the transform of an element of the
      definition, and every rendered block is a block of the definition,
      copied unchanged, whose id the node references. */
  lemma {:induction false} RenderedFromDefinition(def: FlowDefinition, node: Node, refs: seq<string>)
    ensures forall o :: o in RenderedElements(def, node, refs) ==>
      exists e :: e in def.elements && o == Transform(e, node)
    ensures forall o :: o in RenderedBlocks(def, refs) ==>
      exists b :: b in def.blocks && b.id in refs && o == BlockOutput(b.id, b.nodes)
  {
    if refs != [] {
      var init, last := refs[..|refs| - 1], refs[|refs| - 1];
      RenderedFromDefinition(def, node, init);
      assert refs == init + [last];
      match FindBlock(def, last)
      case Some(b) => ResolvedElementsFromDefinition(def, node, b.nodes);
      case None =>
    }
  }
}
