/** The records of a registration-flow definition, as the engine reads
    them, and the records it renders.

    A field-configuration setting that the definition leaves out is written
    as the empty string: the engine reads those settings only through
    `x || default` and `!x`, which treat a missing value and "" alike.
    Ids and executor names are compared with `===`, where a missing value
    and "" differ, so every id and name here is taken to be present. */
module FlowModel {
  import opened Common

  /** A backend operation bound to a UI element. */
  datatype Executor = Executor(id: string, name: string)

  /** The `action` object of a node action: its raw type tag and its
      executors. `executors` may be absent; when present it may be empty. */
  datatype ActionSpec = ActionSpec(actionType: string, executors: Option<seq<Executor>>)

  /** An entry of a node's `actions` list. The target lists sit beside the
      `action` object, not inside it. */
  datatype NodeAction = NodeAction(action: ActionSpec, next: Option<seq<string>>, previous: Option<seq<string>>)

  /** One step of the flow: the ids it renders (elements or blocks) and the
      actions that leave it. */
  datatype Node = Node(id: string, elements: seq<string>, actions: seq<NodeAction>)

  /** A named group of element ids, rendered together. */
  datatype Block = Block(id: string, nodes: seq<string>)

  /** `config.field` of an element: free-form authoring data. `minLength` and
      `maxLength` are absent or a number. */
  datatype FieldConfig = FieldConfig(
    fieldType: string,
    name: string,
    hint: string,
    labelText: string,
    placeholder: string,
    text: string,
    defaultValue: string,
    required: bool,
    multiline: bool,
    minLength: Option<int>,
    maxLength: Option<int>)

  /** The field configuration of an element without `config.field`. */
  const EmptyFieldConfig := FieldConfig("", "", "", "", "", "", "", false, false, None, None)

  /** A UI element. `variant` may be absent and is copied to the output as it is. */
  datatype Element = Element(id: string, category: string, elementType: string, variant: Option<string>, field: FieldConfig)

  datatype Page = Page(nodes: seq<string>)

  datatype Flow = Flow(pages: seq<Page>)

  /** A registered definition: the page list sits under `flow`, while nodes,
      elements and blocks are top-level. */
  datatype FlowDefinition = FlowDefinition(flow: Flow, nodes: seq<Node>, elements: seq<Element>, blocks: seq<Block>)

  /** The `action` field of a rendered element. */
  datatype ActionConfig = ActionConfig(actionType: string, name: string)

  /** The `properties` object of a rendered element: one shape per handled
      (category, type) pair, and the empty object for every other pair. */
  datatype Properties =
    | NoProperties
    | TypographyProperties(className: string, text: string, styles: map<string, string>)
    | DividerProperties(className: string, text: string, styles: map<string, string>)
    | InputProperties(
        inputType: string,
        name: string,
        hint: string,
        labelKey: string,
        placeholderKey: string,
        required: bool,
        multiline: bool,
        defaultValue: string,
        value: string,
        dataType: string,
        isRequired: bool,
        isReadOnly: bool,
        className: string,
        validationRegex: Option<string>,
        minLength: Option<int>,
        maxLength: Option<int>,
        styles: map<string, string>)
    | ButtonProperties(buttonType: string, className: string, text: string, styles: map<string, string>)

  /** A rendered element. */
  datatype ElementOutput = ElementOutput(
    id: string,
    category: string,
    elementType: string,
    variant: Option<string>,
    action: Option<ActionConfig>,
    properties: Properties)

  /** A rendered block: its id and its member ids, unchanged. */
  datatype BlockOutput = BlockOutput(id: string, nodes: seq<string>)

  /** What a successful handler returns: a rendered node, or the completion
      record of a DONE action. `Registered` is the registration reply. */
  datatype Response =
    | FlowResponse(flowId: string, flowStatus: string, flowType: string, elements: seq<ElementOutput>, blocks: seq<BlockOutput>)
    | CompletionResponse(flowId: string, flowStatus: string, flowType: string, message: string)
    | Registered(message: string)

  /** The handlers' error replies, and the two exceptions a malformed
      definition makes them throw. */
  datatype Error =
    | RegistrationFieldsMissing   // appId or flowDefinition absent
    | InvalidAppId               // initiate: appId absent or not registered
    | SubmitFieldsMissing        // appId, flowId or action absent
    | NoDefinitionForApp         // submit: appId not registered
    | CurrentNodeNotFound        // submit: no node has the cursor's id
    | ActionNotFound             // no action of the node matches
    | NoTargetNode               // matched action gives no usable target
    | RenderedNodeNotFound       // buildFlowResponse throws: no node has that id
    | StartPageMissing           // initiate throws: the definition has no pages
    | EmptyExecutorList          // submit throws: reading executors[0] of []

  const INCOMPLETE := "INCOMPLETE"
  const COMPLETED := "COMPLETED"
  const REGISTRATION := "REGISTRATION"
  const CompletionMessage := "Flow completed successfully."
  const RegistrationMessage := "Flow definition registered successfully."
}
