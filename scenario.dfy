/** A two-node sign-up flow: the start node shows a title, a username
    field and a button that runs the "password" executor and moves on. */
module FlowScenario {
  import opened Common
  import opened Text
  import opened I18n
  import opened FlowModel
  import opened ElementTransform
  import opened NodeRender
  import opened ActionResolve
  import opened FlowEngine
  import opened FlowProperties

  const ToPassword := NodeAction(ActionSpec("EXECUTOR", Some([Executor("btn1", "password")])), Some(["node2"]), None)
  const StartNode := Node("start", ["typo1", "input1", "btn1"], [ToPassword])
  const PasswordNode := Node("node2", [], [])

  const Title := Element("typo1", "DISPLAY", "TYPOGRAPHY", None, EmptyFieldConfig)
  const UsernameInput := Element("input1", "FIELD", "INPUT", None, EmptyFieldConfig.(name := "username", labelText := "Username"))
  const ContinueButton := Element("btn1", "ACTION", "BUTTON", None, EmptyFieldConfig.(text := "Continue"))

  const SignUp := FlowDefinition(Flow([Page(["start"])]), [StartNode, PasswordNode], [Title, UsernameInput, ContinueButton], [])

  /** Initiating renders the start node under the fresh flow id. */
  lemma InitiateSignUp(defs: map<string, FlowDefinition>, cursor: Option<string>)
    ensures InitiateOutcome(defs["app" := SignUp], cursor, "app", "flow-1")
         == (Ok(NodeResponse("flow-1", INCOMPLETE, REGISTRATION, SignUp, StartNode)), Some("start"))
  {
    RegisterThenInitiate(defs, cursor, "app", SignUp, "flow-1", 0);
  }

  /** The username field carries the username label key and its own class. */
  lemma UsernameFieldRendered()
    ensures Transform(UsernameInput, StartNode).properties.labelKey == "sign.up.form.fields.username.label"
    ensures Transform(UsernameInput, StartNode).properties.className == "wso2is-username-input"
  {
    var lower := Lower("Username");
    assert lower == "username";
    assert OccursAt(lower, "username", 0);
    LabelByPriority("Username");
    assert IsFirstMatch(LabelRules, lower, 0);
    TransformRules(UsernameInput, StartNode);
  }

  /** The start node renders its three elements in order; it names no block. */
  lemma StartNodeElements()
    ensures RenderedElements(SignUp, StartNode, StartNode.elements)
         == [Transform(Title, StartNode), Transform(UsernameInput, StartNode), Transform(ContinueButton, StartNode)]
  {
    var refs := StartNode.elements;
    assert refs[..2] == ["typo1", "input1"] && refs[..2][..1] == ["typo1"] && refs[..2][..1][..0] == [];
    FindElementIsFirst(SignUp, "typo1", 0);
    FindElementIsFirst(SignUp, "input1", 1);
    FindElementIsFirst(SignUp, "btn1", 2);
    assert ElementsOfReference(SignUp, StartNode, "typo1") == [Transform(Title, StartNode)];
    assert ElementsOfReference(SignUp, StartNode, "input1") == [Transform(UsernameInput, StartNode)];
    assert ElementsOfReference(SignUp, StartNode, "btn1") == [Transform(ContinueButton, StartNode)];
    assert RenderedElements(SignUp, StartNode, refs[..2][..1]) == [Transform(Title, StartNode)];
    assert RenderedElements(SignUp, StartNode, refs[..2])
        == [Transform(Title, StartNode), Transform(UsernameInput, StartNode)];
  }

  /** The reply to initiating the sample flow lists the start node's three
      elements, and its second element is the transformed username field
      described by `UsernameFieldRendered`. */
  lemma InitiateShowsUsernameField(defs: map<string, FlowDefinition>, cursor: Option<string>)
    ensures var r := InitiateOutcome(defs["app" := SignUp], cursor, "app", "flow-1").0;
            && r.Ok? && r.value.FlowResponse?
            && |r.value.elements| == 3
            && r.value.elements[1] == Transform(UsernameInput, StartNode)
  {
    InitiateSignUp(defs, cursor);
    StartNodeElements();
  }

  /** The button is bound to the "password" executor and so gets the primary class. */
  lemma ButtonBoundToExecutor()
    ensures Transform(ContinueButton, StartNode).action == Some(ActionConfig("EXECUTOR", "password"))
    ensures Transform(ContinueButton, StartNode).properties.className == "wso2is-button"
  {
    assert ToPassword.action.executors.value[0].id == "btn1";
    assert ExecutesElement(ToPassword, "btn1");
    assert IsFirstExecutorAction(StartNode.actions, "btn1", 0);
    TransformRules(ContinueButton, StartNode);
  }

  /** Submitting "password" from the start node moves the cursor to node2
      and replies with exactly the render of node2. */
  lemma SubmitPassword(defs: map<string, FlowDefinition>)
    ensures SubmitOutcome(defs["app" := SignUp], Some("start"), "app", "flow-1", "password", "flow-2")
         == (RenderNode("flow-1", INCOMPLETE, REGISTRATION, SignUp, Some("node2")), Some("node2"))
  {
    var ds := defs["app" := SignUp];
    FindNodeIsFirst(SignUp, "start", 0);
    assert !AnyEmptyExecutors(StartNode.actions);
    assert IsLastMatch(StartNode.actions, "password", 0);
    assert Upper("EXECUTOR") == "EXECUTOR";
    SubmitFollowsNext(ds, Some("start"), "app", "flow-1", "password", "flow-2", StartNode, 0);
  }
}
