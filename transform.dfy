/** The element transformer: one rendered record per element, with the
    properties chosen by its (category, type) pair and an `action` field
    derived from the node's action list. */
module ElementTransform {
  import opened Common
  import opened I18n
  import opened FlowModel

  /** The validation pattern emitted for a username input; it is only a
      constant here, never interpreted. */
  const UsernameRegex := "^[a-zA-Z0-9._%+-]+@[a-zA-Z0-9.-]+\\.[a-zA-Z]{2,}$"

  const SocialButtonClass := "wso2is-social-button"

  /** The node action lists the element among its executors, at any position. */
  predicate ExecutesElement(a: NodeAction, id: string)
  {
    a.action.executors.Some?
    && exists i | 0 <= i < |a.action.executors.value| :: a.action.executors.value[i].id == id
  }

  /** Action `k` is the first action of `actions` that lists `id` among its
      executors: `Common.IsFirstIndex` for the executor test, spelled out
      because the test lambdas in `DerivedAction` and `ElementToProperties`
      are separate literals that Dafny does not identify. */
  ghost predicate IsFirstExecutorAction(actions: seq<NodeAction>, id: string, k: int)
  {
    0 <= k < |actions| && ExecutesElement(actions[k], id)
    && forall j :: 0 <= j < k ==> !ExecutesElement(actions[j], id)
  }

  /** The `action` field of an element: present exactly when the first
      action naming the element as an executor has raw type "EXECUTOR", and
      then it names that action's first executor. */
  function DerivedAction(node: Node, id: string): (r: Option<ActionConfig>)
    ensures r.Some? <==> exists k :: IsFirstExecutorAction(node.actions, id, k) && node.actions[k].action.actionType == "EXECUTOR"
    ensures forall k :: IsFirstExecutorAction(node.actions, id, k) && node.actions[k].action.actionType == "EXECUTOR" ==>
      r == Some(ActionConfig("EXECUTOR", node.actions[k].action.executors.value[0].name))
  {
    match FindIndex(node.actions, a => ExecutesElement(a, id))
    case None => None
    case Some(k) =>
      var a := node.actions[k];
      if a.action.actionType == "EXECUTOR" then Some(ActionConfig("EXECUTOR", a.action.executors.value[0].name))
      else None
  }

  /** The (category, type) pairs the transformer handles. */
  datatype ElementKind = Typography | Divider | Input | Button | Unhandled

  function KindOf(category: string, elementType: string): ElementKind
  {
    if category == "DISPLAY" && elementType == "TYPOGRAPHY" then Typography
    else if category == "DISPLAY" && elementType == "DIVIDER" then Divider
    else if category == "FIELD" && elementType == "INPUT" then Input
    else if category == "ACTION" && elementType == "BUTTON" then Button
    else Unhandled
  }

  predicate IsSocialVariant(variant: Option<string>)
  {
    variant == Some("SOCIAL") || variant == Some("SOCIAL_BUTTON")
  }

  /** A numeric setting is copied only when it is present and truthy (non-zero). */
  function IfTruthy(n: Option<int>): Option<int>
  {
    if n.Some? && n.value != 0 then n else None
  }

  function InputPropertiesOf(f: FieldConfig): Properties
  {
    var isUsername := f.name == "username";
    InputProperties(
      inputType := OrElse(f.fieldType, "text"),
      name := f.name,
      hint := f.hint,
      labelKey := MapLabelToI18n(f.labelText),
      placeholderKey := MapPlaceholderToI18n(f.placeholder),
      required := f.required,
      multiline := f.multiline,
      defaultValue := f.defaultValue,
      value := "",
      dataType := "string",
      isRequired := f.required,
      isReadOnly := false,
      className := if isUsername then "wso2is-username-input" else "wso2is-text-input",
      validationRegex := if isUsername then Some(UsernameRegex) else None,
      minLength := IfTruthy(f.minLength),
      maxLength := IfTruthy(f.maxLength),
      styles := map[])
  }

  function ButtonPropertiesOf(f: FieldConfig, variant: Option<string>, action: Option<ActionConfig>): Properties
  {
    ButtonProperties(
      buttonType := OrElse(f.fieldType, "submit"),
      className :=
        if IsSocialVariant(variant) then SocialButtonClass
        else if action.Some? && action.value.actionType == "EXECUTOR" then "wso2is-button"
        else SocialButtonClass,
      text := MapActionTextToI18n(OrElse(OrElse(f.text, f.labelText), "Submit")),
      styles := map["width" := "100%"])
  }

  /** The properties for each kind of element. */
  function PropertiesOf(e: Element, action: Option<ActionConfig>): Properties
  {
    match KindOf(e.category, e.elementType)
    case Typography => TypographyProperties("wso2is-typography-h3", "sign.up.form.title", map["textAlign" := "center"])
    case Divider => DividerProperties("wso2is-divider-horizontal", OrElse(e.field.text, "Or"), map[])
    case Input => InputPropertiesOf(e.field)
    case Button => ButtonPropertiesOf(e.field, e.variant, action)
    case Unhandled => NoProperties
  }

  /** The rendered record of element `e` on node `node`. */
  function Transform(e: Element, node: Node): ElementOutput
  {
    var action := DerivedAction(node, e.id);
    ElementOutput(e.id, e.category, e.elementType, e.variant, action, PropertiesOf(e, action))
  }

  /** The rules every rendered record obeys: identity fields are copied, the
      `action` field follows the first executor-bound action, unhandled pairs
      get empty properties, and the input and button class rules hold. */
  lemma TransformRules(e: Element, node: Node)
    ensures var r := Transform(e, node);
      && r.id == e.id && r.category == e.category && r.elementType == e.elementType && r.variant == e.variant
      && (r.action.Some? <==> exists k :: IsFirstExecutorAction(node.actions, e.id, k) && node.actions[k].action.actionType == "EXECUTOR")
      && (forall k :: IsFirstExecutorAction(node.actions, e.id, k) && node.actions[k].action.actionType == "EXECUTOR" ==>
            r.action == Some(ActionConfig("EXECUTOR", node.actions[k].action.executors.value[0].name)))
      && (r.properties == NoProperties <==> KindOf(e.category, e.elementType) == Unhandled)
      && (KindOf(e.category, e.elementType) == Input ==>
            && r.properties.InputProperties?
            && r.properties.value == "" && r.properties.dataType == "string" && !r.properties.isReadOnly
            && r.properties.isRequired == r.properties.required == e.field.required
            && (e.field.name == "username" ==> r.properties.className == "wso2is-username-input" && r.properties.validationRegex == Some(UsernameRegex))
            && (e.field.name != "username" ==> r.properties.className == "wso2is-text-input" && r.properties.validationRegex == None))
      && (KindOf(e.category, e.elementType) == Button ==>
            && r.properties.ButtonProperties?
            && (IsSocialVariant(e.variant) ==> r.properties.className == SocialButtonClass)
            && (!IsSocialVariant(e.variant) ==> (r.properties.className == "wso2is-button" <==> r.action.Some?)))
  {
  }

  /** `elementToProperties`: fills the record step by step, setting the
      button class from the action first and overriding it for social
      variants afterwards. */
  method ElementToProperties(element: Element, node: Node) returns (elem: ElementOutput)
    ensures elem == Transform(element, node)
  {
    var actionConfig: Option<ActionConfig> := None;
    var nodeAction := Find(node.actions, a => ExecutesElement(a, element.id));
    if nodeAction.Some? && nodeAction.value.action.actionType == "EXECUTOR" {
      var executor := nodeAction.value.action.executors.value[0];
      actionConfig := Some(ActionConfig("EXECUTOR", executor.name));
    }

    var fieldConfig := element.field;
    var properties := NoProperties;
    if element.category == "DISPLAY" && element.elementType == "TYPOGRAPHY" {
      properties := TypographyProperties("wso2is-typography-h3", "sign.up.form.title", map["textAlign" := "center"]);
    } else if element.category == "DISPLAY" && element.elementType == "DIVIDER" {
      properties := DividerProperties("wso2is-divider-horizontal", OrElse(fieldConfig.text, "Or"), map[]);
    } else if element.category == "FIELD" && element.elementType == "INPUT" {
      var name := OrElse(fieldConfig.name, "");
      var required := fieldConfig.required;
      var className, validationRegex := "wso2is-text-input", None;
      if name == "username" {
        className, validationRegex := "wso2is-username-input", Some(UsernameRegex);
      }
      var minLength, maxLength := None, None;
      if fieldConfig.minLength.Some? && fieldConfig.minLength.value != 0 { minLength := fieldConfig.minLength; }
      if fieldConfig.maxLength.Some? && fieldConfig.maxLength.value != 0 { maxLength := fieldConfig.maxLength; }
      properties := InputProperties(
        OrElse(fieldConfig.fieldType, "text"), name, OrElse(fieldConfig.hint, ""),
        MapLabelToI18n(fieldConfig.labelText), MapPlaceholderToI18n(fieldConfig.placeholder),
        required, fieldConfig.multiline, OrElse(fieldConfig.defaultValue, ""),
        "", "string", required, false, className, validationRegex, minLength, maxLength, map[]);
    } else if element.category == "ACTION" && element.elementType == "BUTTON" {
      var className := if actionConfig.Some? && actionConfig.value.actionType == "EXECUTOR" then "wso2is-button" else SocialButtonClass;
      var text := MapActionTextToI18n(OrElse(OrElse(fieldConfig.text, fieldConfig.labelText), "Submit"));
      if element.variant == Some("SOCIAL") || element.variant == Some("SOCIAL_BUTTON") {
        className := SocialButtonClass;
      }
      properties := ButtonProperties(OrElse(fieldConfig.fieldType, "submit"), className, text, map["width" := "100%"]);
    }

    elem := ElementOutput(element.id, element.category, element.elementType, element.variant, actionConfig, properties);
  }
}
