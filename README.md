# Registration-flow engine, modelled in Dafny

This project models the logic of `app.js`, a small service that drives a client through a registration flow. A flow definition is a graph of pages, nodes, elements, blocks and actions. The model covers:

- **Registration.** `/registration-flow` stores a definition under an application id.
- **Initiation.** `/initiate` points the one process-wide cursor at the start node, `flow.pages[0].nodes[0]`, and renders that node.
- **Submission.** `/submit` scans the actions of the node under the cursor. The last action whose first executor name or raw type equals the submitted name wins. The handler then uppercases that action's type and either completes (DONE) or moves the cursor to `next[0]` (NEXT, EXECUTOR) or `previous[0]` (PREVIOUS), then renders the new node.
- **Rendering.** `buildFlowResponse` expands the node's ids into block descriptors and transformed elements, in order, and skips ids that resolve to nothing.
- **Element transform.** `elementToProperties` builds one record per element. Its properties depend on the (category, type) pair, and its `action` field comes from the node's actions.
- **Translation keys.** Three mappers pick a key by case-insensitive substring match against a priority list.

Layout:

| file | module | contents |
|---|---|---|
| `common.dfy` | `Common` | `Find`, the first-match search used for every lookup |
| `text.dfy` | `Text` | ASCII lower/upper case and substring tests |
| `i18n.dfy` | `I18n` | the three key mappers, their priority lists, and a reference priority function |
| `flow_model.dfy` | `FlowModel` | definition records, output records, errors |
| `transform.dfy` | `ElementTransform` | derived `action` field, per-kind properties, `ElementToProperties` |
| `render.dfy` | `NodeRender` | render specification functions, `BuildFlowResponse`, rendering lemmas |
| `resolve.dfy` | `ActionResolve` | last-match resolution and the `ResolveAction` scan |
| `engine.dfy` | `FlowEngine` | the `Engine` class (definition map and cursor), its handlers, and their outcome functions |
| `engine_properties.dfy` | `FlowProperties` | what the handlers promise |
| `scenario.dfy` | `FlowScenario` | a concrete two-node flow |

Modelling conventions:

- **Missing strings.** A `config.field` setting that the definition leaves out is the empty string. The code reads those settings only through `x || d` and `!x`, which treat a missing value and `""` the same. This does not extend to ids, which are compared with `===` (see "## Left out").
- **Missing executor lists.** The executor list of an action is an `Option`, because the code tests whether it exists before reading it.
- **Undefined ids.** An id the code reads as `undefined` is `None`. This happens to the cursor when the first page lists no nodes.
- **Outcomes.** Each handler returns a `Result`, and its new state is given by `InitiateOutcome` or `SubmitOutcome`.
- **Thrown exceptions.** A TypeError or a thrown `Error` becomes an error value. There are three: `StartPageMissing`, `EmptyExecutorList` and `RenderedNodeNotFound`.

Behaviours of the code that a reader might not expect, all modelled as written:

- **One cursor.** There is a single global cursor, not a session per flow. The submitted flow id is never used to find state (`FlowProperties.CursorIgnoresFlowId`).
- **DONE.** DONE returns a newly generated id, not the submitted one. It records no COMPLETED status and does not move the cursor.
- **Last match.** When several actions match, the last one in declaration order wins.
- **The `action` field.** It comes from the first action that lists the element among its executors at *any* position, not only the first.
- **Unknown application.** Initiating an unregistered application gives the same invalid-app-id error as a missing id.
- **Moving before rendering.** In both handlers the cursor moves before the target node is rendered. So a target id that names no node still moves the cursor, and the reply is then an error.

## Model

| member | source | states |
|---|---|---|
| `Common.FindIndex` | app.js:111 | the index of the first element satisfying the predicate; none exactly when no element does |
| `Common.Find` | app.js:129 | `find` returns the first satisfying element, and nothing exactly when no element satisfies the predicate |
| `Common.FindIsFirst` | app.js:129 | when index k is the first satisfying one, `find` returns exactly the element at k |
| `Text.Lower` | app.js:230 | same length; the result holds no capital letter; a character that is not a capital is kept; a capital becomes the small letter at the same alphabet position |
| `Text.Upper` | app.js:69 | same length; the result holds no small letter; a character that is not a small letter is kept; a small letter becomes the capital at the same alphabet position |
| `Text.LowerIdempotent` | app.js:230 | lowercasing an already lowercased text changes nothing |
| `Text.LowerIgnoresCase` | app.js:230 | a text and its uppercase form lowercase to the same string, so the mappers cannot tell them apart |
| `I18n.SelectByPriorityIsFirstMatch` | app.js:228-265 | a priority list selects the key of the first rule whose needle occurs, and the fallback only when no needle occurs |
| `I18n.LabelByPriority` | app.js:228-237 | empty label gives `""`; otherwise the key of the first of username, first name, last name, password, email found case-insensitively, else the label itself |
| `I18n.PlaceholderByPriority` | app.js:239-247 | empty placeholder gives `""`; otherwise the first of username, first name, last name, email (no password rule), else the placeholder itself |
| `I18n.ActionTextByPriority` | app.js:249-265 | the first of the three "continue with …" phrases, "continue", "next", "done" found case-insensitively selects its key; otherwise the text itself |
| `I18n.ContinueWithGoogle` | app.js:249-258 | "Continue with Google" maps to the Google key, not the generic continue key |
| `I18n.PasswordOnlyForLabels` | app.js:228-247 | "Password" is the password key as a label but stays "Password" as a placeholder |
| `I18n.UsernameLabelCaseInsensitive` | app.js:229-231 | every label whose lowercase form contains "username" maps to the username label key, and so does the same label in capitals |
| `I18n.UsernameLabelExample` | app.js:229-231 | "Enter your Username" maps to the username label key |
| `ElementTransform.DerivedAction` | app.js:156-168 | the action field is present iff the first action listing the element among its executors has raw type EXECUTOR, and then it is EXECUTOR with that action's first executor name |
| `ElementTransform.TransformRules` | app.js:148-226 | id, category, type and variant are copied. The action field follows the EXECUTOR rule. Properties are empty exactly for unhandled (category, type) pairs. An input named "username" gets the username class and the validation pattern; any other input gets the text-input class and no pattern. Inputs have a fixed empty value, "string" data type, not read-only, and isRequired equal to required. A SOCIAL or SOCIAL_BUTTON button always gets the social class; any other button gets the primary class iff it has an action |
| `ElementTransform.ElementToProperties` | app.js:148-226 | the field-by-field construction, with the button class set and then overridden for social variants, yields exactly `Transform` |
| `NodeRender.FindElementIsFirst` | app.js:129 | the element lookup returns the first element carrying the id |
| `NodeRender.FindNode` | app.js:102 | finds the first node with the id, and nothing exactly when no node has it |
| `NodeRender.PushBlockMembers` | app.js:118-126 | the block-member loop appends, in member order, the transform of every member id that names an element, and nothing else |
| `NodeRender.BuildFlowResponse` | app.js:101-146 | the looping render yields exactly `RenderNode`. That is an error when no node has the id; otherwise the node's rendered elements and blocks under the given flow id, status and type |
| `NodeRender.RenderConcatenates` | app.js:107-137 | rendering the concatenation of two reference lists concatenates their elements outputs and their blocks outputs, so each output is the in-order concatenation of what each reference contributes |
| `NodeRender.UnresolvedReferenceSkipped` | app.js:110-136 | an id naming neither a block nor an element can be removed without changing either output |
| `NodeRender.ResolvedElementsBound` | app.js:118-126 | a block contributes at most one element per member id |
| `NodeRender.RenderedLengthBound` | app.js:107-137 | the elements output is no longer than the number of references (block members counted individually), and the blocks output is no longer than the id list |
| `NodeRender.ResolvedElementsFromDefinition` | app.js:118-126 | each element taken from a block's members is the transform of an element of the definition |
| `NodeRender.RenderedFromDefinition` | app.js:110-137 | every rendered element is the transform of a definition element; every rendered block is a definition block, unchanged, whose id the node lists |
| `ActionResolve.LastMatchNone` | app.js:52-67 | resolution finds nothing exactly when no action matches by first executor name or raw type |
| `ActionResolve.LastMatchIsLast` | app.js:52-62 | when action k matches and no later one does, resolution yields action k |
| `ActionResolve.LastMatchFound` | app.js:52-62 | a found action sits at a matching position with no match after it |
| `ActionResolve.ResolveAction` | app.js:52-67 | the scan equals `Resolve`. It throws iff some action has an empty executor list. It finds nothing iff it does not throw and no action matches. Otherwise it returns the last matching action |
| `FlowEngine.Engine.constructor` | app.js:8-9 | no definitions; the cursor is `""` |
| `FlowEngine.Engine.RegisterFlow` | app.js:11-18 | with both arguments present, stores the definition under the id, overwriting, and replies with the success message; otherwise an error and the map unchanged |
| `FlowEngine.Engine.Initiate` | app.js:21-34 | the reply and new cursor are those of `InitiateOutcome`; the map is unchanged |
| `FlowEngine.Engine.Submit` | app.js:36-99 | the reply and new cursor are those of `SubmitOutcome`; the map is unchanged |
| `FlowProperties.FindNodeIsFirst` | app.js:47 | the node lookup returns the first node carrying the id |
| `FlowProperties.RegisterThenInitiate` | app.js:13-32 | after registering a definition, initiating that application sets the cursor to `pages[0].nodes[0]` and renders exactly the first node with that id under the fresh id |
| `FlowProperties.InitiateUnknownApp` | app.js:22-25 | initiating an unregistered application is an error and leaves the cursor |
| `FlowProperties.SubmitFollowsNext` | app.js:80-98 | if the last matching action's uppercased type is NEXT or EXECUTOR and `next[0]` is a non-empty id, the cursor becomes `next[0]`. The reply is the render of that node under the submitted flow id with status INCOMPLETE |
| `FlowProperties.SubmitFollowsPrevious` | app.js:85-98 | the same for PREVIOUS and `previous[0]` |
| `FlowProperties.SubmitDone` | app.js:69-78 | a DONE action (any case) replies COMPLETED with the fresh id and the completion message, renders nothing, and leaves the cursor |
| `FlowProperties.SubmitWithoutTarget` | app.js:80-93 | an unrecognised type, or a missing, empty or empty-headed target list, is an error and leaves the cursor |
| `FlowProperties.SubmitUnknownAction` | app.js:65-67 | a name no action matches gives ActionNotFound and leaves the cursor |
| `FlowProperties.SubmitMovesCursorOnlyOnTransition` | app.js:36-99 | the cursor moves only when the reply is a rendered node or the rendering of the new target failed |
| `FlowProperties.SubmitRendersNewCursor` | app.js:95-97 | a rendered reply is exactly the render of the node the cursor now names |
| `FlowProperties.CursorIgnoresFlowId` | app.js:37-47 | the submitted flow id does not influence the new cursor |
| `FlowScenario.InitiateSignUp` | app.js:27-32 | initiating the sample flow renders its start node |
| `FlowScenario.UsernameFieldRendered` | app.js:182-201 | the sample username field gets the username label key and the username class |
| `FlowScenario.StartNodeElements` | app.js:107-137 | the sample start node renders its title, username field and button, in that order |
| `FlowScenario.InitiateShowsUsernameField` | app.js:27-32 | the reply to initiating the sample flow has three elements, the second being the transformed username field |
| `FlowScenario.ButtonBoundToExecutor` | app.js:156-168 | the sample button bound to the "password" executor gets that action and the primary class |
| `FlowScenario.SubmitPassword` | app.js:52-98 | submitting "password" moves the cursor to node2 and replies with exactly node2's render |

## Left out

- HTTP transport: Express setup, routing, body parsing, JSON serialisation, status codes, the error message texts and `app.listen` (app.js:1-6, 268-271). Outcomes are `Result` values with one error constructor per reply.
- Identifier generation: `uuidv4` is a foreign call, so the id it would return is the `freshId` parameter of `Initiate` and `Submit`.
- `inputs` of `/submit`: accepted and never read by the code.
- The meaning of the username validation pattern: it is emitted as a constant string.
- Unicode case mapping: `toLowerCase`/`toUpperCase` are modelled on ASCII letters only.
- Concurrent requests on the shared cursor: handlers are modelled as sequential method calls.
- Values of the wrong JSON type: a number where a string is expected, `null`, or a missing `flow`, `flow.pages`, `nodes`, `actions`, `elements`, `blocks`, `type`, or `action` object of an action entry (app.js:28, 55, 59, 159). The model's types exclude these, and so it does not model the TypeErrors they would raise. Numbers for `minLength`/`maxLength` are integers; NaN is not modelled.
- Inherited keys of the plain object holding definitions: ids such as `toString` would find a prototype member. The model uses a map.
- `config.styles`: the code reads it into `stylesConfig` and never uses it. The model has only the field configuration, with an absent `config` or `config.field` giving the all-absent configuration.
- The key order of the emitted JSON objects.
- Missing ids and executor names: every node, block, element and executor is taken to have its `id`, and every executor its `name`. The code compares these with `===` (app.js:47, 55, 102, 111, 119, 129, 159), where `undefined` and `""` differ, and the model's string ids cannot stand for `undefined`. So the model does not capture two things. An `undefined` cursor, set when the first page lists no nodes, would find a node without an id; the model finds no node. The initial `""` cursor would not find such a node; the model treats that node's id as `""` and finds it.
