# Intake-agent handoff and context window, in Dafny

This project models the core of the multi-agent medical intake demo
(`complex-agents/future-clinic-demo`). In that demo, three voice agents take
turns on one session: symptom collection, medical history ("med info") and
confirmation. Each hands the shared session to the next. The model covers
three parts of that demo.

- **Context truncation** (`Truncation`): `BaseAgent._truncate_chat_ctx`.
  It scans the history newest to oldest and keeps the eligible items. System
  messages and function calls can be filtered out. It stops once the limit is
  reached, restores oldest-first order and drops any leading run of
  function-call items. `Truncate` is the functional model.
  `TruncateChatContext` is the loop as the source writes it: an early `break`,
  a reversal, then `pop(0)` one item at a time. It is proved equal to
  `Truncate`. `NewestEligible` is an independent reference: for a positive
  limit, the window is the last `n` eligible items.
- **Handoff** (`SessionState`, `Handoff`, `Agents`): the `UserData` record
  holds the agent registry, the previous agent, the job context, the patient
  and the two forms. The other pieces are:
  - `on_enter`, which merges the predecessor's history truncated to 50 items
    (system messages dropped, function calls kept), minus items whose id is
    already present;
  - `_transfer_to_agent`, a registry lookup followed by `prev_agent := current`;
  - each agent's `get_agent_data` projection;
  - the tool operations: `update_symptom_form`, `finish_symptom_collection`,
    `update_med_info_form`, `finish_med_info_collection` and `confirm`.
- **Commented-JSON schema formatter** (`JsonSchema`, `Text`): the dict-driven
  `_convert_schema_to_commented_json`, `_format_field`, `_get_field_type` and
  `_get_default_value`. Input is a small JSON-schema datatype whose
  "properties" are an ordered list. Absent dict keys are `None`.

Two behaviours of the code differ from what its names suggest, and the model
follows the code:

- **Limit of zero.** "Keep the last n messages" with `n = 0` suggests an
  empty window. In the code, the stop test runs after the append, so the
  newest item survives if it is an eligible message. This is
  `NonPositiveLimitKeepsNewest` and `TruncationExamples.ZeroLimitKeepsOne`.
  A negative limit behaves the same way.
- **Duplicate ids after a merge.** The merge looks like id-based
  deduplication, but the code only removes incoming items whose id is already
  in the new agent's history. It does not remove duplicates within the
  incoming batch. Ids stay unique when both histories have unique ids
  (`MergeUniqueIds`). Two incoming items that share an id not yet present
  both survive (`MergeKeepsDuplicatesWithinBatch`).

## Model

| member | source | states |
|---|---|---|
| Truncation.Window | complex-agents/future-clinic-demo/agents/base_agent.py:89-95 | the scanned window holds only eligible items; it has at most `max(limit, 1)` of them, because the stop test follows the append |
| Truncation.WindowIsSubsequence | complex-agents/future-clinic-demo/agents/base_agent.py:89-95 | the window is an order-preserving subsequence of the history |
| Truncation.Eligible | complex-agents/future-clinic-demo/agents/base_agent.py:73-87 | a user, developer or assistant message is always eligible; a system message is eligible exactly when system messages are kept; a call or call output exactly when calls are kept |
| Truncation.StripLeadingCalls | complex-agents/future-clinic-demo/agents/base_agent.py:97-101 | the result is a suffix of its input that does not start with a function call; every dropped item was a function call or output |
| Truncation.Truncate | complex-agents/future-clinic-demo/agents/base_agent.py:64-103 | the result is a subsequence of the input; length is at most the limit (at most one for a limit <= 0); it never starts with a function call or output, even when calls are kept; every item passes the filters, so no system message survives when system messages are off and no function call when calls are off |
| Truncation.EligibleItems | complex-agents/future-clinic-demo/agents/base_agent.py:73-87 | the reference filter keeps only eligible items and never grows the history |
| Truncation.EligibleItemsComplete | complex-agents/future-clinic-demo/agents/base_agent.py:73-87 | every eligible item of the history is kept by the filter |
| Truncation.WindowIsNewestEligible | complex-agents/future-clinic-demo/agents/base_agent.py:89-94 | the scan equals the reference: the last `n` eligible items for `n >= 1`; for `n <= 0`, the newest item if eligible |
| Truncation.WindowFillsLimit | complex-agents/future-clinic-demo/agents/base_agent.py:89-94 | with at least `n` eligible items available, the scan collects exactly `n` |
| Truncation.TruncateIdempotent | complex-agents/future-clinic-demo/agents/base_agent.py:64-103 | truncating a truncated history again with the same parameters returns it unchanged |
| Truncation.IneligibleItemsNotCounted | complex-agents/future-clinic-demo/agents/base_agent.py:89-94 | for a positive limit, inserting an ineligible item anywhere does not change the result: skipped items do not count toward the limit |
| Truncation.NonPositiveLimitKeepsNewest | complex-agents/future-clinic-demo/agents/base_agent.py:90-94 | with a limit <= 0, the result is the newest item when it is an eligible message, and empty otherwise |
| Truncation.ScanNewestFirst | complex-agents/future-clinic-demo/agents/base_agent.py:89-94 | the newest-first loop with its early `break` collects the window, in reverse order |
| Truncation.TruncateChatContext | complex-agents/future-clinic-demo/agents/base_agent.py:64-103 | the imperative scan, reversal and `pop(0)` loop compute exactly the truncation |
| TruncationExamples.NewestThreeKept | complex-agents/future-clinic-demo/agents/base_agent.py:89-101 | in a conversation of system prompt, user turn, tool call, tool output, assistant, user, assistant, a limit of 3 keeps exactly the last three messages |
| TruncationExamples.NewestTwoKept | complex-agents/future-clinic-demo/agents/base_agent.py:89-101 | in the same conversation, a limit of 2 keeps exactly the last two messages |
| TruncationExamples.LeadingCallsDropped | complex-agents/future-clinic-demo/agents/base_agent.py:97-101 | a call, its output and a user turn truncate to the user turn alone, even when calls are kept |
| TruncationExamples.MiddleCallsKept | complex-agents/future-clinic-demo/agents/base_agent.py:73-101 | with the handoff settings (limit 50, calls kept, system messages dropped), everything but the system prompt survives, including the call in the middle |
| TruncationExamples.MiddleCallsFiltered | complex-agents/future-clinic-demo/agents/base_agent.py:81-95 | with calls not kept, the call and its output are removed from the middle and the four messages remain |
| TruncationExamples.ZeroLimitKeepsOne | complex-agents/future-clinic-demo/agents/base_agent.py:90-94 | a limit of 0 still returns the newest message |
| Handoff.NewItems | complex-agents/future-clinic-demo/agents/base_agent.py:37-38 | keeps exactly the incoming items whose id is not in the existing set; preserves id uniqueness |
| Handoff.NewItemsIsSubsequence | complex-agents/future-clinic-demo/agents/base_agent.py:38 | the kept incoming items keep their relative order |
| Handoff.NewItemsMultiplicity | complex-agents/future-clinic-demo/agents/base_agent.py:37-38 | the filter keeps each item whose id is not in the existing set exactly as many times as the incoming history holds it, and drops every item whose id is in the set |
| Handoff.MergeHistory | complex-agents/future-clinic-demo/agents/base_agent.py:37-39 | the agent's own history is an unchanged prefix; the appended items all come from the incoming history, in order, with ids not among the existing ids; every incoming item with a new id is appended |
| Handoff.MergeMultiplicity | complex-agents/future-clinic-demo/agents/base_agent.py:37-39 | the appended part holds each incoming item with a new id exactly as often as the incoming history does, and no item with an already-present id |
| Handoff.MergeIdempotent | complex-agents/future-clinic-demo/agents/base_agent.py:29-39 | merging the same predecessor history a second time adds nothing |
| Handoff.MergeUniqueIds | complex-agents/future-clinic-demo/agents/base_agent.py:37-39 | if both histories have unique ids, the merged history has unique ids |
| Handoff.MergeKeepsDuplicatesWithinBatch | complex-agents/future-clinic-demo/agents/base_agent.py:37-38 | two incoming items sharing a new id are both appended; deduplication is only against existing ids |
| Handoff.OnEnter | complex-agents/future-clinic-demo/agents/base_agent.py:15-42 | with no previous agent, the history is exactly the agent's own; otherwise the own history is kept as a prefix, followed by at most 50 predecessor items in order, with no system message and no already-present id; the "agent" attribute is the class name, and is set exactly when a room is present |
| Handoff.OnEnterUniqueIds | complex-agents/future-clinic-demo/agents/base_agent.py:29-39 | when the agent's own history and the predecessor's history each have unique ids, the history installed on entry has unique ids |
| Handoff.GetAgentData | complex-agents/future-clinic-demo/agents/base_agent.py:49-51 | the base (symptom) agent's data is empty; the med-info agent selects exactly patient and symptom form; the confirmation agent selects exactly patient, symptom form and med-info form, each the state's current value |
| Handoff.AgentDataReadsOnlyForms | complex-agents/future-clinic-demo/agents/confirmation_agent.py:35-41 | an agent's data depends only on the records it selects |
| Handoff.TransferToAgent | complex-agents/future-clinic-demo/agents/base_agent.py:105-116 | succeeds exactly when the name is registered; on success, it returns `personas[name]` with its data refreshed from the state, and sets `prev_agent` to the caller, changing nothing else; on an unknown name, it fails with the name and leaves the state unchanged |
| Handoff.TransferThenEnter | complex-agents/future-clinic-demo/agents/base_agent.py:29-39 | after a transfer, the target's activation merges the caller's history truncated to 50 items into the target's own |
| Handoff.FirstActivationKeepsOwnHistory | complex-agents/future-clinic-demo/models/user_data.py:20-23 | on a fresh state (`prev_agent` is None), activation performs no merge |
| Handoff.FreshStateHasNoTargets | complex-agents/future-clinic-demo/models/user_data.py:16-19 | a fresh state's registry is empty, so every transfer from it fails and changes nothing |
| SessionState.NewUserData | complex-agents/future-clinic-demo/models/user_data.py:12-40 | a fresh state has an empty registry, no previous agent, and empty symptom and med-info forms; it keeps the given job context and patient |
| SessionState.RegisterAgents | complex-agents/future-clinic-demo/demo.py:48-54 | registers the three agents under "symptom", "med_info" and "confirmation"; other entries and all other fields are unchanged |
| SessionState.SummarizeIgnoresState | complex-agents/future-clinic-demo/models/user_data.py:42-43 | `summarize` returns the same constant string for every state |
| Agents.UpdateSymptomForm | complex-agents/future-clinic-demo/agents/symptom_agent.py:35-47 | replaces the symptom form and changes no other field; returns no agent, so no handoff occurs |
| Agents.FinishSymptomCollection | complex-agents/future-clinic-demo/agents/symptom_agent.py:50-62 | transfers to the registry entry "med_info" |
| Agents.UpdateMedInfoForm | complex-agents/future-clinic-demo/agents/med_info_agent.py:42-54 | replaces the med-info form and changes no other field; returns no agent |
| Agents.FinishMedInfoCollection | complex-agents/future-clinic-demo/agents/med_info_agent.py:57-64 | transfers to the registry entry "confirmation" |
| Agents.Confirm | complex-agents/future-clinic-demo/agents/confirmation_agent.py:44-55 | returns no agent and leaves the shared state unchanged |
| Agents.SymptomFormLastWriteWins | complex-agents/future-clinic-demo/agents/symptom_agent.py:46 | of two successive symptom-form updates, the second one wins |
| Agents.MedInfoFormLastWriteWins | complex-agents/future-clinic-demo/agents/med_info_agent.py:53 | of two successive med-info updates, the second one wins |
| Agents.MedInfoUpdateVisibleOnlyToConfirmation | complex-agents/future-clinic-demo/agents/med_info_agent.py:34-39 | a med-info update does not change the med-info agent's data, but the confirmation agent sees the new form |
| Agents.IntakeFlow | complex-agents/future-clinic-demo/demo.py:36-54 | on a registered session: symptom hands off to med_info with patient and symptom form; med_info hands off to confirmation with all three records; each handoff records the caller as previous agent; `confirm` ends the flow with no further handoff |
| JsonSchema.ConvertSchema | complex-agents/future-clinic-demo/utils/json_schema.py:31-55 | without "properties", the rendering is exactly `{}`; otherwise its first line is `{` and its last line is `level*indent` spaces followed by `}` |
| JsonSchema.ObjectLines | complex-agents/future-clinic-demo/utils/json_schema.py:40-55 | the line list has one entry per property between `{` and the closing brace |
| JsonSchema.SeparatedLayout | complex-agents/future-clinic-demo/utils/json_schema.py:44-52 | each property entry keeps its position and is followed by `,` exactly when it is not the last |
| JsonSchema.ObjectLayout | complex-agents/future-clinic-demo/utils/json_schema.py:40-55 | the full object layout: opening brace, each property rendered one level deeper in order, commas between them, closing brace |
| JsonSchema.FormatField | complex-agents/future-clinic-demo/utils/json_schema.py:58-107 | every field starts with its indentation and then `"name": ` |
| JsonSchema.FieldLine | complex-agents/future-clinic-demo/utils/json_schema.py:94-107 | a field other than an array of objects is: indentation and `"name": `, then the default text (array of primitives or primitive) or the nested rendering at the same level (object), then ` // `, the type label and the description part |
| JsonSchema.FieldCommentSuffix | complex-agents/future-clinic-demo/utils/json_schema.py:94-107 | every field except an array of objects ends with ` // <type label>` and the description part |
| JsonSchema.ArrayOfObjectsLayout | complex-agents/future-clinic-demo/utils/json_schema.py:79-93 | an array of objects opens `[` on the field line, nests the object rendering one indent step further, and closes `]` at the field's indentation |
| JsonSchema.IndentFirstLineShifts | complex-agents/future-clinic-demo/utils/json_schema.py:86-92 | splitting the nested text on newlines, indenting the first line and rejoining shifts the whole text by `indent` spaces |
| JsonSchema.DescriptionPart | complex-agents/future-clinic-demo/utils/json_schema.py:75-76 | ` - description` is appended exactly when the description is present and non-empty |
| JsonSchema.OptionTypes | complex-agents/future-clinic-demo/utils/json_schema.py:127-130 | there are at most as many labels as options and none is empty; a single option contributes its type exactly when the type is truthy |
| JsonSchema.OptionTypesAppend | complex-agents/future-clinic-demo/utils/json_schema.py:127-130 | collecting over two runs of options concatenates the two collections, so with the one-option case every label appears in option order |
| JsonSchema.OptionTypesCollects | complex-agents/future-clinic-demo/utils/json_schema.py:127-131 | every typed option contributes its type; the list is empty exactly when no option is typed, which is when the label is `any` |
| JsonSchema.FieldType | complex-agents/future-clinic-demo/utils/json_schema.py:110-133 | every field gets a non-empty type label (the case table is `FieldTypeLabels`) |
| JsonSchema.FieldTypeLabels | complex-agents/future-clinic-demo/utils/json_schema.py:110-133 | array labels are `object[]`, `<t>[]` or `array` by the items' type; other object-like fields are `object`; other typed fields are their type; untyped anyOf labels join the typed options with ` \| `, or are `any` when none is typed; everything else is `any` |
| JsonSchema.LiteralText | complex-agents/future-clinic-demo/utils/json_schema.py:141-156 | an explicit default's text reads back as that value, with arrays and objects emptied: a quoted string, `true`/`false`, `null`, a decimal integer without leading zeros (the reader accepts no other integer text), `[]` or `{}` |
| JsonSchema.DefaultText | complex-agents/future-clinic-demo/utils/json_schema.py:136-171 | an explicit default takes precedence and reads back as that value; without one, the text reads back as the type's placeholder (`""`, `0`, `false`, `[]`, `{}`, otherwise `""`) |
| JsonSchema.DefaultTextIgnoresRequired | complex-agents/future-clinic-demo/utils/json_schema.py:136 | the default text never depends on `is_required` |
| Text.JoinSplit | complex-agents/future-clinic-demo/utils/json_schema.py:86-92 | `"\n".join(s.split("\n")) == s` |
| Text.SplitJoin | complex-agents/future-clinic-demo/utils/json_schema.py:86-92 | splitting a join of separator-free lines gives back the lines |
| Text.Spaces | complex-agents/future-clinic-demo/utils/json_schema.py:68 | `" " * k` is `k` spaces, and empty for `k <= 0` |
| Text.Join | complex-agents/future-clinic-demo/utils/json_schema.py:55 | the join of no parts is empty; otherwise the text starts with the first part |
| Text.JoinLength | complex-agents/future-clinic-demo/utils/json_schema.py:55 | a join is as long as its parts plus one separator between each two |
| Text.Split | complex-agents/future-clinic-demo/utils/json_schema.py:86 | splitting yields at least one piece and no piece contains the separator |
| Text.NatToDecimal | complex-agents/future-clinic-demo/utils/json_schema.py:150 | `str(n)` of a natural number is a non-empty digit string with no leading zero; it starts with `0` exactly when `n` is 0 |
| Text.DecimalRoundTrip | complex-agents/future-clinic-demo/utils/json_schema.py:149-150 | the decimal text of a natural number reads back as that number |
| Text.IntToDecimal | complex-agents/future-clinic-demo/utils/json_schema.py:149-150 | `str(i)`: digits without a leading zero for `i >= 0`, a minus sign followed by the digits of `-i` (not starting with `0`) otherwise; either way the text denotes `i` |

## Left out

- LiveKit plumbing is not modelled. This covers construction of the
  speech-to-text, language-model, text-to-speech and voice-activity models in
  each agent's `__init__`, plus `update_chat_ctx`, `generate_reply`,
  `session.say` and the logging. These are foreign async calls. `on_enter` is
  modelled as returning the history it installs and the "agent" attribute it
  sets. Failure of the attribute call is not modelled.
- `set_data` / `load_prompt` are file and YAML I/O plus `str.format`. A handoff
  returns the `get_agent_data` record that `set_data` would serialize. It does
  not return the rendered instructions.
- Handoff.TransferToAgent: succeeds for every registered target. In the
  source, `set_data` (base_agent.py:112) calls `json.dumps` (base_agent.py:57)
  on the agent data. The standard JSON encoder rejects dataclass instances
  such as `Patient`. So for the med-info and confirmation targets the call
  raises before `prev_agent` is assigned at line 114. The model does not
  include that failure.
- Agents.FinishSymptomCollection: succeeds on the demo registry. In the
  source, `finish_symptom_collection` (symptom_agent.py:62) transfers to
  "med_info", whose `set_data` raises that `TypeError` on `Patient`. So the
  tool fails and `prev_agent` is not set.
- Agents.FinishMedInfoCollection: succeeds on the demo registry. In the
  source, `finish_med_info_collection` (med_info_agent.py:64) transfers to
  "confirmation", whose `set_data` raises the same `TypeError`.
- Agents.IntakeFlow: both of its handoffs succeed in the model. In the
  source, each would raise that `TypeError`, for the reason above.
- `prev_agent` holds a snapshot of the previous agent, and the registry maps
  names to agent values. The source shares mutable agent objects. Keeping
  registry entries in sync with the live agents' histories is the session
  driver's job, which is outside this model.
- `UserData()` with no `patient`: the `Patient` dataclass has no field
  defaults, so its default factory would raise. `NewUserData` takes the
  patient, as `demo.py` does.
- `pydantic_to_commented_json_schema` is left out: it calls the pydantic
  library.
- `dataclass_to_commented_json_schema` and its helpers are left out: they rely
  on runtime reflection.
- Float defaults (`str(float)`) are left out. Numeric defaults are integers.
- The `json.dumps` fallback for other default kinds is left out. A JSON value
  has no such kind.
- A schema whose "type" is a list is not modelled; "type" is a single string.
- JsonSchema.LiteralText: the read-back clause covers string defaults without
  a `"` only. The source does no escaping, so a string with a quote does not
  render as valid JSON.
- JsonSchema.DefaultText: its read-back clause carries the same restriction
  on string defaults.
- The form and patient dataclasses are plain records with their fields and no
  behaviour.
- async/await, interruption and concurrency are not modelled: the flow is one
  turn at a time.
- Roles are `system`, `developer`, `user` and `assistant`. Item kinds other
  than message, function call and function-call output are not modelled.
