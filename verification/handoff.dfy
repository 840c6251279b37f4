/**
 The `BaseAgent` handoff logic: the activation hook `on_enter` that merges the
 previous agent's truncated history into the new agent's own, the per-agent
 data projection `get_agent_data`, and `_transfer_to_agent`.
 */
module Handoff {
  import opened Wrappers
  import opened History
  import opened Truncation
  import opened SessionState

  /** `on_enter` truncates the predecessor's history to its last 50 eligible
      items, dropping system messages and keeping function calls. */
  const HandoffKeepLastN: int := 50
  const HandoffPolicy: Policy := Policy(keepSystemMessage := false, keepFunctionCall := true)

  // ---------------------------------------------------------------------
  // Merging the predecessor's history.

  /** `[item for item in items_copy if item.id not in existing_ids]`. */
  function NewItems(incoming: seq<Item>, existing: set<ItemId>): (r: seq<Item>)
    ensures |r| <= |incoming|
    ensures forall k :: 0 <= k < |r| ==> r[k].id !in existing && r[k] in incoming
    ensures forall k :: 0 <= k < |incoming| && incoming[k].id !in existing ==> incoming[k] in r
    ensures UniqueIds(incoming) ==> UniqueIds(r)
    decreases |incoming|
  {
    if |incoming| == 0 then []
    else
      var rest := incoming[..|incoming| - 1];
      var item := incoming[|incoming| - 1];
      var kept := NewItems(rest, existing);
      assert incoming == rest + [item];
      assert forall k :: 0 <= k < |rest| ==> rest[k] == incoming[k];
      if item.id in existing then kept
      else
        assert UniqueIds(incoming) ==> forall k :: 0 <= k < |kept| ==> kept[k].id != item.id by {
          if UniqueIds(incoming) {
            forall k | 0 <= k < |kept|
              ensures kept[k].id != item.id
            {
              var m :| 0 <= m < |rest| && rest[m] == kept[k];
              assert incoming[m] == kept[k];
            }
          }
        }
        kept + [item]
  }

  /** The kept items appear in the order the incoming history has them. */
  lemma {:induction false} NewItemsIsSubsequence(incoming: seq<Item>, existing: set<ItemId>)
    ensures IsSubsequence(NewItems(incoming, existing), incoming)
    decreases |incoming|
  {
    if |incoming| == 0 {
      SubsequenceEmpty(incoming);
    } else {
      var rest := incoming[..|incoming| - 1];
      var item := incoming[|incoming| - 1];
      assert incoming == rest + [item];
      NewItemsIsSubsequence(rest, existing);
      if item.id in existing {
        SubsequenceExtendSource(NewItems(rest, existing), rest, item);
      } else {
        SubsequenceExtendBoth(NewItems(rest, existing), rest, item);
      }
    }
  }

  /** The filter keeps every item whose id is unknown exactly as often as the
      incoming history holds it, and no item whose id is known. */
  lemma {:induction false} NewItemsMultiplicity(incoming: seq<Item>, existing: set<ItemId>)
    ensures forall x :: multiset(NewItems(incoming, existing))[x] == if x.id in existing then 0 else multiset(incoming)[x]
    decreases |incoming|
  {
    if |incoming| > 0 {
      var rest := incoming[..|incoming| - 1];
      var item := incoming[|incoming| - 1];
      assert incoming == rest + [item];
      NewItemsMultiplicity(rest, existing);
      assert multiset(incoming) == multiset(rest) + multiset{item};
      if item.id !in existing {
        assert NewItems(incoming, existing) == NewItems(rest, existing) + [item];
        assert multiset(NewItems(incoming, existing)) == multiset(NewItems(rest, existing)) + multiset{item};
      }
    }
  }

  /** When every incoming id is already known, nothing is added. */
  lemma {:induction false} NewItemsAllKnown(incoming: seq<Item>, existing: set<ItemId>)
    requires forall k :: 0 <= k < |incoming| ==> incoming[k].id in existing
    ensures NewItems(incoming, existing) == []
    decreases |incoming|
  {
    if |incoming| > 0 {
      NewItemsAllKnown(incoming[..|incoming| - 1], existing);
    }
  }

  /** `chat_ctx.items.extend(...)` after the id filter. */
  function MergeHistory(own: seq<Item>, incoming: seq<Item>): (r: seq<Item>)
    ensures |own| <= |r| <= |own| + |incoming|
    ensures r[..|own|] == own
    ensures forall k :: |own| <= k < |r| ==> r[k].id !in Ids(own) && r[k] in incoming
    ensures forall k :: 0 <= k < |incoming| && incoming[k].id !in Ids(own) ==> incoming[k] in r[|own|..]
    ensures IsSubsequence(r[|own|..], incoming)
  {
    var added := NewItems(incoming, Ids(own));
    NewItemsIsSubsequence(incoming, Ids(own));
    assert (own + added)[|own|..] == added;
    own + added
  }

  /** The appended part holds each incoming item with a new id exactly as often
      as the incoming history does, and no item with a known id. */
  lemma MergeMultiplicity(own: seq<Item>, incoming: seq<Item>)
    ensures var r := MergeHistory(own, incoming);
            forall x :: multiset(r[|own|..])[x] == if x.id in Ids(own) then 0 else multiset(incoming)[x]
  {
    NewItemsMultiplicity(incoming, Ids(own));
  }

  /** Merging the same history twice adds nothing the second time: re-entering
      an agent with an unchanged predecessor does not duplicate items. */
  lemma MergeIdempotent(own: seq<Item>, incoming: seq<Item>)
    ensures MergeHistory(MergeHistory(own, incoming), incoming) == MergeHistory(own, incoming)
  {
    var m := MergeHistory(own, incoming);
    forall k | 0 <= k < |incoming|
      ensures incoming[k].id in Ids(m)
    {
      if incoming[k].id in Ids(own) {
        var j :| 0 <= j < |own| && own[j].id == incoming[k].id;
        assert m[j] == own[j];
      } else {
        assert incoming[k] in m[|own|..];
        var j :| 0 <= j < |m[|own|..]| && m[|own|..][j] == incoming[k];
        assert m[|own| + j] == incoming[k];
      }
    }
    NewItemsAllKnown(incoming, Ids(m));
    assert m + [] == m;
  }

  /** The merge removes duplicates only against the ids already present: when
      both histories have unique ids so does the result. */
  lemma MergeUniqueIds(own: seq<Item>, incoming: seq<Item>)
    requires UniqueIds(own)
    requires UniqueIds(incoming)
    ensures UniqueIds(MergeHistory(own, incoming))
  {
    var m := MergeHistory(own, incoming);
    var added := NewItems(incoming, Ids(own));
    assert m == own + added;
    forall i, j | 0 <= i < j < |m|
      ensures m[i].id != m[j].id
    {
      if j < |own| {
        assert m[i] == own[i] && m[j] == own[j];
      } else if i < |own| {
        assert m[i] == own[i];
        assert m[i].id in Ids(own);
      } else {
        assert m[i] == added[i - |own|] && m[j] == added[j - |own|];
      }
    }
  }

  /** Two incoming items that share an id not yet present are both appended:
      the id filter does not deduplicate within the incoming batch. */
  lemma MergeKeepsDuplicatesWithinBatch(own: seq<Item>, a: Item, b: Item)
    requires a.id == b.id && a.id !in Ids(own)
    ensures MergeHistory(own, [a, b]) == own + [a, b]
  {
    assert [a, b][..1] == [a];
    assert [a][..0] == [];
    assert NewItems([a], Ids(own)) == [a];
    assert NewItems([a, b], Ids(own)) == [a, b];
  }

  // ---------------------------------------------------------------------
  // Activation.

  /** The class name written as the participant's "agent" attribute. */
  function AgentClassName(kind: AgentKind): string {
    match kind
    case SymptomAgent => "SymptomAgent"
    case MedInfoAgent => "MedInfoAgent"
    case ConfirmationAgent => "ConfirmationAgent"
  }

  /** What `on_enter` produces: the chat history handed to `update_chat_ctx`
      and the "agent" attribute set on the room's local participant, if any. */
  datatype Activation = Activation(chatCtx: seq<Item>, agentAttribute: Option<string>)

  /** The predecessor items the new agent receives. */
  function HandoffItems(prev: Agent): seq<Item> {
    Truncate(prev.chatCtx, HandoffKeepLastN, HandoffPolicy)
  }

  /** `BaseAgent.on_enter` for agent `self` with shared state `u`. */
  function OnEnter(self: Agent, u: UserData): (r: Activation)
    ensures u.prevAgent.None? ==> r.chatCtx == self.chatCtx
    ensures |r.chatCtx| >= |self.chatCtx|
    ensures r.chatCtx[..|self.chatCtx|] == self.chatCtx
    ensures u.prevAgent.Some? ==>
      var added := r.chatCtx[|self.chatCtx|..];
      && |added| <= HandoffKeepLastN
      && IsSubsequence(added, u.prevAgent.value.chatCtx)
      && (forall k :: 0 <= k < |added| ==> !IsSystemMessage(added[k]) && added[k].id !in Ids(self.chatCtx))
    ensures r.agentAttribute.Some? <==> u.ctx.Some? && u.ctx.value.hasRoom
    ensures r.agentAttribute.Some? ==> r.agentAttribute.value == AgentClassName(self.kind)
  {
    var attribute := if u.ctx.Some? && u.ctx.value.hasRoom then Some(AgentClassName(self.kind)) else None;
    match u.prevAgent
    case None => Activation(self.chatCtx, attribute)
    case Some(prev) =>
      var incoming := HandoffItems(prev);
      var merged := MergeHistory(self.chatCtx, incoming);
      SubsequenceTransitive(merged[|self.chatCtx|..], incoming, prev.chatCtx);
      SubsequenceElements(merged[|self.chatCtx|..], incoming);
      assert forall k :: 0 <= k < |merged| - |self.chatCtx| ==> merged[|self.chatCtx|..][k] in incoming;
      Activation(merged, attribute)
  }

  /** Activation never introduces a duplicate id: when the agent's own history
      and the predecessor's history each have unique ids, so does the history
      installed by `on_enter`. */
  lemma OnEnterUniqueIds(self: Agent, u: UserData)
    requires UniqueIds(self.chatCtx)
    requires u.prevAgent.Some? ==> UniqueIds(u.prevAgent.value.chatCtx)
    ensures UniqueIds(OnEnter(self, u).chatCtx)
  {
    if u.prevAgent.Some? {
      var prev := u.prevAgent.value;
      SubsequenceUniqueIds(HandoffItems(prev), prev.chatCtx);
      MergeUniqueIds(self.chatCtx, HandoffItems(prev));
    }
  }

  // ---------------------------------------------------------------------
  // Instruction data and transfer.

  /** The values that can appear in an agent's instruction data. */
  datatype DataValue = PatientValue(patient: Patient) | SymptomValue(symptomForm: SymptomForm) | MedInfoValue(medInfoForm: MedInfoForm)

  type AgentData = map<string, DataValue>

  /** `get_agent_data`: the base class returns `{}`; MedInfoAgent and
      ConfirmationAgent select the records their prompts need. */
  function GetAgentData(kind: AgentKind, u: UserData): (d: AgentData)
    ensures kind == SymptomAgent ==> d == map[]
    ensures kind == MedInfoAgent ==> d.Keys == {"patient", "symptom_form"}
    ensures kind == ConfirmationAgent ==> d.Keys == {"patient", "symptom_form", "med_info_form"}
    ensures "patient" in d ==> d["patient"] == PatientValue(u.patient)
    ensures "symptom_form" in d ==> d["symptom_form"] == SymptomValue(u.symptomForm)
    ensures "med_info_form" in d ==> d["med_info_form"] == MedInfoValue(u.medInfoForm)
  {
    match kind
    case SymptomAgent => map[]
    case MedInfoAgent => map["patient" := PatientValue(u.patient), "symptom_form" := SymptomValue(u.symptomForm)]
    case ConfirmationAgent =>
      map["patient" := PatientValue(u.patient), "symptom_form" := SymptomValue(u.symptomForm),
          "med_info_form" := MedInfoValue(u.medInfoForm)]
  }

  /** An agent's instruction data reads nothing but the records it selects:
      two states that agree on the patient and the forms give the same data. */
  lemma AgentDataReadsOnlyForms(kind: AgentKind, u: UserData, v: UserData)
    requires u.patient == v.patient && u.symptomForm == v.symptomForm
    requires kind != ConfirmationAgent || u.medInfoForm == v.medInfoForm
    ensures GetAgentData(kind, u) == GetAgentData(kind, v)
  {
  }

  /** `KeyError` raised by `userdata.personas[name]`. */
  datatype TransferError = UnknownAgent(name: string)

  /** The agent a transfer returns, with the data its `set_data` refresh
      renders into its instructions. */
  datatype Handoff = Handoff(agent: Agent, instructionData: AgentData)

  /** The result of a tool call: the shared state afterwards and either the agent
      to hand off to (`None` when the tool returns `None`) or the raised error. */
  datatype ToolResult = ToolResult(state: UserData, outcome: Result<Option<Handoff>, TransferError>)

  /** `_transfer_to_agent(name, context)` called by the active agent `current`. */
  function TransferToAgent(u: UserData, name: string, current: Agent): (r: ToolResult)
    ensures r.outcome.Success? <==> name in u.personas
    ensures name in u.personas ==>
      && r.outcome.value.Some?
      && r.outcome.value.value.agent == u.personas[name]
      && r.outcome.value.value.instructionData == GetAgentData(u.personas[name].kind, u)
      && r.state.prevAgent == Some(current)
    ensures name in u.personas ==> r.state == u.(prevAgent := Some(current))
    ensures name !in u.personas ==> r.state == u && r.outcome == Failure(UnknownAgent(name))
  {
    if name !in u.personas then ToolResult(u, Failure(UnknownAgent(name)))
    else
      var next := u.personas[name];
      ToolResult(u.(prevAgent := Some(current)), Success(Some(Handoff(next, GetAgentData(next.kind, u)))))
  }

  /** A transfer followed by the target's activation: the target keeps its own
      history and receives the caller's truncated history, minus known ids. */
  lemma TransferThenEnter(u: UserData, name: string, current: Agent)
    requires name in u.personas
    ensures var r := TransferToAgent(u, name, current);
            var next := r.outcome.value.value.agent;
            OnEnter(next, r.state).chatCtx
              == MergeHistory(next.chatCtx, Truncate(current.chatCtx, HandoffKeepLastN, HandoffPolicy))
  {
  }

  /** The first activation of a session performs no merge. */
  lemma FirstActivationKeepsOwnHistory(self: Agent, ctx: Option<JobContext>, patient: Patient)
    ensures OnEnter(self, NewUserData(ctx, patient)).chatCtx == self.chatCtx
  {
  }

  /** A fresh state has no transfer targets: every transfer from it fails and
      leaves it unchanged. */
  lemma FreshStateHasNoTargets(ctx: Option<JobContext>, patient: Patient, name: string, current: Agent)
    ensures TransferToAgent(NewUserData(ctx, patient), name, current).outcome == Failure(UnknownAgent(name))
    ensures TransferToAgent(NewUserData(ctx, patient), name, current).state == NewUserData(ctx, patient)
  {
  }
}
