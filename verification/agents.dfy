/**
 The tool operations each agent of the intake flow exposes to the language
 model: form updates (state changes, no handoff), the finishing tools (a
 transfer to a fixed registry entry) and the final confirmation.
 */
module Agents {
  import opened Wrappers
  import opened SessionState
  import opened Handoff

  /** The fields a form update must leave alone. */
  predicate SameRegistryAndPatient(u: UserData, v: UserData) {
    u.personas == v.personas && u.prevAgent == v.prevAgent && u.ctx == v.ctx && u.patient == v.patient
  }

  /** SymptomAgent's `update_symptom_form`. */
  function UpdateSymptomForm(u: UserData, form: SymptomForm): (r: ToolResult)
    ensures r.outcome == Success(None)
    ensures r.state.symptomForm == form
    ensures SameRegistryAndPatient(r.state, u) && r.state.medInfoForm == u.medInfoForm
  {
    ToolResult(u.(symptomForm := form), Success(None))
  }

  /** SymptomAgent's `finish_symptom_collection`: hand off to "med_info". */
  function FinishSymptomCollection(u: UserData, current: Agent): (r: ToolResult)
    ensures r.outcome.Success? <==> MedInfoName in u.personas
    ensures r.outcome.Success? ==> r.outcome.value == Some(Handoff(u.personas[MedInfoName], GetAgentData(u.personas[MedInfoName].kind, u)))
    ensures r.outcome.Success? ==> r.state == u.(prevAgent := Some(current))
    ensures r.outcome.Failure? ==> r.state == u
  {
    TransferToAgent(u, MedInfoName, current)
  }

  /** MedInfoAgent's `update_med_info_form`. */
  function UpdateMedInfoForm(u: UserData, form: MedInfoForm): (r: ToolResult)
    ensures r.outcome == Success(None)
    ensures r.state.medInfoForm == form
    ensures SameRegistryAndPatient(r.state, u) && r.state.symptomForm == u.symptomForm
  {
    ToolResult(u.(medInfoForm := form), Success(None))
  }

  /** MedInfoAgent's `finish_med_info_collection`: hand off to "confirmation". */
  function FinishMedInfoCollection(u: UserData, current: Agent): (r: ToolResult)
    ensures r.outcome.Success? <==> ConfirmationName in u.personas
    ensures r.outcome.Success? ==> r.outcome.value == Some(Handoff(u.personas[ConfirmationName], GetAgentData(u.personas[ConfirmationName].kind, u)))
    ensures r.outcome.Success? ==> r.state == u.(prevAgent := Some(current))
    ensures r.outcome.Failure? ==> r.state == u
  {
    TransferToAgent(u, ConfirmationName, current)
  }

  /** ConfirmationAgent's `confirm`: the flow ends here. */
  function Confirm(u: UserData): (r: ToolResult)
    ensures r.outcome == Success(None)
    ensures r.state == u
  {
    ToolResult(u, Success(None))
  }

  /** Form updates overwrite: the last one wins. */
  lemma SymptomFormLastWriteWins(u: UserData, f: SymptomForm, g: SymptomForm)
    ensures UpdateSymptomForm(UpdateSymptomForm(u, f).state, g) == UpdateSymptomForm(u, g)
  {
  }

  lemma MedInfoFormLastWriteWins(u: UserData, f: MedInfoForm, g: MedInfoForm)
    ensures UpdateMedInfoForm(UpdateMedInfoForm(u, f).state, g) == UpdateMedInfoForm(u, g)
  {
  }

  /** The med-info form is not part of what MedInfoAgent's instructions see, so
      updating it leaves that agent's data unchanged; ConfirmationAgent sees it. */
  lemma MedInfoUpdateVisibleOnlyToConfirmation(u: UserData, form: MedInfoForm)
    ensures GetAgentData(MedInfoAgent, UpdateMedInfoForm(u, form).state) == GetAgentData(MedInfoAgent, u)
    ensures GetAgentData(ConfirmationAgent, UpdateMedInfoForm(u, form).state)["med_info_form"] == MedInfoValue(form)
  {
  }

  /**
   The intake flow on a registered session: the symptom agent records a form
   and hands off to the med-info agent, which receives the patient and that
   form; the med-info agent records its form and hands off to the confirmation
   agent, which receives all three records; `confirm` ends the flow without a
   further handoff. Each handoff records the agent that made it.
   */
  lemma IntakeFlow(ctx: Option<JobContext>, patient: Patient, symptom: Agent, medInfo: Agent,
                   confirmation: Agent, sf: SymptomForm, mf: MedInfoForm)
    requires medInfo.kind == MedInfoAgent && confirmation.kind == ConfirmationAgent
    ensures
      var s0 := RegisterAgents(NewUserData(ctx, patient), symptom, medInfo, confirmation);
      var s1 := UpdateSymptomForm(s0, sf).state;
      var t1 := FinishSymptomCollection(s1, symptom);
      var s2 := UpdateMedInfoForm(t1.state, mf).state;
      var t2 := FinishMedInfoCollection(s2, medInfo);
      var c := Confirm(t2.state);
      && t1.outcome == Success(Some(Handoff(medInfo,
           map["patient" := PatientValue(patient), "symptom_form" := SymptomValue(sf)])))
      && t1.state.prevAgent == Some(symptom)
      && t2.outcome == Success(Some(Handoff(confirmation,
           map["patient" := PatientValue(patient), "symptom_form" := SymptomValue(sf),
               "med_info_form" := MedInfoValue(mf)])))
      && t2.state.prevAgent == Some(medInfo)
      && c.outcome == Success(None)
      && c.state == t2.state
  {
  }
}
