/**
 The state shared by all agents of one intake session (`UserData`): the
 agent registry, the previously active agent, the job context and the three
 records the agents collect.
 */
module SessionState {
  import opened Wrappers
  import opened History

  datatype Patient = Patient(name: string, age: int, gender: string, city: string, state: string, country: string)

  datatype SymptomInput = SymptomInput(
    name: string,
    sites: seq<string>,
    onset: string,
    timing: string,
    triggers: seq<string>,
    alleviatingFactors: seq<string>,
    worseningFactors: seq<string>)

  datatype SymptomForm = SymptomForm(chiefComplaint: string, symptoms: seq<SymptomInput>)

  datatype AllergyInput = AllergyInput(cause: string, symptom: string, severity: string)

  datatype MedInfoForm = MedInfoForm(
    pastMedicalHistory: seq<string>,
    familyHistory: seq<string>,
    medications: seq<string>,
    otcMedications: seq<string>,
    allergies: seq<AllergyInput>)

  /** The forms built by the dataclasses' default factories. */
  const EmptySymptomForm: SymptomForm := SymptomForm("", [])
  const EmptyMedInfoForm: MedInfoForm := MedInfoForm([], [], [], [], [])

  /** The three agent classes of the intake flow; all of them are `BaseAgent`s. */
  datatype AgentKind = SymptomAgent | MedInfoAgent | ConfirmationAgent

  /** An agent as far as the handoff logic sees it: its class and its chat history. */
  datatype Agent = Agent(kind: AgentKind, chatCtx: seq<Item>)

  /** The job context; only whether it has a room matters to the core. */
  datatype JobContext = JobContext(hasRoom: bool)

  datatype UserData = UserData(
    personas: map<string, Agent>,
    prevAgent: Option<Agent>,
    ctx: Option<JobContext>,
    patient: Patient,
    symptomForm: SymptomForm,
    medInfoForm: MedInfoForm)

  /** `UserData(ctx=ctx, patient=patient)`: every other field takes its default. */
  function NewUserData(ctx: Option<JobContext>, patient: Patient): (u: UserData)
    ensures u.personas == map[]
    ensures u.prevAgent == None
    ensures u.symptomForm.chiefComplaint == "" && u.symptomForm.symptoms == []
    ensures u.medInfoForm.pastMedicalHistory == [] && u.medInfoForm.familyHistory == []
    ensures u.medInfoForm.medications == [] && u.medInfoForm.otcMedications == []
    ensures u.medInfoForm.allergies == []
    ensures u.ctx == ctx && u.patient == patient
  {
    UserData(map[], None, ctx, patient, EmptySymptomForm, EmptyMedInfoForm)
  }

  /** The registry names the flow transfers between. */
  const SymptomName: string := "symptom"
  const MedInfoName: string := "med_info"
  const ConfirmationName: string := "confirmation"

  /** `userdata.personas.update({...})` at session start. */
  function RegisterAgents(u: UserData, symptom: Agent, medInfo: Agent, confirmation: Agent): (r: UserData)
    ensures r.personas.Keys == u.personas.Keys + {SymptomName, MedInfoName, ConfirmationName}
    ensures r.personas[SymptomName] == symptom
    ensures r.personas[MedInfoName] == medInfo
    ensures r.personas[ConfirmationName] == confirmation
    ensures forall name :: name in u.personas && name !in {SymptomName, MedInfoName, ConfirmationName}
              ==> r.personas[name] == u.personas[name]
    ensures r.prevAgent == u.prevAgent && r.ctx == u.ctx && r.patient == u.patient
    ensures r.symptomForm == u.symptomForm && r.medInfoForm == u.medInfoForm
  {
    u.(personas := u.personas[SymptomName := symptom][MedInfoName := medInfo][ConfirmationName := confirmation])
  }

  /** `summarize`: a fixed description, whatever the state holds. */
  function Summarize(u: UserData): string {
    "User data: Medical office triage system"
  }

  lemma SummarizeIgnoresState(u: UserData, v: UserData)
    ensures Summarize(u) == Summarize(v)
    ensures Summarize(u) == "User data: Medical office triage system"
  {
  }
}
