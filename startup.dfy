/** The startup tracker: the request helpers that strip server-managed fields and shape the
    updated record, the stage stepper on each card, and the page's add and update handlers. */
module Startup {
  import opened Values
  import opened Collections
  import opened Cookies

  const StartupId := "startup_id"

  /** The fields the update helper pulls out of the data before sending it. */
  const ServerManaged: set<string> := {"updated_at", "created_at", "startup_id"}

  /** `const { updated_at, created_at, startup_id, ...cleanData } = data`: the rest object,
      the body of the update request. */
  function StripForUpdate(data: Record): (clean: Record)
    ensures clean.Keys == data.Keys - ServerManaged
    ensures forall k :: k in clean ==> clean[k] == data[k]
  {
    data - ServerManaged
  }

  /** What the update helper returns: the cleaned data, overridden by the server's answer,
      with the id the request was made for. */
  function UpdatedRecord(id: Value, data: Record, result: Record): (r: Record)
    ensures Get(r, StartupId) == id
    ensures r.Keys == (data.Keys - ServerManaged) + result.Keys + {StartupId}
    ensures forall k :: k in result && k != StartupId ==> r[k] == result[k]
    ensures forall k :: k in data && k !in ServerManaged && k !in result ==> r[k] == data[k]
  {
    (StripForUpdate(data) + result)[StartupId := id]
  }

  /** The id the page adds to the form data does not reach the request body. */
  lemma IdNotInBody(data: Record, id: Value)
    ensures StripForUpdate(data[StartupId := id]) == StripForUpdate(data)
    ensures StartupId !in StripForUpdate(data)
  {
    assert StripForUpdate(data[StartupId := id]).Keys == StripForUpdate(data).Keys;
  }

  /** `fetchStartups`: the decoded list, or an empty list when the request fails. */
  function FetchStartupsResult(response: Outcome<seq<Record>>): (list: seq<Record>)
    ensures response.Fail? ==> list == []
    ensures response.Ok? ==> list == response.value
  {
    match response
    case Ok(list) => list
    case Fail(_) => []
  }

  /** The stepper's stages, in order. */
  const Stages: seq<string> := ["Idea", "Prototype", "MVP", "Launched", "Funded"]

  /** `stages.indexOf(currentStage || "Idea")`: an absent or empty stage counts as `Idea`;
      a value that is not one of the stage names gives -1. */
  function StageIndex(currentStage: Value): (k: int)
    ensures -1 <= k < |Stages|
    ensures !Truthy(currentStage) ==> k == 0
    ensures Truthy(currentStage) ==> (k == -1 <==> forall i :: 0 <= i < |Stages| ==> currentStage != Str(Stages[i]))
    ensures Truthy(currentStage) && 0 <= k ==> currentStage == Str(Stages[k])
  {
    var stage := if Truthy(currentStage) then currentStage else Str("Idea");
    assert Stages[0] == "Idea" && Stages[1] == "Prototype" && Stages[2] == "MVP" && Stages[3] == "Launched" && Stages[4] == "Funded";
    if stage == Str("Idea") then 0
    else if stage == Str("Prototype") then 1
    else if stage == Str("MVP") then 2
    else if stage == Str("Launched") then 3
    else if stage == Str("Funded") then 4
    else -1
  }

  /** One step of the stepper: its circle is lit when reached, and every step but the last
      has a connector to the next, lit or not. */
  datatype Step = Step(name: string, reached: bool, connector: Option<bool>)

  /** The stepper drawn for a card's current stage. */
  function Stepper(currentStage: Value): (steps: seq<Step>)
    ensures |steps| == |Stages|
    ensures forall i :: 0 <= i < |steps| ==> steps[i].name == Stages[i]
    ensures forall i :: 0 <= i < |steps| ==> (steps[i].reached <==> i <= StageIndex(currentStage))
    ensures forall i :: 0 <= i < |steps| ==> (steps[i].connector.Some? <==> i < |Stages| - 1)
    ensures forall i :: 0 <= i < |steps| - 1 ==> (steps[i].connector == Some(i < StageIndex(currentStage)))
  {
    var k := StageIndex(currentStage);
    seq(|Stages|, i requires 0 <= i < |Stages| =>
      Step(Stages[i], i <= k, if i < |Stages| - 1 then Some(i < k) else None))
  }

  /** How many circles of a stepper are lit. */
  function ReachedCount(steps: seq<Step>): nat
  {
    if steps == [] then 0 else (if steps[0].reached then 1 else 0) + ReachedCount(steps[1..])
  }

  lemma {:induction false} ReachedCountOfPrefix(steps: seq<Step>, k: int)
    requires forall i :: 0 <= i < |steps| ==> (steps[i].reached <==> i <= k)
    ensures ReachedCount(steps) == if k < 0 then 0 else if k < |steps| then k + 1 else |steps|
  {
    if steps != [] {
      ReachedCountOfPrefix(steps[1..], k - 1);
    }
  }

  /** The lit circles are exactly the first `StageIndex + 1`: the current stage and those
      before it; an unknown stage lights none. */
  lemma LitCircles(currentStage: Value)
    ensures ReachedCount(Stepper(currentStage)) == StageIndex(currentStage) + 1
    ensures forall i, j :: 0 <= i <= j < |Stages| && Stepper(currentStage)[j].reached ==> Stepper(currentStage)[i].reached
  {
    ReachedCountOfPrefix(Stepper(currentStage), StageIndex(currentStage));
  }

  /** A lit connector joins two lit circles. */
  lemma LitConnectorBetweenLitCircles(currentStage: Value, i: nat)
    requires i < |Stages| - 1 && Stepper(currentStage)[i].connector == Some(true)
    ensures Stepper(currentStage)[i].reached && Stepper(currentStage)[i + 1].reached
  {
  }

  /** The page's state. */
  class StartupPage {
    var startups: seq<Record>
    var error: Option<string>
    var isLoading: bool
    var showAddModal: bool
    var startupToEdit: Option<Record>
    var startupToView: Option<Record>

    constructor ()
      ensures startups == [] && error == None && isLoading && !showAddModal
      ensures startupToEdit == None && startupToView == None
    {
      startups := [];
      error := None;
      isLoading := true;
      showAddModal := false;
      startupToEdit := None;
      startupToView := None;
    }

    /** The session effect: without a session the page sends the visitor to `/auth`. */
    static method CheckSession(cookie: string) returns (redirectToAuth: bool)
      ensures redirectToAuth == !HasSession(cookie)
    {
      redirectToAuth := !HasSession(cookie);
    }

    /** `getStartups`: the list is whatever `fetchStartups` gives, empty on failure, and the
        error is cleared, since that helper never throws. */
    method LoadStartups(response: Outcome<seq<Record>>)
      modifies this`startups, this`error, this`isLoading
      ensures startups == FetchStartupsResult(response) && error == None && !isLoading
    {
      isLoading := true;
      startups := FetchStartupsResult(response);
      error := None;
      isLoading := false;
    }

    /** `handleAddStartup`: the saved startup goes at the end; a failure is passed on to
        the caller and changes nothing. */
    method AddStartup(response: Outcome<Record>) returns (result: Outcome<Record>)
      modifies this`startups
      ensures result == response
      ensures startups == if response.Ok? then old(startups) + [response.value] else old(startups)
    {
      if response.Ok? {
        startups := startups + [response.value];
      }
      result := response;
    }

    /** `editStartup` */
    method EditStartup(startup: Record)
      modifies this`startupToEdit
      ensures startupToEdit == Some(startup)
    {
      startupToEdit := Some(startup);
    }

    /** `viewStartup` */
    method ViewStartup(startup: Record)
      modifies this`startupToView
      ensures startupToView == Some(startup)
    {
      startupToView := Some(startup);
    }

    /** `handleUpdateStartup`: refused without a selected startup carrying a truthy id;
        otherwise the form data, without server-managed fields, is sent, and on success
        every entry with that id is replaced by the updated record and the modal closes.
        `body` is the request body, `None` when nothing is sent. */
    method UpdateStartup(updatedData: Record, response: Outcome<Record>) returns (result: Outcome<Record>, body: Option<Record>)
      modifies this`startups, this`startupToEdit, this`showAddModal
      ensures old(startupToEdit).None? || !Truthy(Get(old(startupToEdit).value, StartupId)) ==>
                body == None && result == Fail("Invalid startup selected for update") &&
                startups == old(startups) && startupToEdit == old(startupToEdit) && showAddModal == old(showAddModal)
      ensures old(startupToEdit).Some? && Truthy(Get(old(startupToEdit).value, StartupId)) ==>
                var id := Get(old(startupToEdit).value, StartupId);
                body == Some(StripForUpdate(updatedData)) &&
                (response.Fail? ==>
                   result == response && startups == old(startups) &&
                   startupToEdit == old(startupToEdit) && showAddModal == old(showAddModal)) &&
                (response.Ok? ==>
                   result == Ok(UpdatedRecord(id, updatedData, response.value)) &&
                   startups == ReplaceId(old(startups), StartupId, id, result.value) &&
                   startupToEdit == None && !showAddModal)
    {
      if startupToEdit.None? || !Truthy(Get(startupToEdit.value, StartupId)) {
        return Fail("Invalid startup selected for update"), None;
      }
      var id := Get(startupToEdit.value, StartupId);
      var updateData := updatedData[StartupId := id];
      IdNotInBody(updatedData, id);
      body := Some(StripForUpdate(updateData));
      match response {
        case Fail(_) =>
          result := response;
        case Ok(answer) =>
          var updated := UpdatedRecord(id, updateData, answer);
          assert updated == UpdatedRecord(id, updatedData, answer);
          startups := ReplaceId(startups, StartupId, id, updated);
          startupToEdit := None;
          showAddModal := false;
          result := Ok(updated);
      }
    }
  }

  /** An update keeps the list's length and every entry's id, so ids that were unique stay
      unique. */
  lemma UpdateKeepsIds(xs: seq<Record>, id: Value, data: Record, answer: Record)
    ensures |ReplaceId(xs, StartupId, id, UpdatedRecord(id, data, answer))| == |xs|
    ensures forall i :: 0 <= i < |xs| ==>
              Get(ReplaceId(xs, StartupId, id, UpdatedRecord(id, data, answer))[i], StartupId) == Get(xs[i], StartupId)
    ensures UniqueIds(xs, StartupId) ==> UniqueIds(ReplaceId(xs, StartupId, id, UpdatedRecord(id, data, answer)), StartupId)
  {
    ReplaceIdKeepsIds(xs, StartupId, id, UpdatedRecord(id, data, answer));
  }
}
