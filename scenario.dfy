/** The document-approval machine of the backend's test suite and the two
    runs the suite makes on it: create, find, refuse a second creation,
    delete; and Init -Submit-> Submitted -Reject-> Rejected -Modify->
    Submitted -Approve-> Approved -Modify-> Submitted, where Close is
    refused. */
module Scenario {
  import opened Rows
  import opened Select
  import opened Queries
  import opened Lookups
  import opened Operations
  import opened Properties

  const SmId: nat := 1
  const SmName: string := "Test State Machine for Document Approval"
  /** The caller-chosen key of the document, who acts, and the comment
      attached to each move. */
  datatype Actor = Actor(externalName: string, externalId: string, who: string, comment: string)

  const Machines: seq<Machine> := [Machine(SmId, SmName, SmName)]

  const InitRow: StateRow := StateRow(SmId, "Init", Initial, "Initial State")
  const OtherStates: seq<StateRow> := [
    StateRow(SmId, "Submitted", Stepping, "Submitted State"),
    StateRow(SmId, "Approved", Stepping, "Approved State"),
    StateRow(SmId, "Rejected", Stepping, "Rejected State"),
    StateRow(SmId, "Closed", Final, "Final State")]
  const States: seq<StateRow> := [InitRow] + OtherStates

  const SubmitRow: Transition := Transition(SmId, "Init", "Submit", "Submitted", "preSubmit", "postSubmit")
  const OtherTransitions: seq<Transition> := [
    Transition(SmId, "Submitted", "Approve", "Approved", "preApprove", "postApprove"),
    Transition(SmId, "Submitted", "Reject", "Rejected", "preReject", "postReject"),
    Transition(SmId, "Approved", "Modify", "Submitted", "preModify", "postModify"),
    Transition(SmId, "Approved", "Close", "Closed", "preClose", "postClose"),
    Transition(SmId, "Rejected", "Modify", "Submitted", "preModify", "postModify"),
    Transition(SmId, "Rejected", "Close", "Closed", "preClose", "postClose")]
  const Transitions: seq<Transition> := [SubmitRow] + OtherTransitions

  const Empty: Tables := Tables([], [], 0)

  function Initiate(a: Actor, db: Tables): (Result<()>, Tables) {
    InitiateInstance(Machines, States, db, a.externalName, a.externalId, SmName, a.who)
  }

  function Move(a: Actor, db: Tables, transitionName: string): (Result<()>, Tables) {
    TransitionInstance(Machines, Transitions, db, a.externalName, a.externalId, SmName, transitionName, a.who, a.comment)
  }

  function StateOf(a: Actor, db: Tables): Result<string> {
    match GetInstance(Machines, db.instances, a.externalName, a.externalId, SmName)
    case Ok(inst) => Ok(inst.smState)
    case Err(e) => Err(e)
  }

  lemma MachineResolves()
    ensures SmIdFromName(Machines, SmName) == Ok(SmId)
  {
    assert OnlyMatchAt(Machines, MachineNamed(SmName), 0);
  }

  lemma InitialStateResolves()
    ensures InitialState(States, SmId) == Ok(InitRow)
  {
    OnlyMatchAtHead(InitRow, OtherStates, InitialStateOf(SmId));
  }

  /** Creating the instance on the empty tables puts it in "Init". */
  lemma Initiated(a: Actor)
    ensures Initiate(a, Empty).0 == Ok(())
    ensures ValidIds(Initiate(a, Empty).1)
    ensures GetInstance(Machines, Initiate(a, Empty).1.instances, a.externalName, a.externalId, SmName)
      == Ok(Instance(0, SmId, a.externalName, a.externalId, "Init", a.who))
  {
    MachineResolves();
    InitialStateResolves();
    InitiateCreates(Machines, States, Empty, a.externalName, a.externalId, SmName, a.who);
    InitiateKeepsValidIds(Machines, States, Empty, a.externalName, a.externalId, SmName, a.who);
  }

  /** In "Init" the only possible transition is Submit. */
  lemma OnlySubmitFromInit(a: Actor, db: Tables)
    requires StateOf(a, db) == Ok("Init")
    ensures GetPossibleTransitions(Machines, db.instances, Transitions, a.externalName, a.externalId, SmName)
      == Ok([SubmitRow])
  {
    MachineResolves();
    var inst := GetInstance(Machines, db.instances, a.externalName, a.externalId, SmName).value;
    assert inst.smId == SmId && inst.smState == "Init";
    var leaving := LeavingState(SmId, "Init");
    FilterNone(OtherTransitions, leaving);
    FilterAppend([SubmitRow], OtherTransitions, leaving);
    assert Filter([SubmitRow], leaving) == [SubmitRow];
    assert GetPossibleTransitionRows(Transitions, SmId, "Init") == [SubmitRow];
  }

  lemma OneMachine()
    ensures forall t :: t in Transitions ==> t.smId == SmId
  {
  }

  /** The table has a transition `transitionName` out of `from`, and every
      such row goes to `to`. */
  ghost predicate Leads(from: string, transitionName: string, to: string) {
    && (exists t :: t in Transitions && t.fromState == from && t.transitionName == transitionName)
    && (forall t :: t in Transitions && t.fromState == from && t.transitionName == transitionName ==> t.toState == to)
  }

  /** From `from`, the transition `transitionName` whose only destination
      is `to` is taken. */
  lemma Moves(a: Actor, db: Tables, transitionName: string, from: string, to: string)
    requires |a.comment| <= MaxCommentLength
    requires ValidIds(db) && StateOf(a, db) == Ok(from)
    requires Leads(from, transitionName, to)
    ensures Move(a, db, transitionName).0 == Ok(())
    ensures StateOf(a, Move(a, db, transitionName).1) == Ok(to)
    ensures ValidIds(Move(a, db, transitionName).1)
  {
    MachineResolves();
    OneMachine();
    var inst := GetInstance(Machines, db.instances, a.externalName, a.externalId, SmName).value;
    assert inst.smId == SmId && inst.smState == from;
    var possible := GetPossibleTransitions(Machines, db.instances, Transitions, a.externalName, a.externalId, SmName);
    TransitionAllowedIff(Machines, Transitions, db, a.externalName, a.externalId, SmName, transitionName, a.who, a.comment);
    var t :| t in Transitions && t.fromState == from && t.transitionName == transitionName;
    assert t in possible.value;
    assert Move(a, db, transitionName).0.Ok?;
    TransitionApplies(Machines, Transitions, db, a.externalName, a.externalId, SmName, transitionName, a.who, a.comment);
    TransitionKeepsValidIds(Machines, Transitions, db, a.externalName, a.externalId, SmName, transitionName, a.who, a.comment);
  }

  /** From `from`, a transition name that no row leaving `from` carries is
      refused and nothing changes. */
  lemma Refused(a: Actor, db: Tables, transitionName: string, from: string)
    requires |a.comment| <= MaxCommentLength
    requires StateOf(a, db) == Ok(from)
    requires forall t :: t in Transitions && t.fromState == from ==> t.transitionName != transitionName
    ensures Move(a, db, transitionName) == (Err(TransitionNotAllowed), db)
  {
    MachineResolves();
    TransitionAllowedIff(Machines, Transitions, db, a.externalName, a.externalId, SmName, transitionName, a.who, a.comment);
  }

  /** The caller's side of the run: the moves of `route` in order,
      stopping at the first one rejected. */
  function Walk(a: Actor, db: Tables, route: seq<string>): (Result<()>, Tables)
    decreases |route|
  {
    if route == [] then (Ok(()), db)
    else
      var (outcome, db') := Walk(a, db, route[..|route| - 1]);
      if outcome.Err? then (outcome, db') else Move(a, db', route[|route| - 1])
  }

  /** A route each of whose moves `Leads` from one state of `path` to the
      next is taken to the end, through exactly the states of `path`. */
  lemma {:induction false} WalkFollows(a: Actor, db: Tables, route: seq<string>, path: seq<string>)
    requires |a.comment| <= MaxCommentLength
    requires ValidIds(db) && |path| == |route| + 1 && StateOf(a, db) == Ok(path[0])
    requires forall i :: 0 <= i < |route| ==> Leads(path[i], route[i], path[i + 1])
    ensures Walk(a, db, route).0 == Ok(())
    ensures StateOf(a, Walk(a, db, route).1) == Ok(path[|route|])
    ensures ValidIds(Walk(a, db, route).1)
    decreases |route|
  {
    if route != [] {
      var n := |route| - 1;
      var prefix, steps := route[..n], path[..n + 1];
      forall i | 0 <= i < |prefix| ensures Leads(steps[i], prefix[i], steps[i + 1]) {
        assert steps[i] == path[i] && prefix[i] == route[i] && steps[i + 1] == path[i + 1];
      }
      WalkFollows(a, db, prefix, steps);
      var reached := Walk(a, db, prefix).1;
      assert Walk(a, db, route) == Move(a, reached, route[n]);
      Moves(a, reached, route[n], path[n], path[n + 1]);
    }
  }

  const Route: seq<string> := ["Submit", "Reject", "Modify", "Approve", "Modify"]
  const Path: seq<string> := ["Init", "Submitted", "Rejected", "Submitted", "Approved", "Submitted"]

  lemma LeadsFromInit()
    ensures Leads("Init", "Submit", "Submitted")
  {
    assert Transitions[0] in Transitions;
  }

  lemma ApproveFromSubmitted()
    ensures Leads("Submitted", "Approve", "Approved")
  {
    assert Transitions[1] in Transitions;
  }

  lemma RejectFromSubmitted()
    ensures Leads("Submitted", "Reject", "Rejected")
  {
    assert Transitions[2] in Transitions;
  }

  lemma LeadsFromApproved()
    ensures Leads("Approved", "Modify", "Submitted")
  {
    assert Transitions[3] in Transitions;
  }

  lemma LeadsFromRejected()
    ensures Leads("Rejected", "Modify", "Submitted")
  {
    assert Transitions[5] in Transitions;
  }

  lemma NoCloseFromSubmitted()
    ensures forall t :: t in Transitions && t.fromState == "Submitted" ==> t.transitionName != "Close"
  {
  }

  lemma RouteLeads()
    ensures forall i :: 0 <= i < |Route| ==> Leads(Path[i], Route[i], Path[i + 1])
  {
    forall i | 0 <= i < |Route| ensures Leads(Path[i], Route[i], Path[i + 1]) {
      if i == 0 {
        assert Path[0] == "Init" && Route[0] == "Submit" && Path[1] == "Submitted";
        LeadsFromInit();
      } else if i == 1 {
        assert Path[1] == "Submitted" && Route[1] == "Reject" && Path[2] == "Rejected";
        RejectFromSubmitted();
      } else if i == 2 {
        assert Path[2] == "Rejected" && Route[2] == "Modify" && Path[3] == "Submitted";
        LeadsFromRejected();
      } else if i == 3 {
        assert Path[3] == "Submitted" && Route[3] == "Approve" && Path[4] == "Approved";
        ApproveFromSubmitted();
      } else {
        assert i == 4;
        assert Path[4] == "Approved" && Route[4] == "Modify" && Path[5] == "Submitted";
        LeadsFromApproved();
      }
    }
  }

  /** From an instance in "Init", each prefix of Submit, Reject, Modify,
      Approve, Modify is accepted and leaves the instance in the matching
      state of Init, Submitted, Rejected, Submitted, Approved, Submitted;
      Close is then refused and changes nothing. */
  lemma ApprovalRoute(a: Actor, db: Tables)
    requires |a.comment| <= MaxCommentLength
    requires ValidIds(db) && StateOf(a, db) == Ok("Init")
    ensures forall i :: 0 <= i <= |Route| ==>
      Walk(a, db, Route[..i]).0 == Ok(()) && StateOf(a, Walk(a, db, Route[..i]).1) == Ok(Path[i])
    ensures Move(a, Walk(a, db, Route).1, "Close") == (Err(TransitionNotAllowed), Walk(a, db, Route).1)
  {
    RouteLeads();
    forall i | 0 <= i <= |Route|
      ensures Walk(a, db, Route[..i]).0 == Ok(()) && StateOf(a, Walk(a, db, Route[..i]).1) == Ok(Path[i])
    {
      WalkFollows(a, db, Route[..i], Path[..i + 1]);
    }
    assert Route[..|Route|] == Route;
    NoCloseFromSubmitted();
    Refused(a, Walk(a, db, Route).1, "Close", "Submitted");
  }

  /** The approval run of the test suite, for any document key and actor:
      creation on empty tables puts the instance in "Init" with Submit its
      only move, and the route above then runs as described. */
  lemma DocumentApproval(a: Actor)
    requires |a.comment| <= MaxCommentLength
    ensures Initiate(a, Empty).0 == Ok(())
    ensures StateOf(a, Initiate(a, Empty).1) == Ok("Init")
    ensures GetPossibleTransitions(Machines, Initiate(a, Empty).1.instances, Transitions,
                                   a.externalName, a.externalId, SmName) == Ok([SubmitRow])
    ensures Walk(a, Initiate(a, Empty).1, Route).0 == Ok(())
    ensures StateOf(a, Walk(a, Initiate(a, Empty).1, Route).1) == Ok("Submitted")
  {
    Initiated(a);
    var db0 := Initiate(a, Empty).1;
    OnlySubmitFromInit(a, db0);
    ApprovalRoute(a, db0);
    assert Route[..|Route|] == Route;
  }

  /** The create-find-delete run of the test suite, and lookups and deletes
      on a key that never had an instance. */
  lemma InitiateFindDelete(a: Actor, other: string)
    requires other != a.externalName
    ensures var (r0, db0) := Initiate(a, Empty);
      var (r1, db1) := DeleteInstance(Machines, db0, a.externalName, a.externalId, SmName);
      && r0 == Ok(())
      && GetInstance(Machines, db0.instances, a.externalName, a.externalId, SmName).Ok?
      && GetInstance(Machines, db0.instances, a.externalName, a.externalId, SmName).value.smId == SmId
      && Initiate(a, db0) == (Err(ExistingInstanceFound), db0)
      && r1 == Ok(())
      && GetInstance(Machines, db1.instances, a.externalName, a.externalId, SmName) == Err(NoInstanceFound)
      && GetInstance(Machines, db0.instances, other, a.externalId, SmName) == Err(NoInstanceFound)
      && DeleteInstance(Machines, db0, other, a.externalId, SmName) == (Err(NoInstanceFound), db0)
  {
    Initiated(a);
    MachineResolves();
    var db0 := Initiate(a, Empty).1;
    InitiateRejections(Machines, States, db0, a.externalName, a.externalId, SmName, a.who);
    DeleteRemoves(Machines, db0, a.externalName, a.externalId, SmName);
    var key := InstanceKeyed(other, a.externalId, SmId);
    assert !key(db0.instances[0]);
  }
}
