/** The read-only operations of the backend: resolving a machine name,
    finding a live instance, the initial state of a machine, the transitions
    possible from an instance's current state and an instance's history.
    Each re-reads the tables it is given; nothing is cached between calls. */
module Lookups {
  import opened Rows
  import opened Select
  import opened Queries

  /** `smIdFromName`: the id of the one machine called `smName`. */
  function SmIdFromName(machines: seq<Machine>, smName: string): (r: Result<nat>)
    ensures r.Ok? || r == Err(NoSMFound) || r == Err(MultipleSMFound)
    ensures r == Err(NoSMFound) <==> NoMatch(machines, MachineNamed(smName))
    ensures r == Err(MultipleSMFound) <==> SeveralMatch(machines, MachineNamed(smName))
    ensures r.Ok? <==> exists k :: OnlyMatchAt(machines, MachineNamed(smName), k)
    ensures r.Ok? ==> forall k :: OnlyMatchAt(machines, MachineNamed(smName), k) ==> r.value == machines[k].id
  {
    SelectSingle(machines, MachineNamed(smName), NoSMFound, MultipleSMFound);
    match Single(GetSM(machines, smName), NoSMFound, MultipleSMFound)
    case Ok(m) => Ok(m.id)
    case Err(e) => Err(e)
  }

  /** `getInstance`: resolve the machine, then the one live instance with
      key (`externalName`, `externalId`, machine id). */
  function GetInstance(machines: seq<Machine>, instances: seq<Instance>,
                       externalName: string, externalId: string, smName: string): (r: Result<Instance>)
    ensures SmIdFromName(machines, smName).Err? ==> r == Err(SmIdFromName(machines, smName).error)
    ensures SmIdFromName(machines, smName).Ok? ==>
      var key := InstanceKeyed(externalName, externalId, SmIdFromName(machines, smName).value);
      && (r.Ok? || r == Err(NoInstanceFound) || r == Err(MultipleInstancesFound))
      && (r == Err(NoInstanceFound) <==> NoMatch(instances, key))
      && (r == Err(MultipleInstancesFound) <==> SeveralMatch(instances, key))
      && (r.Ok? <==> exists k :: OnlyMatchAt(instances, key, k))
      && (r.Ok? ==> forall k :: OnlyMatchAt(instances, key, k) ==> r.value == instances[k])
  {
    match SmIdFromName(machines, smName)
    case Err(e) => Err(e)
    case Ok(smId) =>
      SelectSingle(instances, InstanceKeyed(externalName, externalId, smId), NoInstanceFound, MultipleInstancesFound);
      Single(GetInstanceRows(instances, externalName, externalId, smId), NoInstanceFound, MultipleInstancesFound)
  }

  /** The `getSMInitialState` step of instance creation: the one state of
      machine `smId` tagged 'I'. */
  function InitialState(states: seq<StateRow>, smId: nat): (r: Result<StateRow>)
    ensures r.Ok? || r == Err(NoInitialStateFound) || r == Err(MultipleInitialStatesFound)
    ensures r == Err(NoInitialStateFound) <==> NoMatch(states, InitialStateOf(smId))
    ensures r == Err(MultipleInitialStatesFound) <==> SeveralMatch(states, InitialStateOf(smId))
    ensures r.Ok? <==> exists k :: OnlyMatchAt(states, InitialStateOf(smId), k)
    ensures r.Ok? ==> r.value in states && r.value.smId == smId && r.value.stateType == Initial
  {
    SelectSingle(states, InitialStateOf(smId), NoInitialStateFound, MultipleInitialStatesFound);
    Single(GetSMInitialState(states, smId), NoInitialStateFound, MultipleInitialStatesFound)
  }

  /** `state` is the initial state of machine `smId`. */
  ghost predicate IsInitialState(states: seq<StateRow>, smId: nat, state: string) {
    InitialState(states, smId).Ok? && InitialState(states, smId).value.state == state
  }

  /** `getPossibleTransitions`: the transitions of the instance's machine
      that leave its current state. */
  function GetPossibleTransitions(machines: seq<Machine>, instances: seq<Instance>, transitions: seq<Transition>,
                                  externalName: string, externalId: string, smName: string)
    : (r: Result<seq<Transition>>)
    ensures GetInstance(machines, instances, externalName, externalId, smName).Err? ==>
      r == Err(GetInstance(machines, instances, externalName, externalId, smName).error)
    ensures GetInstance(machines, instances, externalName, externalId, smName).Ok? ==>
      var inst := GetInstance(machines, instances, externalName, externalId, smName).value;
      r.Ok? && forall t :: t in r.value <==> t in transitions && t.smId == inst.smId && t.fromState == inst.smState
  {
    match GetInstance(machines, instances, externalName, externalId, smName)
    case Err(e) => Err(e)
    case Ok(inst) => Ok(GetPossibleTransitionRows(transitions, inst.smId, inst.smState))
  }

  /** The filter on `transition_name` that `transitionInstance` applies to
      the possible transitions. */
  function TransitionNamed(transitionName: string): Transition -> bool {
    (t: Transition) => t.transitionName == transitionName
  }

  function TransitionsNamed(possible: seq<Transition>, transitionName: string): (rows: seq<Transition>)
    ensures forall t :: t in rows <==> t in possible && t.transitionName == transitionName
  {
    Filter(possible, TransitionNamed(transitionName))
  }

  /** `getInstanceHistory`: the ledger rows of the instance, oldest first. */
  function GetInstanceHistory(machines: seq<Machine>, instances: seq<Instance>, history: seq<HistoryEntry>,
                              externalName: string, externalId: string, smName: string)
    : (r: Result<seq<HistoryEntry>>)
    ensures GetInstance(machines, instances, externalName, externalId, smName).Err? ==>
      r == Err(GetInstance(machines, instances, externalName, externalId, smName).error)
    ensures GetInstance(machines, instances, externalName, externalId, smName).Ok? ==>
      var inst := GetInstance(machines, instances, externalName, externalId, smName).value;
      r.Ok? && forall h :: h in r.value <==> h in history && h.instanceId == inst.id
  {
    match GetInstance(machines, instances, externalName, externalId, smName)
    case Err(e) => Err(e)
    case Ok(inst) => Ok(GetInstanceHistoryRows(history, inst.id))
  }
}
