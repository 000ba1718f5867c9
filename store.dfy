/** The backend's store: the definition tables, which the engine only reads,
    and the instance and history tables, which `InitiateInstance`,
    `TransitionInstance` and `DeleteInstance` change step by step, each
    rejecting at the first failed check. Each method computes exactly the
    outcome and the new tables of the matching function of `Operations`. */
module Engine {
  import opened Rows
  import opened Queries
  import opened Lookups
  import Operations
  import Properties

  class Store {
    const machines: seq<Machine>
    const states: seq<StateRow>
    const transitions: seq<Transition>
    var instances: seq<Instance>
    var history: seq<HistoryEntry>
    /** The id the next inserted instance receives (the table's serial). */
    var nextInstanceId: nat

    /** The tables the engine writes, as a value. */
    function Snapshot(): Operations.Tables
      reads this
    {
      Operations.Tables(instances, history, nextInstanceId)
    }

    ghost predicate Valid()
      reads this
    {
      Operations.ValidIds(Snapshot())
    }

    /** One live instance per key, and an audit trail for each of them. */
    ghost predicate Consistent()
      reads this
    {
      Operations.Consistent(states, Snapshot())
    }

    /** A store holding the given machine definitions and no instances. */
    constructor (machines: seq<Machine>, states: seq<StateRow>, transitions: seq<Transition>)
      ensures Valid() && Consistent()
      ensures this.machines == machines && this.states == states && this.transitions == transitions
      ensures instances == [] && history == [] && nextInstanceId == 0
    {
      this.machines := machines;
      this.states := states;
      this.transitions := transitions;
      instances := [];
      history := [];
      nextInstanceId := 0;
    }

    /** `initiateInstance`: create the live instance of machine `smName`
        for (`externalName`, `externalId`) in the machine's initial state,
        and record its creation in the ledger. */
    method InitiateInstance(externalName: string, externalId: string, smName: string, generatedBy: string)
      returns (outcome: Result<()>)
      requires Valid()
      modifies this
      ensures (outcome, Snapshot())
        == Operations.InitiateInstance(machines, states, old(Snapshot()), externalName, externalId, smName, generatedBy)
      ensures Valid() && old(history) <= history
      ensures old(Consistent()) ==> Consistent()
    {
      var sm := SmIdFromName(machines, smName);
      if sm.Err? {
        return Err(sm.error);
      }
      var smId := sm.value;
      var existing := GetInstance(machines, instances, externalName, externalId, smName);
      if existing.Ok? {
        return Err(ExistingInstanceFound);
      }
      // Any other failure of the lookup is ignored.
      var initial := InitialState(states, smId);
      if initial.Err? {
        return Err(initial.error);
      }
      outcome := CreateInstance(externalName, externalId, smName, smId, initial.value.state, generatedBy);
      assert (outcome, Snapshot())
        == Operations.InitiateInstance(machines, states, old(Snapshot()), externalName, externalId, smName, generatedBy);
      Properties.InitiateKeepsValidIds(machines, states, old(Snapshot()), externalName, externalId, smName, generatedBy);
      if old(Consistent()) {
        Properties.InitiateKeepsConsistency(machines, states, old(Snapshot()), externalName, externalId, smName, generatedBy);
      }
    }

    /** The writing half of `initiateInstance`: insert the instance, look
        it up again for its id, and record its creation in the ledger. */
    method CreateInstance(externalName: string, externalId: string, smName: string, smId: nat,
                          initialState: string, generatedBy: string)
      returns (outcome: Result<()>)
      modifies this
      ensures (outcome, Snapshot())
        == Operations.CreateInstance(machines, old(Snapshot()), externalName, externalId, smName, smId,
                                     initialState, generatedBy)
    {
      instances := instances + [Instance(nextInstanceId, smId, externalName, externalId, initialState, generatedBy)];
      nextInstanceId := nextInstanceId + 1;
      var created := GetInstance(machines, instances, externalName, externalId, smName);
      if created.Err? {
        return Err(created.error);
      }
      var instanceId := created.value.id;
      history := history + [HistoryEntry(instanceId, initialState, InstanceInitiated, generatedBy, InstanceInitiated)];
      outcome := Ok(());
    }

    /** `transitionInstance`: move the instance along the transition called
        `transitionName` from its current state, and record the move. */
    method TransitionInstance(externalName: string, externalId: string, smName: string,
                              transitionName: string, transitionMadeBy: string, comment: string)
      returns (outcome: Result<()>)
      requires Valid()
      modifies this
      ensures (outcome, Snapshot())
        == Operations.TransitionInstance(machines, transitions, old(Snapshot()), externalName, externalId, smName,
                                         transitionName, transitionMadeBy, comment)
      ensures Valid() && old(history) <= history
      ensures old(Consistent()) ==> Consistent()
    {
      if |comment| > MaxCommentLength {
        return Err(CommentTooLong);
      }
      var possible := GetPossibleTransitions(machines, instances, transitions, externalName, externalId, smName);
      if possible.Err? {
        return Err(possible.error);
      }
      var targetRows := TransitionsNamed(possible.value, transitionName);
      if |targetRows| == 0 {
        return Err(TransitionNotAllowed);
      }
      var toState := targetRows[0].toState;
      var existing := GetInstance(machines, instances, externalName, externalId, smName);
      var instanceId := existing.value.id;
      instances := SetInstanceNewState(instances, toState, instanceId);
      history := history + [HistoryEntry(instanceId, toState, transitionName, transitionMadeBy, comment)];
      outcome := Ok(());
      assert (outcome, Snapshot())
        == Operations.TransitionInstance(machines, transitions, old(Snapshot()), externalName, externalId, smName,
                                         transitionName, transitionMadeBy, comment);
      Properties.TransitionKeepsValidIds(machines, transitions, old(Snapshot()), externalName, externalId, smName,
                                         transitionName, transitionMadeBy, comment);
      if old(Consistent()) {
        Properties.TransitionKeepsConsistency(machines, states, transitions, old(Snapshot()), externalName, externalId,
                                              smName, transitionName, transitionMadeBy, comment);
      }
    }

    /** `deleteInstance`: remove the live instance; its ledger rows stay. */
    method DeleteInstance(externalName: string, externalId: string, smName: string)
      returns (outcome: Result<()>)
      requires Valid()
      modifies this
      ensures (outcome, Snapshot())
        == Operations.DeleteInstance(machines, old(Snapshot()), externalName, externalId, smName)
      ensures Valid() && history == old(history)
      ensures old(Consistent()) ==> Consistent()
    {
      var existing := GetInstance(machines, instances, externalName, externalId, smName);
      if existing.Err? {
        return Err(existing.error);
      }
      var instanceId := existing.value.id;
      instances := DeleteInstanceRows(instances, instanceId);
      outcome := Ok(());
      assert (outcome, Snapshot())
        == Operations.DeleteInstance(machines, old(Snapshot()), externalName, externalId, smName);
      Properties.DeleteKeepsInvariants(machines, states, old(Snapshot()), externalName, externalId, smName);
    }
  }
}
