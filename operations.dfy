/** The three writing operations of the backend as functions from the
    tables they read and write to their outcome and the new tables. The
    `Store` methods are proved to compute exactly these; the properties of
    the operations are lemmas about them. */
module Operations {
  import opened Rows
  import opened Queries
  import opened Lookups
  import opened Ledger

  /** The tables the engine writes: live instances, the history ledger and
      the serial that numbers new instances. */
  datatype Tables = Tables(instances: seq<Instance>, history: seq<HistoryEntry>, nextInstanceId: nat)

  /** Instance ids are distinct and every id in use, also by the rows of
      deleted instances in the ledger, is below the serial. */
  ghost predicate ValidIds(db: Tables) {
    && DistinctIds(db.instances)
    && (forall i :: 0 <= i < |db.instances| ==> db.instances[i].id < db.nextInstanceId)
    && (forall i :: 0 <= i < |db.history| ==> db.history[i].instanceId < db.nextInstanceId)
  }

  /** One live instance per key, and an audit trail for each of them. */
  ghost predicate Consistent(states: seq<StateRow>, db: Tables) {
    UniqueKeys(db.instances) && AuditTrail(states, db.instances, db.history)
  }

  /** `initiateInstance`. A failure of the existence check other than
      finding the instance is ignored; the instance is then inserted and
      looked up again for its id, and only then is its creation recorded. */
  function InitiateInstance(machines: seq<Machine>, states: seq<StateRow>, db: Tables,
                            externalName: string, externalId: string, smName: string, generatedBy: string)
    : (r: (Result<()>, Tables))
    ensures db.instances <= r.1.instances && |r.1.instances| <= |db.instances| + 1
    ensures r.1.history == db.history || (r.0.Ok? && db.history <= r.1.history && |r.1.history| == |db.history| + 1)
    ensures r.0 == Err(ExistingInstanceFound) <==> GetInstance(machines, db.instances, externalName, externalId, smName).Ok?
    ensures r.0.Ok? ==>
      && GetInstance(machines, db.instances, externalName, externalId, smName).Err?
      && GetInstance(machines, r.1.instances, externalName, externalId, smName).Ok?
      && r.1.nextInstanceId == db.nextInstanceId + 1
  {
    match SmIdFromName(machines, smName)
    case Err(e) => (Err(e), db)
    case Ok(smId) =>
      if GetInstance(machines, db.instances, externalName, externalId, smName).Ok? then
        (Err(ExistingInstanceFound), db)
      else
        match InitialState(states, smId)
        case Err(e) => (Err(e), db)
        case Ok(initial) => CreateInstance(machines, db, externalName, externalId, smName, smId, initial.state, generatedBy)
  }

  /** The writing half of `initiateInstance`: insert the instance under the
      next id, look it up again for its id, and only then record its
      creation. */
  function CreateInstance(machines: seq<Machine>, db: Tables, externalName: string, externalId: string,
                          smName: string, smId: nat, initialState: string, generatedBy: string)
    : (r: (Result<()>, Tables))
    ensures r.1.instances == db.instances + [Instance(db.nextInstanceId, smId, externalName, externalId, initialState, generatedBy)]
    ensures r.1.nextInstanceId == db.nextInstanceId + 1
    ensures r.0.Ok? <==> GetInstance(machines, r.1.instances, externalName, externalId, smName).Ok?
    ensures r.0.Err? ==> r.1.history == db.history
    ensures r.0.Ok? ==>
      var created := GetInstance(machines, r.1.instances, externalName, externalId, smName).value;
      r.1.history == db.history + [HistoryEntry(created.id, initialState, InstanceInitiated, generatedBy, InstanceInitiated)]
  {
    var row := Instance(db.nextInstanceId, smId, externalName, externalId, initialState, generatedBy);
    var inserted := db.(instances := db.instances + [row], nextInstanceId := db.nextInstanceId + 1);
    match GetInstance(machines, inserted.instances, externalName, externalId, smName)
    case Err(e) => (Err(e), inserted)
    case Ok(created) =>
      var entry := HistoryEntry(created.id, initialState, InstanceInitiated, generatedBy, InstanceInitiated);
      (Ok(()), inserted.(history := db.history + [entry]))
  }

  /** `transitionInstance`. The comment is checked first; the transition
      taken is the first possible one with the requested name. */
  function TransitionInstance(machines: seq<Machine>, transitions: seq<Transition>, db: Tables,
                              externalName: string, externalId: string, smName: string,
                              transitionName: string, transitionMadeBy: string, comment: string)
    : (r: (Result<()>, Tables))
    ensures r.0.Err? ==> r.1 == db
    ensures r.0 == Err(CommentTooLong) <==> |comment| > MaxCommentLength
    ensures r.1.nextInstanceId == db.nextInstanceId && |r.1.instances| == |db.instances|
    ensures r.0.Ok? ==>
      && GetInstance(machines, db.instances, externalName, externalId, smName).Ok?
      && db.history <= r.1.history && |r.1.history| == |db.history| + 1
      && r.1.history[|db.history|].instanceId == GetInstance(machines, db.instances, externalName, externalId, smName).value.id
      && r.1.history[|db.history|].transitionName == transitionName
      && r.1.history[|db.history|].madeBy == transitionMadeBy
      && r.1.history[|db.history|].comment == comment
  {
    if |comment| > MaxCommentLength then (Err(CommentTooLong), db)
    else
      match GetPossibleTransitions(machines, db.instances, transitions, externalName, externalId, smName)
      case Err(e) => (Err(e), db)
      case Ok(possible) =>
        var targetRows := TransitionsNamed(possible, transitionName);
        if |targetRows| == 0 then (Err(TransitionNotAllowed), db)
        else
          var toState := targetRows[0].toState;
          var instanceId := GetInstance(machines, db.instances, externalName, externalId, smName).value.id;
          var entry := HistoryEntry(instanceId, toState, transitionName, transitionMadeBy, comment);
          (Ok(()), db.(instances := SetInstanceNewState(db.instances, toState, instanceId),
                       history := db.history + [entry]))
  }

  /** `deleteInstance`: the instance row goes, its ledger rows stay. */
  function DeleteInstance(machines: seq<Machine>, db: Tables,
                          externalName: string, externalId: string, smName: string)
    : (r: (Result<()>, Tables))
    ensures r.1.history == db.history && r.1.nextInstanceId == db.nextInstanceId
    ensures r.0.Ok? <==> GetInstance(machines, db.instances, externalName, externalId, smName).Ok?
    ensures r.0.Err? ==> r.0 == Err(GetInstance(machines, db.instances, externalName, externalId, smName).error) && r.1 == db
    ensures r.0.Ok? ==>
      var existing := GetInstance(machines, db.instances, externalName, externalId, smName).value;
      forall inst :: inst in r.1.instances <==> inst in db.instances && inst.id != existing.id
  {
    match GetInstance(machines, db.instances, externalName, externalId, smName)
    case Err(e) => (Err(e), db)
    case Ok(existing) => (Ok(()), db.(instances := DeleteInstanceRows(db.instances, existing.id)))
  }
}
