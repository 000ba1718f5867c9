/** What the backend promises about each writing operation: which failure
    rejects it and that a rejection changes nothing, what a success writes,
    what the lookups return afterwards, and that the invariants survive. */
module Properties {
  import opened Rows
  import opened Select
  import opened Queries
  import opened Lookups
  import opened Ledger
  import opened Operations

  // ---------------------------------------------------------------- initiate

  /** The checks before the insert: an unknown or ambiguous machine name, a
      live instance already on the key, or a machine without exactly one
      initial state rejects the call and leaves the tables as they were. */
  lemma InitiateRejections(machines: seq<Machine>, states: seq<StateRow>, db: Tables,
                           externalName: string, externalId: string, smName: string, generatedBy: string)
    ensures var (outcome, db') := InitiateInstance(machines, states, db, externalName, externalId, smName, generatedBy);
      var sm := SmIdFromName(machines, smName);
      var found := GetInstance(machines, db.instances, externalName, externalId, smName);
      && (sm.Err? ==> outcome == Err(sm.error) && db' == db)
      && (found.Ok? ==> outcome == Err(ExistingInstanceFound) && db' == db)
      && (sm.Ok? && found.Err? && InitialState(states, sm.value).Err? ==>
            outcome == Err(InitialState(states, sm.value).error) && db' == db)
      && (outcome == Err(ExistingInstanceFound) <==> found.Ok?)
  {
  }

  /** On a key without a live instance, creation inserts one instance in
      the machine's initial state under a fresh id and appends its
      "instance initiated" row: a lookup then finds that instance, and its
      history is that one row. */
  lemma InitiateCreates(machines: seq<Machine>, states: seq<StateRow>, db: Tables,
                        externalName: string, externalId: string, smName: string, generatedBy: string)
    requires ValidIds(db)
    requires SmIdFromName(machines, smName).Ok?
    requires GetInstance(machines, db.instances, externalName, externalId, smName) == Err(NoInstanceFound)
    requires InitialState(states, SmIdFromName(machines, smName).value).Ok?
    ensures var (outcome, db') := InitiateInstance(machines, states, db, externalName, externalId, smName, generatedBy);
      var smId := SmIdFromName(machines, smName).value;
      var row := Instance(db.nextInstanceId, smId, externalName, externalId,
                          InitialState(states, smId).value.state, generatedBy);
      && outcome == Ok(())
      && IsInitialState(states, smId, row.smState)
      && db'.instances == db.instances + [row]
      && db'.history == db.history + [InitiatedEntry(row)]
      && db'.nextInstanceId == db.nextInstanceId + 1
      && GetInstance(machines, db'.instances, externalName, externalId, smName) == Ok(row)
      && GetInstanceHistory(machines, db'.instances, db'.history, externalName, externalId, smName)
           == Ok([InitiatedEntry(row)])
  {
    var smId := SmIdFromName(machines, smName).value;
    var row := Instance(db.nextInstanceId, smId, externalName, externalId,
                        InitialState(states, smId).value.state, generatedBy);
    InsertedInstanceIsFound(machines, db.instances, row, externalName, externalId, smName);
    var history' := db.history + [InitiatedEntry(row)];
    HistoryAppend(db.history, InitiatedEntry(row), row.id);
    forall i | 0 <= i < |db.history| ensures !HistoryOf(row.id)(db.history[i]) {
    }
    FilterEmpty(db.history, HistoryOf(row.id));
    var (outcome, db') := InitiateInstance(machines, states, db, externalName, externalId, smName, generatedBy);
    assert outcome == Ok(());
    assert IsInitialState(states, smId, row.smState);
    assert db'.instances == db.instances + [row];
    assert db'.history == db.history + [InitiatedEntry(row)];
    assert GetInstance(machines, db'.instances, externalName, externalId, smName) == Ok(row);
    assert GetInstanceHistoryRows(db'.history, row.id) == [InitiatedEntry(row)];
  }

  /** The check-then-insert as written: when the key already has several
      live instances the existence check fails with a lookup error that is
      ignored, the row is inserted anyway, the lookup for its id then
      rejects with `MultipleInstancesFound`, and no history row is written. */
  lemma InitiateOnAmbiguousKey(machines: seq<Machine>, states: seq<StateRow>, db: Tables,
                               externalName: string, externalId: string, smName: string, generatedBy: string)
    requires GetInstance(machines, db.instances, externalName, externalId, smName) == Err(MultipleInstancesFound)
    requires InitialState(states, SmIdFromName(machines, smName).value).Ok?
    ensures var (outcome, db') := InitiateInstance(machines, states, db, externalName, externalId, smName, generatedBy);
      && outcome == Err(MultipleInstancesFound)
      && db'.instances == db.instances + [Instance(db.nextInstanceId, SmIdFromName(machines, smName).value, externalName, externalId,
                                                   InitialState(states, SmIdFromName(machines, smName).value).value.state, generatedBy)]
      && db'.nextInstanceId == db.nextInstanceId + 1
      && db'.history == db.history
  {
    var smId := SmIdFromName(machines, smName).value;
    var row := Instance(db.nextInstanceId, smId, externalName, externalId,
                        InitialState(states, smId).value.state, generatedBy);
    InsertedInstanceStaysAmbiguous(machines, db.instances, row, externalName, externalId, smName);
  }

  /** Creation keeps the ids valid and only appends to the ledger. */
  lemma InitiateKeepsValidIds(machines: seq<Machine>, states: seq<StateRow>, db: Tables,
                              externalName: string, externalId: string, smName: string, generatedBy: string)
    requires ValidIds(db)
    ensures var db' := InitiateInstance(machines, states, db, externalName, externalId, smName, generatedBy).1;
      ValidIds(db') && db.history <= db'.history
  {
    var sm := SmIdFromName(machines, smName);
    var found := GetInstance(machines, db.instances, externalName, externalId, smName);
    if sm.Ok? && found.Err? && InitialState(states, sm.value).Ok? {
      var row := Instance(db.nextInstanceId, sm.value, externalName, externalId,
                          InitialState(states, sm.value).value.state, generatedBy);
      if found == Err(NoInstanceFound) {
        InitiateCreates(machines, states, db, externalName, externalId, smName, generatedBy);
        InsertKeepsValidIds(db, row, [InitiatedEntry(row)]);
      } else {
        InitiateOnAmbiguousKey(machines, states, db, externalName, externalId, smName, generatedBy);
        InsertKeepsValidIds(db, row, []);
        assert db.history + [] == db.history;
      }
    }
  }

  /** Creation keeps one live instance per key and the audit trail. */
  lemma InitiateKeepsConsistency(machines: seq<Machine>, states: seq<StateRow>, db: Tables,
                                 externalName: string, externalId: string, smName: string, generatedBy: string)
    requires ValidIds(db) && Consistent(states, db)
    ensures Consistent(states, InitiateInstance(machines, states, db, externalName, externalId, smName, generatedBy).1)
  {
    var sm := SmIdFromName(machines, smName);
    var found := GetInstance(machines, db.instances, externalName, externalId, smName);
    UniqueKeysNoAmbiguity(machines, db.instances, externalName, externalId, smName);
    if sm.Ok? && found.Err? && InitialState(states, sm.value).Ok? {
      var row := Instance(db.nextInstanceId, sm.value, externalName, externalId,
                          InitialState(states, sm.value).value.state, generatedBy);
      InitiateCreates(machines, states, db, externalName, externalId, smName, generatedBy);
      InsertKeepsUniqueKeys(db.instances, row);
      forall inst | inst in db.instances ensures inst.id != row.id {
      }
      forall h | h in db.history ensures h.instanceId != row.id {
      }
      InitiateKeepsAuditTrail(states, db.instances, db.history, row);
    }
  }

  // -------------------------------------------------------------- transition

  /** A comment over the length limit, or a failed lookup of the instance,
      rejects the transition and leaves the tables as they were. */
  lemma TransitionRejections(machines: seq<Machine>, transitions: seq<Transition>, db: Tables,
                             externalName: string, externalId: string, smName: string,
                             transitionName: string, transitionMadeBy: string, comment: string)
    ensures var (outcome, db') := TransitionInstance(machines, transitions, db, externalName, externalId, smName,
                                                     transitionName, transitionMadeBy, comment);
      var found := GetInstance(machines, db.instances, externalName, externalId, smName);
      && (|comment| > MaxCommentLength ==> outcome == Err(CommentTooLong) && db' == db)
      && (|comment| <= MaxCommentLength && found.Err? ==> outcome == Err(found.error) && db' == db)
  {
  }

  /** A transition is taken exactly when one of the instance's possible
      transitions has the requested name; otherwise it is rejected with
      `TransitionNotAllowed` and nothing changes. */
  lemma TransitionAllowedIff(machines: seq<Machine>, transitions: seq<Transition>, db: Tables,
                             externalName: string, externalId: string, smName: string,
                             transitionName: string, transitionMadeBy: string, comment: string)
    requires |comment| <= MaxCommentLength
    requires GetInstance(machines, db.instances, externalName, externalId, smName).Ok?
    ensures var (outcome, db') := TransitionInstance(machines, transitions, db, externalName, externalId, smName,
                                                     transitionName, transitionMadeBy, comment);
      var possible := GetPossibleTransitions(machines, db.instances, transitions, externalName, externalId, smName);
      && possible.Ok?
      && (outcome.Ok? <==> exists t :: t in possible.value && t.transitionName == transitionName)
      && (outcome.Err? ==> outcome == Err(TransitionNotAllowed) && db' == db)
  {
    var possible := GetPossibleTransitions(machines, db.instances, transitions, externalName, externalId, smName);
    var targetRows := TransitionsNamed(possible.value, transitionName);
    if |targetRows| > 0 {
      assert targetRows[0] in targetRows;
    } else {
      assert targetRows == [];
    }
  }

  /** A taken transition moves the found instance, and only it, to the
      destination of a transition of its machine leaving its current state
      with the requested name, appends `(id, toState, transitionName,
      madeBy, comment)` to the ledger, and a lookup then returns the moved
      instance. */
  lemma TransitionApplies(machines: seq<Machine>, transitions: seq<Transition>, db: Tables,
                          externalName: string, externalId: string, smName: string,
                          transitionName: string, transitionMadeBy: string, comment: string)
    requires DistinctIds(db.instances)
    requires TransitionInstance(machines, transitions, db, externalName, externalId, smName,
                                transitionName, transitionMadeBy, comment).0.Ok?
    ensures GetInstance(machines, db.instances, externalName, externalId, smName).Ok?
    ensures var (outcome, db') := TransitionInstance(machines, transitions, db, externalName, externalId, smName,
                                                     transitionName, transitionMadeBy, comment);
      var inst := GetInstance(machines, db.instances, externalName, externalId, smName).value;
      exists k, t ::
        && 0 <= k < |db.instances| && db.instances[k] == inst
        && t in transitions && t.smId == inst.smId && t.fromState == inst.smState
        && t.transitionName == transitionName
        && db'.instances == db.instances[k := inst.(smState := t.toState)]
        && db'.history == db.history + [HistoryEntry(inst.id, t.toState, transitionName, transitionMadeBy, comment)]
        && db'.nextInstanceId == db.nextInstanceId
        && GetInstance(machines, db'.instances, externalName, externalId, smName) == Ok(inst.(smState := t.toState))
  {
    var inst := GetInstance(machines, db.instances, externalName, externalId, smName).value;
    var possible := GetPossibleTransitions(machines, db.instances, transitions, externalName, externalId, smName);
    var targetRows := TransitionsNamed(possible.value, transitionName);
    var t := targetRows[0];
    assert t in targetRows;
    var key := InstanceKeyed(externalName, externalId, SmIdFromName(machines, smName).value);
    var k :| OnlyMatchAt(db.instances, key, k);
    SetStateOfOneRow(db.instances, t.toState, k);
    UpdatedInstanceIsFound(machines, db.instances, k, t.toState, externalName, externalId, smName);
  }

  /** (sm_id, from_state, transition_name) is unique in the transition
      table, as the store's constraint guarantees. */
  ghost predicate UniqueTransitionNames(transitions: seq<Transition>) {
    forall i, j :: 0 <= i < j < |transitions| ==>
      transitions[i].smId != transitions[j].smId || transitions[i].fromState != transitions[j].fromState ||
      transitions[i].transitionName != transitions[j].transitionName
  }

  /** Under that constraint the destination of a transition is determined
      by the instance's state and the transition's name. */
  lemma TransitionTargetDetermined(machines: seq<Machine>, transitions: seq<Transition>, db: Tables,
                                   externalName: string, externalId: string, smName: string,
                                   transitionName: string, transitionMadeBy: string, comment: string)
    requires DistinctIds(db.instances) && UniqueTransitionNames(transitions)
    requires TransitionInstance(machines, transitions, db, externalName, externalId, smName,
                                transitionName, transitionMadeBy, comment).0.Ok?
    ensures GetInstance(machines, db.instances, externalName, externalId, smName).Ok?
    ensures var db' := TransitionInstance(machines, transitions, db, externalName, externalId, smName,
                                          transitionName, transitionMadeBy, comment).1;
      var inst := GetInstance(machines, db.instances, externalName, externalId, smName).value;
      forall t :: t in transitions && t.smId == inst.smId && t.fromState == inst.smState &&
                  t.transitionName == transitionName ==>
        GetInstance(machines, db'.instances, externalName, externalId, smName) == Ok(inst.(smState := t.toState))
  {
    TransitionApplies(machines, transitions, db, externalName, externalId, smName,
                      transitionName, transitionMadeBy, comment);
    var inst := GetInstance(machines, db.instances, externalName, externalId, smName).value;
    forall t1, t2 | t1 in transitions && t2 in transitions &&
                    t1.smId == inst.smId && t1.fromState == inst.smState && t1.transitionName == transitionName &&
                    t2.smId == inst.smId && t2.fromState == inst.smState && t2.transitionName == transitionName
      ensures t1.toState == t2.toState
    {
      var i :| 0 <= i < |transitions| && transitions[i] == t1;
      var j :| 0 <= j < |transitions| && transitions[j] == t2;
      assert i == j by {
        if i < j {
        } else if j < i {
        }
      }
    }
  }

  /** A transition keeps the ids valid and only appends to the ledger. */
  lemma TransitionKeepsValidIds(machines: seq<Machine>, transitions: seq<Transition>, db: Tables,
                                externalName: string, externalId: string, smName: string,
                                transitionName: string, transitionMadeBy: string, comment: string)
    requires ValidIds(db)
    ensures var db' := TransitionInstance(machines, transitions, db, externalName, externalId, smName,
                                          transitionName, transitionMadeBy, comment).1;
      ValidIds(db') && db.history <= db'.history
  {
    var (outcome, db') := TransitionInstance(machines, transitions, db, externalName, externalId, smName,
                                             transitionName, transitionMadeBy, comment);
    if outcome.Ok? {
      TransitionApplies(machines, transitions, db, externalName, externalId, smName,
                        transitionName, transitionMadeBy, comment);
      var inst := GetInstance(machines, db.instances, externalName, externalId, smName).value;
      var k: int, t: Transition :| 0 <= k < |db.instances| && db.instances[k] == inst
        && db'.instances == db.instances[k := inst.(smState := t.toState)]
        && db'.history == db.history + [HistoryEntry(inst.id, t.toState, transitionName, transitionMadeBy, comment)];
      UpdateKeepsValidIds(db, k, t.toState, HistoryEntry(inst.id, t.toState, transitionName, transitionMadeBy, comment));
    }
  }

  /** A transition keeps one live instance per key and the audit trail. */
  lemma TransitionKeepsConsistency(machines: seq<Machine>, states: seq<StateRow>, transitions: seq<Transition>,
                                   db: Tables, externalName: string, externalId: string, smName: string,
                                   transitionName: string, transitionMadeBy: string, comment: string)
    requires ValidIds(db) && Consistent(states, db)
    ensures Consistent(states, TransitionInstance(machines, transitions, db, externalName, externalId, smName,
                                                 transitionName, transitionMadeBy, comment).1)
  {
    var (outcome, db') := TransitionInstance(machines, transitions, db, externalName, externalId, smName,
                                             transitionName, transitionMadeBy, comment);
    if outcome.Ok? {
      TransitionApplies(machines, transitions, db, externalName, externalId, smName,
                        transitionName, transitionMadeBy, comment);
      var inst := GetInstance(machines, db.instances, externalName, externalId, smName).value;
      var k: int, t: Transition :| 0 <= k < |db.instances| && db.instances[k] == inst
        && db'.instances == db.instances[k := inst.(smState := t.toState)]
        && db'.history == db.history + [HistoryEntry(inst.id, t.toState, transitionName, transitionMadeBy, comment)];
      UpdateKeepsUniqueKeys(db.instances, k, t.toState);
      TransitionKeepsAuditTrail(states, db.instances, db.history, k, t.toState,
                                transitionName, transitionMadeBy, comment);
    }
  }

  // ------------------------------------------------------------------ delete

  /** Deleting removes the found instance's row, and only it, keeps the
      ledger, and a lookup on the same key then fails with
      `NoInstanceFound`; a failed lookup rejects and changes nothing. */
  lemma DeleteRemoves(machines: seq<Machine>, db: Tables, externalName: string, externalId: string, smName: string)
    requires DistinctIds(db.instances)
    ensures var (outcome, db') := DeleteInstance(machines, db, externalName, externalId, smName);
      var found := GetInstance(machines, db.instances, externalName, externalId, smName);
      && (found.Err? ==> outcome == Err(found.error) && db' == db)
      && (found.Ok? ==>
            && outcome == Ok(())
            && db'.history == db.history && db'.nextInstanceId == db.nextInstanceId
            && (exists k :: 0 <= k < |db.instances| && db.instances[k] == found.value &&
                            db'.instances == db.instances[..k] + db.instances[k + 1..])
            && GetInstance(machines, db'.instances, externalName, externalId, smName) == Err(NoInstanceFound))
  {
    var found := GetInstance(machines, db.instances, externalName, externalId, smName);
    if found.Ok? {
      var key := InstanceKeyed(externalName, externalId, SmIdFromName(machines, smName).value);
      var k :| OnlyMatchAt(db.instances, key, k);
      DeleteOneRow(db.instances, k);
      DeletedInstanceIsGone(machines, db.instances, k, externalName, externalId, smName);
    }
  }

  /** Deleting keeps the ids valid, leaves the ledger alone, and keeps one
      live instance per key and the audit trail of the others. */
  lemma DeleteKeepsInvariants(machines: seq<Machine>, states: seq<StateRow>, db: Tables,
                              externalName: string, externalId: string, smName: string)
    requires ValidIds(db)
    ensures var db' := DeleteInstance(machines, db, externalName, externalId, smName).1;
      && ValidIds(db')
      && db'.history == db.history
      && (Consistent(states, db) ==> Consistent(states, db'))
  {
    var db' := DeleteInstance(machines, db, externalName, externalId, smName).1;
    DeleteRemoves(machines, db, externalName, externalId, smName);
    if db' != db {
      var k :| 0 <= k < |db.instances| && db'.instances == db.instances[..k] + db.instances[k + 1..];
      DeleteKeepsValidIds(db, k);
      if Consistent(states, db) {
        DeleteKeepsUniqueKeys(db.instances, k);
        DeleteKeepsAuditTrail(states, db.instances, db.history, k);
      }
    }
  }

  // ------------------------------------------------------------ id bookkeeping

  lemma InsertKeepsValidIds(db: Tables, row: Instance, entries: seq<HistoryEntry>)
    requires ValidIds(db) && row.id == db.nextInstanceId
    requires forall e :: e in entries ==> e.instanceId == row.id
    ensures ValidIds(Tables(db.instances + [row], db.history + entries, db.nextInstanceId + 1))
  {
    var history' := db.history + entries;
    forall i | 0 <= i < |history'| ensures history'[i].instanceId < db.nextInstanceId + 1 {
      if i >= |db.history| {
        assert history'[i] == entries[i - |db.history|];
      }
    }
  }

  lemma UpdateKeepsValidIds(db: Tables, k: int, toState: string, entry: HistoryEntry)
    requires ValidIds(db) && 0 <= k < |db.instances| && entry.instanceId == db.instances[k].id
    ensures ValidIds(Tables(db.instances[k := db.instances[k].(smState := toState)], db.history + [entry],
                            db.nextInstanceId))
  {
  }

  lemma DeleteKeepsValidIds(db: Tables, k: int)
    requires ValidIds(db) && 0 <= k < |db.instances|
    ensures ValidIds(Tables(db.instances[..k] + db.instances[k + 1..], db.history, db.nextInstanceId))
  {
    var rest := db.instances[..k] + db.instances[k + 1..];
    forall i | 0 <= i < |rest| ensures rest[i] == db.instances[if i < k then i else i + 1] {
    }
  }
}
