/** What the three writing operations promise about the tables as a whole:
    where an inserted, updated or deleted instance is found afterwards, the
    one-live-instance-per-key invariant, and the audit trail (every live
    instance's history starts with its "instance initiated" row in the
    machine's initial state and ends in the instance's current state). */
module Ledger {
  import opened Rows
  import opened Select
  import opened Queries
  import opened Lookups

  /** At most one live instance per (external name, external id, machine). */
  ghost predicate UniqueKeys(instances: seq<Instance>) {
    forall i, j :: 0 <= i < j < |instances| ==>
      !HasKey(instances[j], instances[i].externalName, instances[i].externalId, instances[i].smId)
  }

  /** The history row written when `inst` is created. */
  function InitiatedEntry(inst: Instance): HistoryEntry {
    HistoryEntry(inst.id, inst.smState, InstanceInitiated, inst.generatedBy, InstanceInitiated)
  }

  /** `rows`, the history of `inst`, starts with its creation in the
      machine's initial state and ends in the instance's current state. */
  ghost predicate Audited(states: seq<StateRow>, inst: Instance, rows: seq<HistoryEntry>) {
    && rows != []
    && rows[0] == HistoryEntry(inst.id, rows[0].state, InstanceInitiated, inst.generatedBy, InstanceInitiated)
    && IsInitialState(states, inst.smId, rows[0].state)
    && rows[|rows| - 1].state == inst.smState
  }

  ghost predicate AuditTrail(states: seq<StateRow>, instances: seq<Instance>, history: seq<HistoryEntry>) {
    forall inst :: inst in instances ==> Audited(states, inst, GetInstanceHistoryRows(history, inst.id))
  }

  /** Under the key invariant a lookup is never ambiguous. */
  lemma UniqueKeysNoAmbiguity(machines: seq<Machine>, instances: seq<Instance>,
                              externalName: string, externalId: string, smName: string)
    requires UniqueKeys(instances)
    ensures GetInstance(machines, instances, externalName, externalId, smName) != Err(MultipleInstancesFound)
  {
    var sm := SmIdFromName(machines, smName);
    if sm.Ok? {
      var key := InstanceKeyed(externalName, externalId, sm.value);
      forall i, j | 0 <= i < j < |instances| && key(instances[i]) ensures !key(instances[j]) {
        assert !HasKey(instances[j], instances[i].externalName, instances[i].externalId, instances[i].smId);
      }
      assert !SeveralMatch(instances, key);
    }
  }

  /** A row inserted for a key that had no live instance is what the
      lookup on that key returns afterwards. */
  lemma InsertedInstanceIsFound(machines: seq<Machine>, instances: seq<Instance>, row: Instance,
                                externalName: string, externalId: string, smName: string)
    requires SmIdFromName(machines, smName) == Ok(row.smId)
    requires row.externalName == externalName && row.externalId == externalId
    requires GetInstance(machines, instances, externalName, externalId, smName) == Err(NoInstanceFound)
    ensures GetInstance(machines, instances + [row], externalName, externalId, smName) == Ok(row)
  {
    var key := InstanceKeyed(externalName, externalId, row.smId);
    FilterEmpty(instances, key);
    FilterAppend(instances, [row], key);
    assert Filter(instances + [row], key) == [row];
  }

  /** A row inserted for a key that already had several live instances
      leaves the lookup ambiguous. */
  lemma InsertedInstanceStaysAmbiguous(machines: seq<Machine>, instances: seq<Instance>, row: Instance,
                                       externalName: string, externalId: string, smName: string)
    requires GetInstance(machines, instances, externalName, externalId, smName) == Err(MultipleInstancesFound)
    ensures GetInstance(machines, instances + [row], externalName, externalId, smName) == Err(MultipleInstancesFound)
  {
    var key := InstanceKeyed(externalName, externalId, SmIdFromName(machines, smName).value);
    var i, j :| 0 <= i < j < |instances| && key(instances[i]) && key(instances[j]);
    assert (instances + [row])[i] == instances[i] && (instances + [row])[j] == instances[j];
    assert SeveralMatch(instances + [row], key);
  }

  /** After the found instance is deleted the same lookup finds nothing. */
  lemma DeletedInstanceIsGone(machines: seq<Machine>, instances: seq<Instance>, k: int,
                              externalName: string, externalId: string, smName: string)
    requires SmIdFromName(machines, smName).Ok?
    requires OnlyMatchAt(instances, InstanceKeyed(externalName, externalId, SmIdFromName(machines, smName).value), k)
    ensures GetInstance(machines, instances[..k] + instances[k + 1..], externalName, externalId, smName)
      == Err(NoInstanceFound)
  {
    var key := InstanceKeyed(externalName, externalId, SmIdFromName(machines, smName).value);
    var rest := instances[..k] + instances[k + 1..];
    forall i | 0 <= i < |rest| ensures !key(rest[i]) {
      if i < k {
        assert rest[i] == instances[i];
      } else {
        assert rest[i] == instances[i + 1];
      }
    }
  }

  /** After the found instance's state is updated the same lookup returns
      the updated row. */
  lemma UpdatedInstanceIsFound(machines: seq<Machine>, instances: seq<Instance>, k: int, toState: string,
                               externalName: string, externalId: string, smName: string)
    requires SmIdFromName(machines, smName).Ok?
    requires OnlyMatchAt(instances, InstanceKeyed(externalName, externalId, SmIdFromName(machines, smName).value), k)
    ensures GetInstance(machines, instances[k := instances[k].(smState := toState)], externalName, externalId, smName)
      == Ok(instances[k].(smState := toState))
  {
    var key := InstanceKeyed(externalName, externalId, SmIdFromName(machines, smName).value);
    var updated := instances[k := instances[k].(smState := toState)];
    forall i | 0 <= i < |updated| ensures key(updated[i]) == key(instances[i]) {
    }
    assert OnlyMatchAt(updated, key, k);
  }

  /** Creating an instance (under a fresh id, in the machine's initial
      state, with its "instance initiated" row) keeps the audit trail. */
  lemma InitiateKeepsAuditTrail(states: seq<StateRow>, instances: seq<Instance>, history: seq<HistoryEntry>,
                                row: Instance)
    requires AuditTrail(states, instances, history)
    requires forall inst :: inst in instances ==> inst.id != row.id
    requires forall h :: h in history ==> h.instanceId != row.id
    requires IsInitialState(states, row.smId, row.smState)
    ensures AuditTrail(states, instances + [row], history + [InitiatedEntry(row)])
  {
    var history' := history + [InitiatedEntry(row)];
    NewRowAudited(states, history, row);
    forall inst | inst in instances
      ensures Audited(states, inst, GetInstanceHistoryRows(history', inst.id))
    {
      HistoryAppend(history, InitiatedEntry(row), inst.id);
    }
  }

  /** The created instance's history is its one "instance initiated" row. */
  lemma NewRowAudited(states: seq<StateRow>, history: seq<HistoryEntry>, row: Instance)
    requires forall h :: h in history ==> h.instanceId != row.id
    requires IsInitialState(states, row.smId, row.smState)
    ensures Audited(states, row, GetInstanceHistoryRows(history + [InitiatedEntry(row)], row.id))
  {
    HistoryAppend(history, InitiatedEntry(row), row.id);
    FilterEmpty(history, HistoryOf(row.id));
    assert GetInstanceHistoryRows(history + [InitiatedEntry(row)], row.id) == [InitiatedEntry(row)];
  }

  /** Moving instance `k` to `toState` and appending that move to the
      ledger keeps the audit trail. */
  lemma TransitionKeepsAuditTrail(states: seq<StateRow>, instances: seq<Instance>, history: seq<HistoryEntry>,
                                  k: int, toState: string, transitionName: string, madeBy: string, comment: string)
    requires AuditTrail(states, instances, history)
    requires DistinctIds(instances) && 0 <= k < |instances|
    ensures AuditTrail(states, instances[k := instances[k].(smState := toState)],
                       history + [HistoryEntry(instances[k].id, toState, transitionName, madeBy, comment)])
  {
    var moved := instances[k].(smState := toState);
    var instances' := instances[k := moved];
    var entry := HistoryEntry(instances[k].id, toState, transitionName, madeBy, comment);
    forall inst | inst in instances'
      ensures Audited(states, inst, GetInstanceHistoryRows(history + [entry], inst.id))
    {
      HistoryAppend(history, entry, inst.id);
      var i :| 0 <= i < |instances'| && instances'[i] == inst;
      if i == k {
        assert instances[k] in instances;
      } else {
        assert inst == instances[i] && inst in instances;
        if i < k {
          assert instances[i].id != instances[k].id;
        } else {
          assert instances[k].id != instances[i].id;
        }
      }
    }
  }

  /** Deleting instance `k` keeps the audit trail of the others (the
      deleted instance's rows stay in the ledger). */
  lemma DeleteKeepsAuditTrail(states: seq<StateRow>, instances: seq<Instance>, history: seq<HistoryEntry>, k: int)
    requires AuditTrail(states, instances, history)
    requires 0 <= k < |instances|
    ensures AuditTrail(states, instances[..k] + instances[k + 1..], history)
  {
    RemainingRows(instances, k);
  }

  /** The rows left by deleting row `k` were all rows before. */
  lemma RemainingRows(instances: seq<Instance>, k: int)
    requires 0 <= k < |instances|
    ensures forall inst :: inst in instances[..k] + instances[k + 1..] ==> inst in instances
  {
    assert instances == instances[..k] + instances[k..];
    assert instances[k..] == [instances[k]] + instances[k + 1..];
  }

  /** Inserting a row whose key has no live instance keeps keys unique. */
  lemma InsertKeepsUniqueKeys(instances: seq<Instance>, row: Instance)
    requires UniqueKeys(instances)
    requires NoMatch(instances, InstanceKeyed(row.externalName, row.externalId, row.smId))
    ensures UniqueKeys(instances + [row])
  {
    var all := instances + [row];
    forall i, j | 0 <= i < j < |all|
      ensures !HasKey(all[j], all[i].externalName, all[i].externalId, all[i].smId)
    {
      if j == |instances| {
        assert !InstanceKeyed(row.externalName, row.externalId, row.smId)(instances[i]);
      } else {
        assert all[i] == instances[i] && all[j] == instances[j];
      }
    }
  }

  /** Deleting a row keeps keys unique. */
  lemma DeleteKeepsUniqueKeys(instances: seq<Instance>, k: int)
    requires UniqueKeys(instances) && 0 <= k < |instances|
    ensures UniqueKeys(instances[..k] + instances[k + 1..])
  {
    var rest := instances[..k] + instances[k + 1..];
    forall i, j | 0 <= i < j < |rest|
      ensures !HasKey(rest[j], rest[i].externalName, rest[i].externalId, rest[i].smId)
    {
      var i' := if i < k then i else i + 1;
      var j' := if j < k then j else j + 1;
      assert rest[i] == instances[i'] && rest[j] == instances[j'];
    }
  }

  /** Updating a state keeps keys unique. */
  lemma UpdateKeepsUniqueKeys(instances: seq<Instance>, k: int, toState: string)
    requires UniqueKeys(instances) && 0 <= k < |instances|
    ensures UniqueKeys(instances[k := instances[k].(smState := toState)])
  {
    var updated := instances[k := instances[k].(smState := toState)];
    forall i, j | 0 <= i < j < |updated|
      ensures !HasKey(updated[j], updated[i].externalName, updated[i].externalId, updated[i].smId)
    {
      assert !HasKey(instances[j], instances[i].externalName, instances[i].externalId, instances[i].smId);
    }
  }
}
