/** The store's queries, each modelled by the parameters the backend passes
    to it: four selections, the state update and the instance delete.
    (The two inserts, of an instance and of a history row, are appends done
    by the engine itself.) */
module Queries {
  import opened Rows
  import opened Select

  /** `getSM`: the machines called `smName`. */
  function MachineNamed(smName: string): Machine -> bool {
    (m: Machine) => m.name == smName
  }

  function GetSM(machines: seq<Machine>, smName: string): (rows: seq<Machine>)
    ensures forall m :: m in rows <==> m in machines && m.name == smName
  {
    Filter(machines, MachineNamed(smName))
  }

  /** `getInstance`: the live instances with key (`externalName`,
      `externalId`, `smId`). */
  predicate HasKey(inst: Instance, externalName: string, externalId: string, smId: nat) {
    inst.externalName == externalName && inst.externalId == externalId && inst.smId == smId
  }

  function InstanceKeyed(externalName: string, externalId: string, smId: nat): Instance -> bool {
    (inst: Instance) => HasKey(inst, externalName, externalId, smId)
  }

  function GetInstanceRows(instances: seq<Instance>, externalName: string, externalId: string, smId: nat)
    : (rows: seq<Instance>)
    ensures forall inst :: inst in rows <==> inst in instances && HasKey(inst, externalName, externalId, smId)
  {
    Filter(instances, InstanceKeyed(externalName, externalId, smId))
  }

  /** `getSMInitialState`: the states of machine `smId` tagged 'I'. */
  function InitialStateOf(smId: nat): StateRow -> bool {
    (st: StateRow) => st.smId == smId && st.stateType == Initial
  }

  function GetSMInitialState(states: seq<StateRow>, smId: nat): (rows: seq<StateRow>)
    ensures forall st :: st in rows <==> st in states && st.smId == smId && st.stateType == Initial
  {
    Filter(states, InitialStateOf(smId))
  }

  /** `getPossibleTransitions`: the transitions of machine `smId` leaving
      state `smState`. */
  function LeavingState(smId: nat, smState: string): Transition -> bool {
    (t: Transition) => t.smId == smId && t.fromState == smState
  }

  function GetPossibleTransitionRows(transitions: seq<Transition>, smId: nat, smState: string)
    : (rows: seq<Transition>)
    ensures forall t :: t in rows <==> t in transitions && t.smId == smId && t.fromState == smState
  {
    Filter(transitions, LeavingState(smId, smState))
  }

  /** `getInstanceHistory`: the history rows of instance `instanceId`, in
      the order they were appended. */
  function HistoryOf(instanceId: nat): HistoryEntry -> bool {
    (h: HistoryEntry) => h.instanceId == instanceId
  }

  function GetInstanceHistoryRows(history: seq<HistoryEntry>, instanceId: nat): (rows: seq<HistoryEntry>)
    ensures forall h :: h in rows <==> h in history && h.instanceId == instanceId
  {
    Filter(history, HistoryOf(instanceId))
  }

  /** Appending a row to the ledger appends it to the history of its own
      instance and leaves every other instance's history as it was. */
  lemma HistoryAppend(history: seq<HistoryEntry>, entry: HistoryEntry, instanceId: nat)
    ensures GetInstanceHistoryRows(history + [entry], instanceId)
      == GetInstanceHistoryRows(history, instanceId) + (if entry.instanceId == instanceId then [entry] else [])
  {
    FilterAppend(history, [entry], HistoryOf(instanceId));
  }

  /** Instance ids are the primary key of the instance table. */
  ghost predicate DistinctIds(instances: seq<Instance>) {
    forall i, j :: 0 <= i < j < |instances| ==> instances[i].id != instances[j].id
  }

  /** `setInstanceNewState`: set `smState` of the rows whose id is
      `instanceId`. */
  function SetInstanceNewState(instances: seq<Instance>, toState: string, instanceId: nat): (r: seq<Instance>)
    ensures |r| == |instances|
    ensures forall i :: 0 <= i < |r| ==> r[i] == instances[i].(smState := r[i].smState)
    ensures forall i :: 0 <= i < |r| ==> r[i].smState == if instances[i].id == instanceId then toState else instances[i].smState
  {
    seq(|instances|, i requires 0 <= i < |instances| =>
      if instances[i].id == instanceId then instances[i].(smState := toState) else instances[i])
  }

  /** `deleteInstance`: drop the rows whose id is `instanceId`. */
  function NotId(instanceId: nat): Instance -> bool {
    (inst: Instance) => inst.id != instanceId
  }

  function DeleteInstanceRows(instances: seq<Instance>, instanceId: nat): (r: seq<Instance>)
    ensures |r| <= |instances|
    ensures forall inst :: inst in r <==> inst in instances && inst.id != instanceId
  {
    Filter(instances, NotId(instanceId))
  }

  /** Updating by the primary key changes the state of that one row and
      nothing else. */
  lemma SetStateOfOneRow(instances: seq<Instance>, toState: string, k: int)
    requires DistinctIds(instances) && 0 <= k < |instances|
    ensures SetInstanceNewState(instances, toState, instances[k].id)
      == instances[k := instances[k].(smState := toState)]
  {
    var r := SetInstanceNewState(instances, toState, instances[k].id);
    forall i | 0 <= i < |instances| ensures r[i] == instances[k := instances[k].(smState := toState)][i] {
      if i < k {
        assert instances[i].id != instances[k].id;
      } else if k < i {
        assert instances[k].id != instances[i].id;
      }
    }
  }

  /** Deleting by the primary key removes that one row and keeps the order
      of the others. */
  lemma DeleteOneRow(instances: seq<Instance>, k: int)
    requires DistinctIds(instances) && 0 <= k < |instances|
    ensures DeleteInstanceRows(instances, instances[k].id) == instances[..k] + instances[k + 1..]
  {
    var keep := NotId(instances[k].id);
    forall i | 0 <= i < |instances| && i != k ensures keep(instances[i]) {
      if i < k {
        assert instances[i].id != instances[k].id;
      } else {
        assert instances[k].id != instances[i].id;
      }
    }
    FilterDropsOne(instances, keep, k);
  }
}
