/** The rows of the engine's five tables (machine definitions, their states,
    their transitions, live instances and the history ledger), the error kinds
    the backend rejects with, and the outcome of every public operation. */
module Rows {

  /** The `state_type` column of a machine state: 'I' (initial), 'S'
      (stepping) or 'F' (final). */
  datatype StateType = Initial | Stepping | Final

  /** A row of the machine table: a machine is looked up by `name`. */
  datatype Machine = Machine(id: nat, name: string, description: string)

  /** A row of the machine-state table. */
  datatype StateRow = StateRow(smId: nat, state: string, stateType: StateType, description: string)

  /** A row of the transition table: from `fromState`, the transition called
      `transitionName` leads to `toState`; the two task names are hook names
      for the client, never run by the engine. */
  datatype Transition = Transition(
    smId: nat, fromState: string, transitionName: string, toState: string,
    preTask: string, postTask: string)

  /** A live instance of machine `smId` for the external entity
      (`externalName`, `externalId`); `smState` is its current state. */
  datatype Instance = Instance(
    id: nat, smId: nat, externalName: string, externalId: string,
    smState: string, generatedBy: string)

  /** A row of the history ledger: the state an instance reached, by which
      transition, who made it and why. */
  datatype HistoryEntry = HistoryEntry(
    instanceId: nat, state: string, transitionName: string, madeBy: string, comment: string)

  /** The rejection reasons of the backend, one per message it rejects with. */
  datatype Error =
    | NoSMFound
    | MultipleSMFound
    | NoInstanceFound
    | MultipleInstancesFound
    | ExistingInstanceFound
    | NoInitialStateFound
    | MultipleInitialStatesFound
    | CommentTooLong
    | TransitionNotAllowed

  /** `{result: 'OK', payload}` on success, a rejection with one error kind otherwise. */
  datatype Result<+T> = Ok(value: T) | Err(error: Error)

  /** A transition comment may hold at most this many characters. */
  const MaxCommentLength: nat := 200

  /** Transition name and comment of the history row written when an
      instance is created. */
  const InstanceInitiated: string := "instance initiated"
}
