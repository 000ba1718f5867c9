# tamed-state-machine backend engine, modelled in Dafny

The backend of tamed-state-machine is a finite-state-machine instance
manager over a relational store. It uses five tables:

- The machine definitions are three tables: machines, their states tagged
  Initial, Stepping or Final (`I`, `S`, `F`), and transitions
  `(from_state, transition_name, to_state, pre/post task names)`.
- The live instances are keyed by `(external name, external id, machine id)`.
  Each one holds its current state.
- The history (the ledger) is append-only and holds one row per state change.

The backend's public operations are these. Each is a short chain of lookups,
row-count checks and writes:

- `smIdFromName`
- `getInstance`
- `initiateInstance`
- `deleteInstance`
- `getPossibleTransitions`
- `transitionInstance`
- `getInstanceHistory`

The model has these modules:

- `Rows` (rows.dfy): the table rows, the error kinds the backend rejects
  with, the 200-character comment limit and the `instance initiated` text.
- `Select` (select.dfy): the selection of rows by a predicate, standing in
  for a query's `where` clause. It also holds the row-count check that
  every lookup performs (no row, several rows, or the one row), and lemmas
  that tie the check's outcome to what the table contains.
- `Queries` (queries.dfy): each query of the backend, modelled by the
  parameters the code passes it: `getSM`, `getInstance`, `getSMInitialState`,
  `getPossibleTransitions`, `getInstanceHistory`, `setInstanceNewState` and
  `deleteInstance`.
- `Lookups` (lookups.dfy): the read-only operations as functions over the
  tables.
- `Operations` (operations.dfy): the three writing operations as functions
  from the tables before to an outcome and the tables after. They follow
  the code branch by branch.
- `Properties` (properties.dfy): what each writing operation does, proved
  about those functions. This covers each rejection, what a success writes,
  what the lookups return afterwards, and the preservation of the
  invariants.
- `Ledger` (ledger.dfy): two invariants. One live instance per key. An
  audit trail: every live instance's history begins with its
  `instance initiated` row in the machine's initial state, and ends in the
  instance's current state.
- `Engine` (store.dfy): the store as a class. The definition tables are
  constant fields. The instance table, the history and the id serial are
  mutable fields. `InitiateInstance`, `TransitionInstance` and
  `DeleteInstance` are methods that change those fields step by step, with
  early returns, as the code does. Each method is proved to compute exactly
  the matching `Operations` function. Each method is also proved to keep
  the id invariant and the ledger's invariants.
- `Scenario` (scenario.dfy): the document-approval machine of the backend's
  test suite, and its two runs, proved for any document key and actor.

Two behaviours of the code are worth spelling out:

- `initiateInstance` treats every failure of its existence check as the
  expected "not there yet" case (the comment at
  `backend/tamed-state-machine-backend.js:88`), including
  `multipleInstancesFound`. On a key that already has several live
  instances, the code therefore inserts the new row. Its second lookup
  then rejects with `multipleInstancesFound`, and no history row is
  written, so the rejected call still leaves a new instance row behind.
  `Properties.InitiateOnAmbiguousKey` states this outcome.
  `Ledger.UniqueKeysNoAmbiguity` shows that the outcome cannot occur while
  keys are unique. The engine's writes keep keys unique
  (`Properties.InitiateKeepsConsistency`, `Properties.TransitionKeepsConsistency`
  and `Properties.DeleteKeepsInvariants`).
- A failed lookup rejects with the message of its own kind: `noSMfound`
  when the machine name is unknown and `noInstanceFound` when the key has
  no live instance (`backend/tamed-state-machine-backend.js:46` and `:66`).
  The model keeps them apart as `Rows.Error.NoSMFound` and
  `Rows.Error.NoInstanceFound`.

## Model

All source cells under `backend/__tests__/` are in
`backend/__tests__/tamed-state-machine-backend.test.js`; the others are in
`backend/tamed-state-machine-backend.js`.

| member | source | states |
|---|---|---|
| Select.Filter | backend/tamed-state-machine-backend.js:150 | the selected rows are exactly the rows of the table that satisfy the predicate, and there are no more of them than rows in the table |
| Select.FilterEmpty | backend/tamed-state-machine-backend.js:66 | a selection is empty exactly when no row of the table satisfies the predicate |
| Select.FilterSeveral | backend/tamed-state-machine-backend.js:68 | a selection has two rows or more exactly when two distinct rows of the table satisfy the predicate |
| Select.SelectSingle | backend/tamed-state-machine-backend.js:64-72 | the row-count check rejects with the "none" error exactly when no row matches, and with the "several" error exactly when two rows match; otherwise it returns the one matching row |
| Select.Single | backend/tamed-state-machine-backend.js:46-49 | the row-count check, shared by the machine, instance and initial-state lookups (also at :66-70 and :93-96), succeeds exactly when there is one row and then returns that row; it rejects with the "none" error on no rows and with the "several" error on more than one; `Select.SelectSingle` restates this over the table |
| Queries.GetSM | backend/tamed-state-machine-backend.js:44 | the rows returned are exactly the machines with the given name |
| Queries.GetInstanceRows | backend/tamed-state-machine-backend.js:64 | the rows returned are exactly the live instances with the given external name, external id and machine id |
| Queries.GetSMInitialState | backend/tamed-state-machine-backend.js:91 | the rows returned are exactly the states of the machine tagged Initial |
| Queries.GetPossibleTransitionRows | backend/tamed-state-machine-backend.js:133 | the rows returned are exactly the transitions of the machine that leave the given state |
| Queries.GetInstanceHistoryRows | backend/tamed-state-machine-backend.js:173 | the rows returned are exactly the ledger rows of the given instance id |
| Queries.HistoryAppend | backend/tamed-state-machine-backend.js:158 | appending a ledger row adds it to the end of its own instance's history, and leaves every other instance's history as it was |
| Queries.SetInstanceNewState | backend/tamed-state-machine-backend.js:157 | the update keeps the number of rows and every column other than the state; the rows with the given id get the new state and the others keep theirs; `Queries.SetStateOfOneRow` narrows this to the one row when ids are distinct |
| Queries.DeleteInstanceRows | backend/tamed-state-machine-backend.js:117 | the delete keeps exactly the rows whose id differs from the given id; `Queries.DeleteOneRow` adds that the order of the rest is kept when ids are distinct |
| Queries.SetStateOfOneRow | backend/tamed-state-machine-backend.js:157 | when ids are distinct, the state update by id changes only the row with that id, and only its state |
| Queries.DeleteOneRow | backend/tamed-state-machine-backend.js:117 | when ids are distinct, the delete by id removes only the row with that id and keeps the order of the rest |
| Lookups.SmIdFromName | backend/tamed-state-machine-backend.js:42-58 | rejects with `noSMfound` exactly when no machine has the name, and with `multipleSMfound` exactly when two do; otherwise returns the id of the one machine with that name |
| Lookups.GetInstance | backend/tamed-state-machine-backend.js:60-76 | propagates a failure to resolve the machine; otherwise rejects with `noInstanceFound` exactly when no live instance has the key, and with `multipleInstancesFound` exactly when two do; otherwise returns the one instance with the key |
| Lookups.InitialState | backend/tamed-state-machine-backend.js:91-96 | rejects with `noInitialStateFound` exactly when the machine has no Initial state, and with `multipleInitialStatesFound` exactly when it has two; otherwise returns the one Initial state |
| Lookups.GetPossibleTransitions | backend/tamed-state-machine-backend.js:127-141 | propagates the instance lookup's error; otherwise returns exactly the transitions of the instance's machine that leave its current state |
| Lookups.TransitionsNamed | backend/tamed-state-machine-backend.js:150 | keeps exactly the possible transitions that have the requested name |
| Lookups.GetInstanceHistory | backend/tamed-state-machine-backend.js:168-181 | propagates the instance lookup's error; otherwise returns exactly the ledger rows of the found instance |
| Ledger.UniqueKeysNoAmbiguity | backend/tamed-state-machine-backend.js:66-68 | while each key has at most one live instance, the instance lookup never rejects with `multipleInstancesFound` |
| Ledger.InsertedInstanceIsFound | backend/tamed-state-machine-backend.js:98-100 | a row inserted for a key that had no live instance is what the second lookup returns |
| Ledger.InsertedInstanceStaysAmbiguous | backend/tamed-state-machine-backend.js:98-99 | a row inserted for a key that already had several live instances leaves the second lookup rejecting with `multipleInstancesFound` |
| Ledger.DeletedInstanceIsGone | backend/tamed-state-machine-backend.js:115-117 | after the one matching instance is deleted, the lookup on the same key rejects with `noInstanceFound` |
| Ledger.UpdatedInstanceIsFound | backend/tamed-state-machine-backend.js:154-157 | after the found instance's state is updated, the lookup on the same key returns the updated row |
| Ledger.InitiateKeepsAuditTrail | backend/tamed-state-machine-backend.js:98-102 | inserting an instance in its machine's initial state under a fresh id, together with its `instance initiated` row, keeps every live instance's history beginning at its creation and ending in its current state |
| Ledger.NewRowAudited | backend/tamed-state-machine-backend.js:102 | a new instance whose id has no ledger rows yet, given its `instance initiated` row, has a history that starts with that row in the machine's initial state and ends in its current state |
| Ledger.TransitionKeepsAuditTrail | backend/tamed-state-machine-backend.js:157-158 | moving an instance and appending the move to the ledger keeps the audit trail |
| Ledger.DeleteKeepsAuditTrail | backend/tamed-state-machine-backend.js:117 | deleting an instance keeps the audit trail of every other live instance |
| Ledger.InsertKeepsUniqueKeys | backend/tamed-state-machine-backend.js:83-98 | inserting a row whose key has no live instance keeps one live instance per key |
| Ledger.DeleteKeepsUniqueKeys | backend/tamed-state-machine-backend.js:117 | deleting a row keeps one live instance per key |
| Ledger.UpdateKeepsUniqueKeys | backend/tamed-state-machine-backend.js:157 | changing a state keeps one live instance per key |
| Operations.InitiateInstance | backend/tamed-state-machine-backend.js:78-111 | creation rejects with `existingInstanceFound` exactly when the lookup finds an instance; it only ever appends one instance row and at most one ledger row; on success the key had no live instance before, the lookup finds one afterwards, and the serial moves on; the branches are described in detail by `Properties.InitiateRejections`, `Properties.InitiateCreates` and `Properties.InitiateOnAmbiguousKey` |
| Operations.CreateInstance | backend/tamed-state-machine-backend.js:96-102 | the insert appends the instance in the given state under the next id and moves the serial on; the ledger row is written exactly when the second lookup succeeds, and it carries the id that lookup returns and `instance initiated` as name and comment; otherwise the ledger is unchanged |
| Operations.TransitionInstance | backend/tamed-state-machine-backend.js:143-166 | every rejection changes nothing; `commentTooLong` is returned exactly when the comment is over 200 characters; a success needs a found instance, keeps the number of instances and the serial, and appends one ledger row with the instance id, name, maker and comment; `Properties.TransitionAllowedIff` and `Properties.TransitionApplies` add when it succeeds and what it moves |
| Operations.DeleteInstance | backend/tamed-state-machine-backend.js:113-125 | the ledger and the serial are never changed; deletion succeeds exactly when the lookup succeeds and otherwise rejects with the lookup's error, changing nothing; on success the remaining instances are exactly those whose id differs from the found one; `Properties.DeleteRemoves` adds that the lookup then rejects with `noInstanceFound` |
| Properties.InitiateRejections | backend/tamed-state-machine-backend.js:80-95 | an unresolved machine, an instance already found on the key, or a machine without exactly one Initial state each reject with their own error and change nothing; `existingInstanceFound` is returned exactly when the lookup finds an instance |
| Properties.InitiateCreates | backend/tamed-state-machine-backend.js:96-107 | on a key without a live instance, creation succeeds; it appends one instance in the machine's initial state under the next id, and one `instance initiated` ledger row for it; the lookup then returns that instance, and its history is that one row |
| Properties.InitiateOnAmbiguousKey | backend/tamed-state-machine-backend.js:83-99 | on a key with several live instances the ignored lookup error lets the insert happen; creation then rejects with `multipleInstancesFound`, the instance table gaining exactly the new row under the next id in the machine's initial state, the serial moving on, and no new ledger row |
| Properties.InitiateKeepsValidIds | backend/tamed-state-machine-backend.js:98-102 | creation keeps instance ids distinct and below the serial, and keeps ledger ids below the serial; it only appends to the ledger |
| Properties.InitiateKeepsConsistency | backend/tamed-state-machine-backend.js:83-102 | creation keeps one live instance per key, and keeps the audit trail |
| Properties.TransitionRejections | backend/tamed-state-machine-backend.js:146-149 | a comment over 200 characters rejects with `commentTooLong` before any lookup; a failed instance lookup rejects with its own error; neither changes anything |
| Properties.TransitionAllowedIff | backend/tamed-state-machine-backend.js:148-151 | for a found instance and an acceptable comment, the transition succeeds exactly when one of the possible transitions has the requested name; otherwise it rejects with `transitionNotAllowed` and changes nothing |
| Properties.TransitionApplies | backend/tamed-state-machine-backend.js:152-158 | a successful transition moves the found instance, and only it, to the target of a transition of its machine that leaves its current state with that name; it appends `(id, target, name, madeBy, comment)` to the ledger; the lookup then returns the moved instance |
| Properties.TransitionTargetDetermined | backend/tamed-state-machine-backend.js:151-152 | when (machine, from state, name) is unique in the transition table, every matching transition's target is the instance's new state |
| Properties.TransitionKeepsValidIds | backend/tamed-state-machine-backend.js:157-158 | a transition keeps the id invariant and only appends to the ledger |
| Properties.TransitionKeepsConsistency | backend/tamed-state-machine-backend.js:157-158 | a transition keeps one live instance per key, and keeps the audit trail |
| Properties.DeleteRemoves | backend/tamed-state-machine-backend.js:113-125 | a failed lookup rejects with its error and changes nothing; otherwise deletion removes exactly the found instance's row and leaves the ledger and the serial alone, and the lookup on the key then rejects with `noInstanceFound` |
| Properties.DeleteKeepsInvariants | backend/tamed-state-machine-backend.js:115-117 | deletion keeps the id invariant, leaves the ledger unchanged, and keeps one live instance per key and the audit trail |
| Properties.InsertKeepsValidIds | backend/tamed-state-machine-backend.js:98 | inserting under the serial's id, with ledger rows for that id, keeps the id invariant |
| Properties.UpdateKeepsValidIds | backend/tamed-state-machine-backend.js:157-158 | updating one instance's state and appending a ledger row for it keeps the id invariant |
| Properties.DeleteKeepsValidIds | backend/tamed-state-machine-backend.js:117 | removing one instance row keeps the id invariant |
| Engine.Store.InitiateInstance | backend/tamed-state-machine-backend.js:78-111 | the method's outcome and new tables are those of `Operations.InitiateInstance` on the old tables; it keeps the id invariant; it only appends to the ledger; it keeps one live instance per key and the audit trail |
| Engine.Store.CreateInstance | backend/tamed-state-machine-backend.js:96-102 | the method's outcome and new tables are those of `Operations.CreateInstance` on the old tables. The instance row is inserted under the serial and the serial advances. The second lookup's error is returned with no ledger row; otherwise the `instance initiated` row is appended |
| Engine.Store.TransitionInstance | backend/tamed-state-machine-backend.js:143-166 | the method's outcome and new tables are those of `Operations.TransitionInstance` on the old tables; it keeps the id invariant; it only appends to the ledger; it keeps one live instance per key and the audit trail |
| Engine.Store.DeleteInstance | backend/tamed-state-machine-backend.js:113-125 | the method's outcome and new tables are those of `Operations.DeleteInstance` on the old tables; it keeps the id invariant; it leaves the ledger unchanged; it keeps one live instance per key and the audit trail |
| Scenario.MachineResolves | backend/__tests__/tamed-state-machine-backend.test.js:34-38 | the test machine's name resolves to its id |
| Scenario.InitialStateResolves | backend/__tests__/tamed-state-machine-backend.test.js:40-46 | the test machine's one Initial state is `Init` |
| Scenario.Initiated | backend/__tests__/tamed-state-machine-backend.test.js:120-123 | creation on empty tables succeeds, and the lookup returns the instance in `Init` |
| Scenario.OnlySubmitFromInit | backend/__tests__/tamed-state-machine-backend.test.js:124-128 | from `Init` the possible transitions are exactly the one Submit row |
| Scenario.Moves | backend/__tests__/tamed-state-machine-backend.test.js:129-148 | a transition name that the table offers from the current state, with a single target, is accepted and leaves the instance in that target |
| Scenario.Refused | backend/__tests__/tamed-state-machine-backend.test.js:149-154 | a transition name that the table does not offer from the current state is rejected with `transitionNotAllowed`, and nothing changes |
| Scenario.WalkFollows | backend/__tests__/tamed-state-machine-backend.test.js:129-148 | a sequence of moves, each offered from the state reached so far, is accepted to the end and passes through the expected states |
| Scenario.RouteLeads | backend/__tests__/tamed-state-machine-backend.test.js:47-55 | in the test's transition table Submit, Reject, Modify, Approve, Modify lead from Init through Submitted, Rejected, Submitted and Approved to Submitted |
| Scenario.ApprovalRoute | backend/__tests__/tamed-state-machine-backend.test.js:129-154 | from `Init`, each prefix of the route is accepted and reaches the matching state; Close is then rejected with `transitionNotAllowed` and changes nothing |
| Scenario.DocumentApproval | backend/__tests__/tamed-state-machine-backend.test.js:119-155 | creation succeeds in `Init` with Submit the only possible transition, and the whole route is accepted and ends in `Submitted` |
| Scenario.InitiateFindDelete | backend/__tests__/tamed-state-machine-backend.test.js:74-117 | creation succeeds and the lookup finds the instance of the test machine; a second creation rejects with `existingInstanceFound` and changes nothing; deletion succeeds, and the lookup then rejects with `noInstanceFound`; lookup and deletion on a key that never had an instance reject with `noInstanceFound` |

## Left out

- Connection setup (`init`), the `tamed-pg` pool, `tickLog` logging and the
  `testHandler` echo are left out. They are I/O and diagnostics.
- The Promise and async plumbing is left out. Every operation is one
  sequential, atomic step on the store.
- Concurrency is left out. The check-then-insert race between concurrent
  initiators, and the atomicity of "update state and append history", are
  store concerns.
- Store failures are not modelled. The model's queries always succeed, so
  the outer `catch` blocks only pass on the lookup rejections that the
  model returns as `Err`.
- Every argument is modelled as a string. A missing or non-string argument
  is not modelled: for example, `transitionInstance` called without a
  comment throws when it reads `comment.length`
  (`backend/tamed-state-machine-backend.js:146`), and the `catch` at
  `backend/tamed-state-machine-backend.js:163-164` turns that into a
  rejection that is not one of `Rows.Error`.
- The SQL text (`sqls.json`) is not part of this model. Each query is
  modelled by its parameters as the code passes them.
- The English messages of `ui-texts-english.json` are not part of this
  model. Errors are the constructors of `Rows.Error`.
- Timestamps are left out. Database-generated instance ids are a counter
  (`nextInstanceId`).
- Rows returned by a query come in table order; SQL guarantees no order.
  `Lookups.GetPossibleTransitions` and `Lookups.GetInstanceHistory` state
  their results as sets of rows (exact membership), not as an order.
- Engine.Store.TransitionInstance: the comment limit counts the characters
  of the string, not JavaScript's UTF-16 code units. When several possible
  transitions share the name, it takes the first one in table order, as
  `targetStateRows[0]` does; the database's uniqueness constraint, assumed
  in `Properties.TransitionTargetDetermined`, rules that case out.
- The frontend client (`frontend/tamed-state-machine-frontend.js`) and the
  example HTTP server are left out. They are network plumbing and
  caller-supplied hooks.
- Provisioning machine definitions is outside the engine and is not
  modelled. A store is created with its definitions and they stay constant.
- Scenario: the test machine has id 1 here, while the test suite reads a
  database-generated id. The scenario starts from empty instance and
  history tables.
