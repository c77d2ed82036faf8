/**
 The executor's handoff registry on values (internal/repository/executor/handoff_gate.go).

 A serial number stands for the identity of an entry object: a serial is used once.
 */
module Handoffs {
  import opened Prelude
  import opened JobTables

  datatype EntryState = Claiming | Active | Awaiting

  datatype Entry = Entry(serial: nat, request: Command, state: EntryState, claim: Option<Grant>)

  type Entries = map<CommandId, Entry>

  /** The placeholder of the caller that owns this serial. */
  predicate Placeholder(entries: Entries, id: CommandId, serial: nat) {
    id in entries && entries[id].serial == serial && entries[id].state.Claiming?
  }

  predicate CanReserve(entries: Entries, limit: int, id: CommandId) {
    id !in entries && |entries| < limit
  }

  function Reserve(entries: Entries, id: CommandId, serial: nat, request: Command): (r: Entries) {
    entries[id := Entry(serial, request, Claiming, None)]
  }

  function ResolveRemoved(entries: Entries, id: CommandId, serial: nat): (r: Entries) {
    if Placeholder(entries, id, serial) then entries - {id} else entries
  }

  function Activate(entries: Entries, id: CommandId, serial: nat, grant: Grant): (r: Entries) {
    if Placeholder(entries, id, serial) then entries[id := entries[id].(state := Active, claim := Some(grant))]
    else entries
  }

  function MarkAwaiting(entries: Entries, id: CommandId): (r: Entries) {
    if id in entries && entries[id].state.Active? then entries[id := entries[id].(state := Awaiting)] else entries
  }

  /** The entries whose claim is this lease. */
  function Matching(entries: Entries, job: JobId, token: Token): (ids: set<CommandId>) {
    set id | id in entries && entries[id].claim.Some? && entries[id].claim.value.job == job
             && entries[id].claim.value.token == token
  }

  /** Consuming removes one matching entry, if there is any. */
  predicate Consumed(entries: Entries, job: JobId, token: Token, after: Entries) {
    if Matching(entries, job, token) == {} then after == entries
    else exists id :: id in Matching(entries, job, token) && after == entries - {id}
  }

  function RemoveAwaiting(entries: Entries, id: CommandId, serial: nat): (r: Entries) {
    if id in entries && entries[id].serial == serial && entries[id].state.Awaiting? then entries - {id} else entries
  }

  // ---------------------------------------------------------------- who may do what

  /** A command gets a placeholder exactly when it has no entry and there is room for one more. Only its
      owner can give it up, which leaves the registry as it was, or turn it active, once; for
      anyone else, and afterwards, neither has an effect. */
  lemma OwnersAlone(entries: Entries, limit: int, id: CommandId, serial: nat, request: Command, other: nat, grant: Grant)
    requires other != serial
    ensures CanReserve(entries, limit, id) <==> id !in entries && |entries| + 1 <= limit
    ensures CanReserve(entries, limit, id) ==>
              var placed := Reserve(entries, id, serial, request);
              var active := Activate(placed, id, serial, grant);
              && placed.Keys == entries.Keys + {id} && !CanReserve(placed, limit, id)
              && ResolveRemoved(placed, id, serial) == entries
              && ResolveRemoved(placed, id, other) == placed && Activate(placed, id, other, grant) == placed
              && active == entries[id := Entry(serial, request, Active, Some(grant))]
              && ResolveRemoved(active, id, serial) == active && Activate(active, id, serial, grant) == active
  {
  }

  /** An active entry awaits once its execution ends; only an awaiting entry of this serial is removed; what
      a lease matches are the entries with its job and token. */
  lemma AwaitsThenLeaves(entries: Entries, id: CommandId, serial: nat, grant: Grant)
    requires id in entries && entries[id] == Entry(serial, entries[id].request, Active, Some(grant))
    ensures var awaiting := MarkAwaiting(entries, id);
            && awaiting == entries[id := entries[id].(state := Awaiting)] && MarkAwaiting(awaiting, id) == awaiting
            && RemoveAwaiting(entries, id, serial) == entries
            && RemoveAwaiting(awaiting, id, serial) == entries - {id}
            && forall other :: other != serial ==> RemoveAwaiting(awaiting, id, other) == awaiting
    ensures forall job, token :: id in Matching(entries, job, token) <==> job == grant.job && token == grant.token
  {
    assert entries[id := entries[id].(state := Awaiting)] - {id} == entries - {id};
  }
}
