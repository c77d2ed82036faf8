/**
 The executor's handoff registry as objects (internal/repository/executor/handoff_gate.go),
 proved against Handoffs. A done channel is modelled by the number of times it was closed.
 */
module HandoffRegistry {
  import opened Prelude
  import opened JobTables
  import H = Handoffs

  class HandoffEntry {
    const id: CommandId
    const serial: nat
    const request: Command
    var state: H.EntryState
    var claim: Option<Grant>
    var closes: nat            // of the done channel
    var result: Code

    constructor (id: CommandId, serial: nat, request: Command)
      ensures this.id == id && this.serial == serial && this.request == request
      ensures View() == H.Entry(serial, request, H.Claiming, None) && closes == 0 && result == OK
    {
      this.id, this.serial, this.request := id, serial, request;
      state, claim, closes, result := H.Claiming, None, 0, OK;
    }

    ghost function View(): (e: H.Entry)
      reads this
    {
      H.Entry(serial, request, state, claim)
    }
  }

  class Registry {
    const limit: nat
    var entries: map<CommandId, HandoffEntry>
    var nextSerial: nat
    ghost var made: seq<HandoffEntry>    // every entry ever made, by serial

    constructor (limit: nat)
      ensures Valid() && NoneHangs() && this.limit == limit && View() == map[] && made == []
    {
      this.limit := limit;
      entries, nextSerial, made := map[], 0, [];
    }

    ghost predicate Registered(e: HandoffEntry)
      reads this`entries
    {
      e.id in entries && entries[e.id] == e
    }

    ghost predicate Made(e: HandoffEntry)
      reads this`made
    {
      e.serial < |made| && made[e.serial] == e
    }

    /** Serials identify entries. The done channel of a registered entry is open exactly while the
        entry is a placeholder, and was never closed twice; its result is not an error. */
    ghost predicate Valid()
      reads this, made
    {
      && nextSerial == |made| && |entries| <= limit
      && (forall id :: id in entries ==> Made(entries[id]) && Sound(id, entries[id]))
    }

    ghost predicate Sound(id: CommandId, e: HandoffEntry)
      reads e
    {
      e.id == id && e.closes == (if e.state.Claiming? then 0 else 1) && (e.state.Claiming? <==> e.claim.None?)
      && e.result.OK?
    }

    /** The done channel of every entry that has left the registry was closed, once. */
    ghost predicate NoneHangs()
      reads this, made
    {
      forall i :: 0 <= i < |made| && made[i].closes != 1 ==> Registered(made[i]) && made[i].closes == 0
    }

    ghost function View(): (r: H.Entries)
      reads this`entries, entries.Values
    {
      map id | id in entries :: entries[id].View()
    }

    lemma ViewSize()
      requires Valid()
      ensures View().Keys == entries.Keys && |View()| == |entries|
    {
      assert View().Keys == entries.Keys;
    }

    /** Identity, capacity and the placeholder in one critical section. */
    method GetOrReserve(id: CommandId, request: Command) returns (entry: HandoffEntry?, owner: bool, code: Code)
      requires Valid()
      modifies this
      ensures Valid() && (old(NoneHangs()) ==> NoneHangs())
      ensures owner <==> H.CanReserve(old(View()), limit, id)
      ensures if owner then View() == H.Reserve(old(View()), id, old(nextSerial), request) else View() == old(View())
      ensures code.OK? <==> entry != null
      ensures entry != null ==> entry.id == id && Made(entry) && Registered(entry)
      ensures owner ==> entry != null && fresh(entry) && entry.serial == old(nextSerial) && entry.state.Claiming?
      ensures entry != null && !owner ==>
                id in old(View()) && entry.result.OK?
                && entry.closes == if old(View())[id].state.Claiming? then 0 else 1
      ensures entry == null ==> code == ResourceExhausted && limit <= |old(entries)| && id !in old(View())
      ensures made == if owner then old(made) + [entry] else old(made)
    {
      hide NoneHangs;
      ViewSize();
      if id in entries {
        return entries[id], false, OK;
      }
      if limit <= |entries| {
        return null, false, ResourceExhausted;
      }
      entry := Install(id, request);
      return entry, true, OK;
    }

    method Install(id: CommandId, request: Command) returns (e: HandoffEntry)
      requires Valid() && id !in entries && |entries| < limit
      modifies this
      ensures Valid() && (old(NoneHangs()) ==> NoneHangs())
      ensures View() == H.Reserve(old(View()), id, old(nextSerial), request)
      ensures fresh(e) && e.id == id && e.serial == old(nextSerial) && e.state.Claiming?
      ensures made == old(made) + [e] && Made(e) && Registered(e)
    {
      e := Draw(id, request);
      Enlist(e);
    }

    /** A new entry under the next serial, not listed yet. */
    method Draw(id: CommandId, request: Command) returns (e: HandoffEntry)
      requires nextSerial == |made|
      modifies this`nextSerial, this`made
      ensures fresh(e) && e.id == id && e.serial == old(nextSerial) && Sound(id, e)
      ensures e.View() == H.Entry(old(nextSerial), request, H.Claiming, None)
      ensures made == old(made) + [e] && nextSerial == |made|
    {
      e := new HandoffEntry(id, nextSerial, request);
      nextSerial := nextSerial + 1;
      made := made + [e];
    }

    method Enlist(e: HandoffEntry)
      requires e.id !in entries
      modifies this`entries
      ensures entries == old(entries)[e.id := e] && View() == old(View())[e.id := e.View()]
      ensures |entries| == |old(entries)| + 1
    {
      entries := entries[e.id := e];
      assert View() == old(View())[e.id := e.View()];
    }

    /** The owner gives up its placeholder and tells every waiter the result. */
    method ResolveRemoved(entry: HandoffEntry, result: Code)
      requires Valid() && Made(entry)
      modifies this`entries, entry
      ensures old(NoneHangs()) ==> NoneHangs()
      ensures Valid() && View() == H.ResolveRemoved(old(View()), entry.id, entry.serial)
      ensures if old(Registered(entry) && entry.state.Claiming?)
              then entry.closes == old(entry.closes) + 1 && entry.result == result && !Registered(entry)
              else unchanged(this) && unchanged(entry)
    {
      if entry.id !in entries || entries[entry.id] != entry || entry.state != H.Claiming {
        return;
      }
      Drop(entry, result);
    }

    method Drop(entry: HandoffEntry, result: Code)
      requires Valid() && Made(entry) && Registered(entry) && entry.state.Claiming?
      modifies this`entries, entry`result, entry`closes
      ensures Valid() && (old(NoneHangs()) ==> NoneHangs())
      ensures View() == old(View()) - {entry.id} && entries == old(entries) - {entry.id}
      ensures entry.closes == old(entry.closes) + 1 && entry.result == result
    {
      entry.result := result;
      entry.closes := entry.closes + 1;
      Unlist(entry.id);
    }

    method Unlist(id: CommandId)
      requires id in entries
      modifies this`entries
      ensures entries == old(entries) - {id} && View() == old(View()) - {id} && |entries| < |old(entries)|
    {
      SmallerWithout(entries, id);
      entries := entries - {id};
      assert View() == old(View()) - {id};
    }

    method Activate(entry: HandoffEntry, grant: Grant) returns (active: bool)
      requires Valid() && Made(entry)
      modifies entry
      ensures old(NoneHangs()) ==> NoneHangs()
      ensures Valid() && View() == H.Activate(old(View()), entry.id, entry.serial, grant)
      ensures active <==> old(Registered(entry) && entry.state.Claiming?)
      ensures active ==> Registered(entry) && entry.closes == old(entry.closes) + 1 && entry.result == old(entry.result)
      ensures !active ==> unchanged(entry)
    {
      if entry.id !in entries || entries[entry.id] != entry || entry.state != H.Claiming {
        return false;
      }
      HandOver(entry, grant);
      return true;
    }

    method HandOver(entry: HandoffEntry, grant: Grant)
      requires Valid() && Made(entry) && Registered(entry) && entry.state.Claiming?
      modifies entry`claim, entry`state, entry`closes
      ensures Valid() && (old(NoneHangs()) ==> NoneHangs())
      ensures View() == old(View())[entry.id := old(entry.View()).(state := H.Active, claim := Some(grant))]
      ensures entry.closes == old(entry.closes) + 1
    {
      entry.claim := Some(grant);
      entry.state := H.Active;
      entry.closes := entry.closes + 1;
      assert forall x :: x in entries && x != entry.id ==> entries[x] != entry;
    }

    method MarkAwaiting(id: CommandId)
      requires Valid()
      modifies made
      ensures old(NoneHangs()) ==> NoneHangs()
      ensures Valid() && View() == H.MarkAwaiting(old(View()), id)
    {
      if id in entries && entries[id].state.Active? {
        entries[id].state := H.Awaiting;
      }
      assert View() == H.MarkAwaiting(old(View()), id);
    }

    /** Drops one entry whose claim is this lease, if there is any. */
    method Consume(job: JobId, token: Token)
      requires Valid()
      modifies this`entries
      ensures old(NoneHangs()) ==> NoneHangs()
      ensures Valid() && H.Consumed(old(View()), job, token, View())
    {
      var rest := entries.Keys;
      while rest != {}
        invariant entries == old(entries) && rest <= entries.Keys
        invariant forall id :: id in entries && id !in rest ==> id !in H.Matching(View(), job, token)
        decreases rest
      {
        var id :| id in rest;
        rest := rest - {id};
        var e := entries[id];
        if e.claim.Some? && e.claim.value.job == job && e.claim.value.token == token {
          assert id in H.Matching(View(), job, token);
          SmallerWithout(entries, id);
          entries := entries - {id};
          assert View() == old(View()) - {id};
          return;
        }
      }
    }

    /** A snapshot of the entries that reconciliation is to look at. */
    method AwaitingEntries() returns (awaiting: set<HandoffEntry>)
      requires Valid()
      ensures awaiting == set e | e in made && Registered(e) && e.state.Awaiting?
    {
      awaiting := set id | id in entries && entries[id].state.Awaiting? :: entries[id];
      assert forall e :: e in awaiting ==> e in made && Registered(e) && e.state.Awaiting?;
      assert forall e :: e in made && Registered(e) && e.state.Awaiting? ==> e.id in entries && entries[e.id] == e;
    }

    method RemoveAwaiting(entry: HandoffEntry)
      requires Valid() && Made(entry)
      modifies this`entries
      ensures old(NoneHangs()) ==> NoneHangs()
      ensures Valid() && View() == H.RemoveAwaiting(old(View()), entry.id, entry.serial)
    {
      if entry.id in entries && entries[entry.id] == entry && entry.state.Awaiting? {
        SmallerWithout(entries, entry.id);
        entries := entries - {entry.id};
      }
      assert View() == H.RemoveAwaiting(old(View()), entry.id, entry.serial);
    }

    method Size() returns (size: nat)
      requires Valid()
      ensures size == |View()| && (View() != map[] ==> size <= limit)
    {
      ViewSize();
      size := |entries|;
    }

    /** Whoever waits on an entry that is not a registered placeholder is released. */
    lemma NoWaiterHangs(e: HandoffEntry)
      requires Valid() && NoneHangs() && Made(e) && !(Registered(e) && e.state.Claiming?)
      ensures e.closes == 1
    {
      assert made[e.serial] == e;
    }
  }

  lemma SmallerWithout<K, V>(m: map<K, V>, k: K)
    requires k in m
    ensures |m - {k}| < |m|
  {
    assert m == (m - {k})[k := m[k]];
  }
}
