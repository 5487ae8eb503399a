/** The campaign directory's in-memory store. */
module RegistryStore {
  import opened RegistryModel

  datatype StoreReply = Stored | UnknownId | TokenMismatch

  /** A listing as the public sees it: the token is left off. */
  datatype PublicListing = PublicListing(id: nat, fields: Fields)

  class Store {
    var now: int
    var nextId: nat
    var listings: map<nat, Entry>

    constructor ()
      ensures listings == map[] && nextId == 0 && now == 0
    {
      listings, nextId, now := map[], 0, 0;
    }

    method Create(fields: Fields, token: int) returns (id: nat)
      modifies this
      ensures id == old(nextId) && nextId == id + 1 && now == old(now)
      ensures listings == old(listings)[id := Entry(token, fields, now)]
    {
      id := nextId;
      nextId := nextId + 1;
      listings := listings[id := Entry(token, fields, now)];
    }

    /** Replaces every field and counts as a sign of life; a rejected call changes nothing. */
    method Heartbeat(id: nat, token: int, fields: Fields) returns (reply: StoreReply)
      modifies this`listings
      ensures reply.UnknownId? <==> id !in old(listings)
      ensures reply.Stored? <==> id in old(listings) && old(listings)[id].token == token
      ensures listings == if reply.Stored? then old(listings)[id := Entry(token, fields, now)] else old(listings)
    {
      if id !in listings {
        return UnknownId;
      }
      if listings[id].token != token {
        return TokenMismatch;
      }
      listings := listings[id := Entry(token, fields, now)];
      reply := Stored;
    }

    method Remove(id: nat, token: int) returns (reply: StoreReply)
      modifies this`listings
      ensures reply.UnknownId? <==> id !in old(listings)
      ensures reply.Stored? <==> id in old(listings) && old(listings)[id].token == token
      ensures listings == if reply.Stored? then old(listings) - {id} else old(listings)
    {
      if id !in listings {
        return UnknownId;
      }
      if listings[id].token != token {
        return TokenMismatch;
      }
      listings := listings - {id};
      reply := Stored;
    }

    /** Every listing heard from within the time to live, once each, in some order. */
    method Live(ttl: nat) returns (result: seq<PublicListing>)
      ensures forall i, j :: 0 <= i < j < |result| ==> result[i].id != result[j].id
      ensures forall p :: p in result <==>
                p.id in listings && listings[p.id].lastHeartbeat >= now - ttl && p.fields == listings[p.id].fields
    {
      var todo := listings.Keys;
      result := [];
      while todo != {}
        invariant todo <= listings.Keys
        invariant forall i, j :: 0 <= i < j < |result| ==> result[i].id != result[j].id
        invariant forall p :: p in result <==>
                    p.id in listings && p.id !in todo && listings[p.id].lastHeartbeat >= now - ttl && p.fields == listings[p.id].fields
        decreases todo
      {
        var id :| id in todo;
        if listings[id].lastHeartbeat >= now - ttl {
          result := result + [PublicListing(id, listings[id].fields)];
        }
        todo := todo - {id};
      }
    }

    /** Deletes every listing not heard from within the time to live. */
    method Sweep(ttl: nat)
      modifies this`listings
      ensures listings == SweepEntries(old(listings), now - ttl)
      ensures forall id :: id in listings <==> id in old(listings) && old(listings)[id].lastHeartbeat >= now - ttl
      ensures forall id :: id in listings ==> listings[id] == old(listings)[id]
    {
      var todo := listings.Keys;
      while todo != {}
        invariant todo <= old(listings).Keys
        invariant forall id :: id in listings <==>
                    id in old(listings) && (id in todo || old(listings)[id].lastHeartbeat >= now - ttl)
        invariant forall id :: id in listings ==> listings[id] == old(listings)[id]
        decreases todo
      {
        var id :| id in todo;
        if listings[id].lastHeartbeat < now - ttl {
          listings := listings - {id};
        }
        todo := todo - {id};
      }
    }
  }
}
