/** The Master's heartbeat loop at work against the store, one round at a time. */
module RegistryLoop {
  import opened RegistryModel
  import opened RegistrySafety
  import opened RegistryStore

  class HeartbeatLoop {
    const rules: Rules
    const store: Store
    var registrations: map<string, Registration>
    /** Which of the store's ids were drawn for this Master's campaigns. */
    var issued: map<nat, string>
    ghost var log: seq<Sent>

    ghost function Abs(): World
      reads this, store
    {
      World(store.now, store.nextId, store.listings, issued, registrations, log)
    }

    constructor (rules: Rules, store: Store)
      ensures this.rules == rules && this.store == store
      ensures Abs() == World(store.now, store.nextId, store.listings, map[], map[], [])
    {
      this.rules, this.store := rules, store;
      registrations, issued, log := map[], map[], [];
    }

    /** One thing that happens to the store by itself. */
    method Happen(e: Event)
      modifies store
      ensures Abs() == Apply(old(Abs()), rules, e)
    {
      match e
      case Tick(dt) =>
        store.now := store.now + dt;
      case Sweep =>
        store.Sweep(rules.ttl);
      case Restart =>
        store.listings := map[];
      case ForeignCreate(token, fields) =>
        var _ := store.Create(fields, token);
      case ForeignHeartbeat(id, fields) =>
        if id in store.listings && id !in issued {
          var _ := store.Heartbeat(id, store.listings[id].token, fields);
        }
      case ForeignRemove(id) =>
        if id in store.listings && id !in issued {
          var _ := store.Remove(id, store.listings[id].token);
        }
    }

    method Meanwhile(es: seq<Event>)
      modifies store
      ensures Abs() == Drift(old(Abs()), rules, es)
    {
      var i := 0;
      while i < |es|
        invariant 0 <= i <= |es|
        invariant Drift(Abs(), rules, es[i..]) == Drift(old(Abs()), rules, es)
      {
        assert es[i..][0] == es[i] && es[i..][1..] == es[i + 1..];
        Happen(es[i]);
        i := i + 1;
      }
    }

    /** Asks for a new listing; nothing is returned unless it was made and the answer came back. */
    method RegisterListing(f: Fields, call: Call) returns (r: Option<Registration>)
      modifies this`issued, store
      ensures (Abs(), r) == Register(old(Abs()), rules, f, call)
      ensures r.Some? <==>
                && call.delivery.Delivered?
                && 1 <= |f.adventureName| <= 200 && 1 <= |f.joinURL| <= 500 && 1 <= |f.campaignID| <= 200 && rules.urlParses(f.joinURL)
    {
      Meanwhile(call.drift);
      r := None;
      if Arrives(call.delivery) && rules.Accepts(f) {
        var id := store.Create(f, call.token);
        issued := issued[id := f.campaignID];
        if call.delivery.Delivered? {
          r := Some(Registration(id, call.token));
        }
      }
    }

    method SendHeartbeat(reg: Registration, f: Fields, call: Call) returns (reply: Reply)
      modifies store
      ensures (Abs(), reply) == Heartbeat(old(Abs()), rules, reg, f, call)
    {
      Meanwhile(call.drift);
      reply := Failed;
      if Arrives(call.delivery) && rules.FieldsValid(f) {
        var answer := store.Heartbeat(reg.id, reg.token, f);
        if call.delivery.Delivered? {
          match answer
          case Stored => reply := Ok;
          case UnknownId => reply := NotFound;
          case TokenMismatch => reply := Failed;
        }
      }
    }

    method SendDeregister(reg: Registration, call: Call)
      modifies store
      ensures Abs() == Deregister(old(Abs()), rules, reg, call)
    {
      Meanwhile(call.drift);
      if Arrives(call.delivery) {
        var _ := store.Remove(reg.id, reg.token);
      }
    }

    method RegisterCampaign(v: Visit, call: Call)
      requires v.read.Found?
      modifies this, store
      ensures Abs() == RegisterVisit(old(Abs()), rules, v, call)
    {
      hide Drift;
      var f := BuildListing(v);
      log := log + [SentRegister(v, f)];
      var r := RegisterListing(f, call);
      if r.Some? {
        registrations := registrations[v.Campaign() := r.value];
      }
    }

    method ForgetCampaign(c: string, call: Call)
      requires c in registrations
      modifies this, store
      ensures Abs() == DropCampaign(old(Abs()), rules, c, call)
    {
      var reg := registrations[c];
      log := log + [SentDeregister(c, reg.id)];
      SendDeregister(reg, call);
      registrations := registrations - {c};
    }

    /** One campaign's turn. */
    method Sync(v: Visit)
      modifies this, store
      ensures Abs() == SyncCampaign(old(Abs()), rules, v)
    {
      hide Heartbeat, RegisterVisit, DropCampaign;
      if v.read.ReadFailed? {
        return;
      }
      var c := v.Campaign();
      if !v.ShouldList() {
        if c in registrations {
          ForgetCampaign(c, v.first);
        }
        return;
      }
      if c !in registrations {
        RegisterCampaign(v, v.first);
        return;
      }
      var f := BuildListing(v);
      log := log + [SentHeartbeat(v, registrations[c].id, f)];
      var reply := SendHeartbeat(registrations[c], f, v.first);
      if reply.NotFound? {
        RegisterCampaign(v, v.second);
      }
    }

    method SyncEach(visits: seq<Visit>) returns (stillPresent: set<string>)
      modifies this, store
      ensures Abs() == SyncAll(old(Abs()), rules, visits)
      ensures stillPresent == Present(visits)
    {
      hide SyncCampaign;
      stillPresent := {};
      var i := 0;
      while i < |visits|
        invariant 0 <= i <= |visits|
        invariant Abs() == SyncAll(old(Abs()), rules, visits[..i])
        invariant forall c :: c in stillPresent <==> exists k :: 0 <= k < i && visits[k].Campaign() == c
      {
        assert visits[..i + 1][..i] == visits[..i];
        stillPresent := stillPresent + {visits[i].Campaign()};
        Sync(visits[i]);
        i := i + 1;
      }
      assert visits[..i] == visits;
    }

    /** Drops the tracked campaigns that are no longer listed, in no particular order. */
    method DropVanished(stillPresent: set<string>, call: string -> Call) returns (ghost order: seq<string>)
      modifies this, store
      ensures Abs() == DropAll(old(Abs()), rules, order, call)
      ensures forall i, j :: 0 <= i < j < |order| ==> order[i] != order[j]
      ensures forall c :: c in order <==> c in old(registrations) && c !in stillPresent
    {
      hide DropCampaign;
      var todo := registrations.Keys;
      order := [];
      while todo != {}
        invariant Abs() == DropAll(old(Abs()), rules, order, call)
        invariant forall i, j :: 0 <= i < j < |order| ==> order[i] != order[j]
        invariant todo <= old(registrations).Keys
        invariant forall c :: c in order <==> c in old(registrations) && c !in stillPresent && c !in todo
        invariant forall c :: c in todo ==> c in registrations
        decreases todo
      {
        var c :| c in todo;
        todo := todo - {c};
        if c !in stillPresent {
          DropForgets(Abs(), rules, c, call(c));
          assert (order + [c])[..|order|] == order;
          ForgetCampaign(c, call(c));
          order := order + [c];
        }
      }
    }

    /** One round, as the plan says its reads and calls will fare. */
    method RunOnce(round: Round)
      modifies this, store
      ensures RoundStep(old(Abs()), rules, round, Abs())
      ensures round.ListFailed? ==> Abs() == old(Abs())
    {
      hide SyncAll, DropAll;
      if round.ListFailed? {
        return;
      }
      var stillPresent := SyncEach(round.visits);
      ghost var order := DropVanished(stillPresent, round.drop);
      assert IsDropOrder(SyncAll(old(Abs()), rules, round.visits), round.visits, order);
    }
  }

  /** Forgetting a campaign forgets nothing else. */
  lemma DropForgets(w: World, rules: Rules, c: string, call: Call)
    requires c in w.regs
    ensures DropCampaign(w, rules, c, call).regs == w.regs - {c}
  {
    DriftKeepsMaster(Log(w, SentDeregister(c, w.regs[c].id)), rules, call.drift);
  }
}
