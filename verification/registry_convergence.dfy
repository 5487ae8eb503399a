/** Convergence: once faults stop and settings stay fixed, the directory shows exactly the
    campaigns it should. */
module RegistryConvergence {
  import opened RegistryModel
  import opened RegistrySafety

  // ----- Calm

  ghost predicate CalmEvents(es: seq<Event>) {
    forall i :: 0 <= i < |es| ==> !es[i].Restart?
  }

  /** The call arrives and is answered, and the directory does not restart meanwhile. */
  ghost predicate CalmCall(call: Call) { call.delivery.Delivered? && CalmEvents(call.drift) }

  ghost predicate CalmVisit(v: Visit) { CalmCall(v.first) && CalmCall(v.second) }

  /** v reads what row says, whatever becomes of its calls. */
  predicate Reads(v: Visit, row: Visit) {
    v.summary == row.summary && v.read == row.read && v.lookup == row.lookup
  }

  /** The fixed settings: one row a campaign, each read without error. */
  ghost predicate FixedRows(rows: seq<Visit>) {
    && (forall i :: 0 <= i < |rows| ==> !rows[i].read.ReadFailed?)
    && (forall i, j :: 0 <= i < j < |rows| ==> rows[i].Campaign() != rows[j].Campaign())
  }

  /** A round without faults that reads the fixed settings. */
  ghost predicate CalmRound(rows: seq<Visit>, r: Round) {
    && r.Listing? && |r.visits| == |rows|
    && (forall i :: 0 <= i < |rows| ==> Reads(r.visits[i], rows[i]) && CalmVisit(r.visits[i]))
    && (forall c :: CalmCall(r.drop(c)))
  }

  ghost predicate CalmStep(rows: seq<Visit>, s: Step) {
    match s
    case Meanwhile(es) => CalmEvents(es)
    case RunRound(r) => CalmRound(rows, r)
    case MasterRestart(_, _, _) => false
  }

  /** The campaign is opted in and the directory accepts its listing. */
  predicate Good(rules: Rules, v: Visit) { v.ShouldList() && rules.Accepts(BuildListing(v)) }

  /** c is a campaign that should be shown, with fields f. */
  ghost predicate Wanted(rules: Rules, rows: seq<Visit>, c: string, f: Fields) {
    exists i :: 0 <= i < |rows| && rows[i].Campaign() == c && Good(rules, rows[i]) && f == BuildListing(rows[i])
  }

  // ----- Nothing unwanted is refreshed

  ghost predicate StaleOrWanted(w: World, rules: Rules, rows: seq<Visit>, t0: int, id: nat)
    requires id in w.issued && id in w.entries
  {
    var c := w.issued[id];
    || w.entries[id].lastHeartbeat <= t0
    || (c in w.regs && w.regs[c].id == id && Wanted(rules, rows, c, w.entries[id].fields))
  }

  /** Since t0 only wanted listings with current fields were touched. */
  ghost predicate Settling(w: World, rules: Rules, rows: seq<Visit>, t0: int) {
    forall id :: id in w.issued && id in w.entries ==> StaleOrWanted(w, rules, rows, t0, id)
  }

  lemma ApplyKeepsSettling(w: World, rules: Rules, rows: seq<Visit>, t0: int, e: Event)
    requires Inv(w) && Settling(w, rules, rows, t0)
    ensures Settling(Apply(w, rules, e), rules, rows, t0)
  {
    hide Wanted;
    var t := Apply(w, rules, e);
    forall id | id in t.issued && id in t.entries ensures StaleOrWanted(t, rules, rows, t0, id) {
      assert id in w.entries && t.entries[id] == w.entries[id];
    }
  }

  lemma {:induction false} DriftKeepsSettling(w: World, rules: Rules, rows: seq<Visit>, t0: int, es: seq<Event>)
    requires Inv(w) && Settling(w, rules, rows, t0)
    ensures Settling(Drift(w, rules, es), rules, rows, t0)
    decreases |es|
  {
    if es != [] {
      ApplyKeepsSettling(w, rules, rows, t0, es[0]);
      ApplyKeepsInv(w, rules, es[0]);
      DriftKeepsSettling(Apply(w, rules, es[0]), rules, rows, t0, es[1..]);
    }
  }

  lemma RegisterVisitSettles(w: World, rules: Rules, rows: seq<Visit>, t0: int, v: Visit, call: Call)
    requires Inv(w) && Settling(w, rules, rows, t0) && v.ShouldList() && CalmCall(call)
    requires Good(rules, v) ==> Wanted(rules, rows, v.Campaign(), BuildListing(v))
    requires v.Campaign() in w.regs ==> w.regs[v.Campaign()].id !in w.entries
    ensures Settling(RegisterVisit(w, rules, v, call), rules, rows, t0)
  {
    hide Wanted;
    var s := SentRegister(v, BuildListing(v));
    LogKeepsInv(w, s);
    DriftKeepsSettling(Log(w, s), rules, rows, t0, call.drift);
    DriftKeepsInv(Log(w, s), rules, call.drift);
    StaysGone(w, Log(w, s), rules, v.Campaign(), call.drift);
    var d := Drift(Log(w, s), rules, call.drift);
    var t := RegisterVisit(w, rules, v, call);
    forall id | id in t.issued && id in t.entries ensures StaleOrWanted(t, rules, rows, t0, id) {
      if id != d.nextId || !rules.Accepts(BuildListing(v)) {
        assert StaleOrWanted(d, rules, rows, t0, id);
      }
    }
  }

  /** A listing of this Master that is gone does not come back by itself. */
  lemma StaysGone(w: World, logged: World, rules: Rules, c: string, es: seq<Event>)
    requires Inv(logged) && w.regs == logged.regs && w.entries == logged.entries
    requires c in w.regs ==> w.regs[c].id !in w.entries
    ensures c in w.regs ==> w.regs[c].id !in Drift(logged, rules, es).entries
    decreases |es|
  {
    if es != [] {
      ApplyKeepsInv(logged, rules, es[0]);
      var next := Apply(logged, rules, es[0]);
      assert c in w.regs ==> w.regs[c].id < logged.nextId;
      StaysGone(next, next, rules, c, es[1..]);
    }
  }

  lemma HeartbeatSettles(w: World, rules: Rules, rows: seq<Visit>, t0: int, v: Visit)
    requires Inv(w) && Settling(w, rules, rows, t0) && v.ShouldList() && CalmCall(v.first) && v.Campaign() in w.regs
    requires Good(rules, v) ==> Wanted(rules, rows, v.Campaign(), BuildListing(v))
    ensures var (t, reply) := Heartbeat(w, rules, w.regs[v.Campaign()], BuildListing(v), v.first);
            && Settling(t, rules, rows, t0)
            && (reply.NotFound? ==> w.regs[v.Campaign()].id !in t.entries)
            && (Good(rules, v) ==> !reply.Failed?)
  {
    hide Wanted;
    DriftKeepsSettling(w, rules, rows, t0, v.first.drift);
    DriftKeepsInv(w, rules, v.first.drift);
    var d := Drift(w, rules, v.first.drift);
    var c, f := v.Campaign(), BuildListing(v);
    var (t, reply) := Heartbeat(w, rules, w.regs[c], f, v.first);
    forall id | id in t.issued && id in t.entries ensures StaleOrWanted(t, rules, rows, t0, id) {
      assert id in d.entries && StaleOrWanted(d, rules, rows, t0, id);
      if id == w.regs[c].id && reply.Ok? {
        AcceptedOnceValid(w, rules, v);
      }
    }
  }

  /** A campaign with an id has a name, so its listing is accepted whenever its fields
      are valid. */
  lemma AcceptedOnceValid(w: World, rules: Rules, v: Visit)
    requires Inv(w) && v.ShouldList() && v.Campaign() in w.regs
    ensures rules.FieldsValid(BuildListing(v)) ==> Good(rules, v)
  {
    assert w.issued[w.regs[v.Campaign()].id] != "";
  }

  lemma DropSettles(w: World, rules: Rules, rows: seq<Visit>, t0: int, c: string, call: Call)
    requires Inv(w) && Settling(w, rules, rows, t0) && c in w.regs && CalmCall(call)
    requires forall f :: !Wanted(rules, rows, c, f)
    ensures Settling(DropCampaign(w, rules, c, call), rules, rows, t0)
  {
    hide Wanted;
    var s := SentDeregister(c, w.regs[c].id);
    LogKeepsInv(w, s);
    DriftKeepsSettling(Log(w, s), rules, rows, t0, call.drift);
    DriftKeepsInv(Log(w, s), rules, call.drift);
    var d := Drift(Log(w, s), rules, call.drift);
    var t := DropCampaign(w, rules, c, call);
    forall id | id in t.issued && id in t.entries ensures StaleOrWanted(t, rules, rows, t0, id) {
      assert StaleOrWanted(d, rules, rows, t0, id);
    }
  }

  /** What the fixed rows say of the campaign a visit is for. */
  lemma RowSays(rules: Rules, rows: seq<Visit>, v: Visit, k: int)
    requires FixedRows(rows) && 0 <= k < |rows| && Reads(v, rows[k])
    ensures Good(rules, v) ==> Wanted(rules, rows, v.Campaign(), BuildListing(v))
    ensures !v.ShouldList() ==> forall f :: !Wanted(rules, rows, v.Campaign(), f)
  {
    assert rows[k].Campaign() == v.Campaign();
    assert Good(rules, v) <==> Good(rules, rows[k]);
  }

  lemma SyncSettles(w: World, rules: Rules, rows: seq<Visit>, t0: int, v: Visit, k: int)
    requires Inv(w) && Settling(w, rules, rows, t0) && CalmVisit(v)
    requires FixedRows(rows) && 0 <= k < |rows| && Reads(v, rows[k])
    ensures Settling(SyncCampaign(w, rules, v), rules, rows, t0)
  {
    hide Inv, Settling, Wanted, Heartbeat, RegisterVisit, DropCampaign;
    var c := v.Campaign();
    RowSays(rules, rows, v, k);
    if !v.ShouldList() {
      if c in w.regs {
        DropSettles(w, rules, rows, t0, c, v.first);
      }
    } else if c !in w.regs {
      RegisterVisitSettles(w, rules, rows, t0, v, v.first);
    } else {
      var s := SentHeartbeat(v, w.regs[c].id, BuildListing(v));
      var logged := Log(w, s);
      HeartbeatProper(w, v);
      SettlingLogged(w, rules, rows, t0, s);
      HeartbeatSettles(logged, rules, rows, t0, v);
      HeartbeatKeepsInv(logged, rules, c, BuildListing(v), v.first);
      var (t, reply) := Heartbeat(logged, rules, logged.regs[c], BuildListing(v), v.first);
      if reply.NotFound? {
        RegisterVisitSettles(t, rules, rows, t0, v, v.second);
      }
    }
  }

  lemma SettlingLogged(w: World, rules: Rules, rows: seq<Visit>, t0: int, s: Sent)
    requires Settling(w, rules, rows, t0)
    ensures Settling(Log(w, s), rules, rows, t0)
  {
    hide Wanted;
    forall id | id in w.issued && id in w.entries ensures StaleOrWanted(Log(w, s), rules, rows, t0, id) {
      assert StaleOrWanted(w, rules, rows, t0, id);
    }
  }

  lemma {:induction false} SyncAllSettles(w: World, rules: Rules, rows: seq<Visit>, t0: int, visits: seq<Visit>)
    requires Inv(w) && Settling(w, rules, rows, t0) && FixedRows(rows) && |visits| <= |rows|
    requires forall i :: 0 <= i < |visits| ==> Reads(visits[i], rows[i]) && CalmVisit(visits[i])
    ensures Settling(SyncAll(w, rules, visits), rules, rows, t0)
    decreases |visits|
  {
    hide Inv, Settling, FixedRows, Reads, CalmVisit, SyncCampaign;
    if visits != [] {
      var n := |visits| - 1;
      SyncAllSettles(w, rules, rows, t0, visits[..n]);
      SyncAllKeepsInv(w, rules, visits[..n]);
      SyncSettles(SyncAll(w, rules, visits[..n]), rules, rows, t0, visits[n], n);
    }
  }

  lemma {:induction false} DropAllSettles(w: World, rules: Rules, rows: seq<Visit>, t0: int, order: seq<string>, call: string -> Call)
    requires Inv(w) && Settling(w, rules, rows, t0)
    requires forall c :: CalmCall(call(c))
    requires forall c, f :: c in order ==> !Wanted(rules, rows, c, f)
    ensures Settling(DropAll(w, rules, order, call), rules, rows, t0)
    decreases |order|
  {
    hide Inv, Settling, Wanted, DropCampaign;
    if order != [] {
      var n := |order| - 1;
      DropAllSettles(w, rules, rows, t0, order[..n], call);
      DropAllKeepsInv(w, rules, order[..n], call);
      var before := DropAll(w, rules, order[..n], call);
      if order[n] in before.regs {
        assert order[n] in order;
        DropSettles(before, rules, rows, t0, order[n], call(order[n]));
      }
    }
  }

  lemma NotPresentNotWanted(rules: Rules, rows: seq<Visit>, visits: seq<Visit>, c: string)
    requires |visits| == |rows| && (forall i :: 0 <= i < |rows| ==> Reads(visits[i], rows[i]))
    requires c !in Present(visits)
    ensures forall f :: !Wanted(rules, rows, c, f)
  {
    forall i | 0 <= i < |rows| ensures rows[i].Campaign() != c {
      assert Reads(visits[i], rows[i]) && visits[i].Campaign() in Present(visits);
    }
  }

  lemma RoundSettles(w: World, rules: Rules, rows: seq<Visit>, t0: int, r: Round, t: World)
    requires Inv(w) && Settling(w, rules, rows, t0) && FixedRows(rows) && CalmRound(rows, r) && RoundStep(w, rules, r, t)
    ensures Settling(t, rules, rows, t0)
  {
    hide Inv, Settling, Wanted, FixedRows, Reads, CalmVisit;
    var s := SyncAll(w, rules, r.visits);
    SyncAllSettles(w, rules, rows, t0, r.visits);
    SyncAllKeepsInv(w, rules, r.visits);
    var order :| IsDropOrder(s, r.visits, order) && t == DropAll(s, rules, order, r.drop);
    forall c | c in order ensures forall f :: !Wanted(rules, rows, c, f) {
      NotPresentNotWanted(rules, rows, r.visits, c);
    }
    DropAllSettles(s, rules, rows, t0, order, r.drop);
  }
}
