/** The last fault-free round shows every campaign that should be shown, and with what
    registry_convergence.dfy says of the others the directory has converged. */
module RegistryConverged {
  import opened RegistryModel
  import opened RegistrySafety
  import opened RegistryConvergence

  /** v's campaign is tracked and listed with its current fields, touched since tr. */
  ghost predicate Shown(w: World, v: Visit, tr: int)
    requires v.read.Found?
  {
    var c := v.Campaign();
    && c in w.regs && w.regs[c].id in w.entries
    && w.entries[w.regs[c].id].fields == BuildListing(v) && w.entries[w.regs[c].id].lastHeartbeat >= tr
  }

  lemma {:induction false} TimePasses(w: World, rules: Rules, es: seq<Event>)
    ensures Drift(w, rules, es).now >= w.now
    decreases |es|
  {
    if es != [] {
      TimePasses(Apply(w, rules, es[0]), rules, es[1..]);
    }
  }

  /** A shown campaign stays shown while nothing restarts and no more than the time to
      live has passed. */
  lemma {:induction false} DriftKeepsShown(w: World, rules: Rules, es: seq<Event>, v: Visit, tr: int)
    requires Inv(w) && v.read.Found? && Shown(w, v, tr) && CalmEvents(es)
    requires Drift(w, rules, es).now <= tr + rules.ttl
    ensures Shown(Drift(w, rules, es), v, tr)
    decreases |es|
  {
    if es != [] {
      var next := Apply(w, rules, es[0]);
      TimePasses(next, rules, es[1..]);
      ApplyKeepsInv(w, rules, es[0]);
      DriftKeepsShown(next, rules, es[1..], v, tr);
    }
  }

  lemma RegisterVisitTime(w: World, rules: Rules, v: Visit, call: Call)
    requires v.read.Found?
    ensures RegisterVisit(w, rules, v, call).now >= w.now
  {
    TimePasses(Log(w, SentRegister(v, BuildListing(v))), rules, call.drift);
  }

  lemma SyncTime(w: World, rules: Rules, v: Visit)
    ensures SyncCampaign(w, rules, v).now >= w.now
  {
    hide Drift;
    var c := v.Campaign();
    if !v.read.ReadFailed? {
      if !v.ShouldList() {
        if c in w.regs {
          DropTime(w, rules, c, v.first);
        }
      } else if c !in w.regs {
        RegisterVisitTime(w, rules, v, v.first);
      } else {
        var logged := Log(w, SentHeartbeat(v, w.regs[c].id, BuildListing(v)));
        TimePasses(logged, rules, v.first.drift);
        RegisterVisitTime(Heartbeat(logged, rules, w.regs[c], BuildListing(v), v.first).0, rules, v, v.second);
      }
    }
  }

  lemma DropTime(w: World, rules: Rules, c: string, call: Call)
    requires c in w.regs
    ensures DropCampaign(w, rules, c, call).now >= w.now
  {
    TimePasses(Log(w, SentDeregister(c, w.regs[c].id)), rules, call.drift);
  }

  // ----- One visit

  /** Registering an acceptable campaign shows it. */
  lemma RegisterVisitShows(w: World, rules: Rules, v: Visit, call: Call)
    requires Inv(w) && Good(rules, v) && CalmCall(call)
    ensures Shown(RegisterVisit(w, rules, v, call), v, w.now)
  {
    TimePasses(Log(w, SentRegister(v, BuildListing(v))), rules, call.drift);
  }

  lemma HeartbeatShows(w: World, rules: Rules, v: Visit)
    requires Inv(w) && Good(rules, v) && CalmCall(v.first) && v.Campaign() in w.regs
    ensures var (t, reply) := Heartbeat(w, rules, w.regs[v.Campaign()], BuildListing(v), v.first);
            !reply.Failed? && t.now >= w.now && (reply.Ok? ==> Shown(t, v, w.now))
  {
    DriftKeepsInv(w, rules, v.first.drift);
    TimePasses(w, rules, v.first.drift);
  }

  lemma SyncShows(w: World, rules: Rules, v: Visit)
    requires Inv(w) && Good(rules, v) && CalmVisit(v)
    ensures Shown(SyncCampaign(w, rules, v), v, w.now)
  {
    hide Inv, Shown, Heartbeat, RegisterVisit, Rules.Accepts;
    var c := v.Campaign();
    if c !in w.regs {
      RegisterVisitShows(w, rules, v, v.first);
    } else {
      var logged := Log(w, SentHeartbeat(v, w.regs[c].id, BuildListing(v)));
      HeartbeatProper(w, v);
      HeartbeatShows(logged, rules, v);
      HeartbeatKeepsInv(logged, rules, c, BuildListing(v), v.first);
      var (t, reply) := Heartbeat(logged, rules, w.regs[c], BuildListing(v), v.first);
      if reply.NotFound? {
        RegisterVisitShows(t, rules, v, v.second);
        ShownEarlier(RegisterVisit(t, rules, v, v.second), v, t.now, w.now);
      }
    }
  }

  lemma ShownEarlier(w: World, v: Visit, t1: int, t2: int)
    requires v.read.Found? && Shown(w, v, t1) && t2 <= t1
    ensures Shown(w, v, t2)
  {
  }

  // ----- Other campaigns' visits

  lemma RegisterVisitKeepsShown(w: World, rules: Rules, u: Visit, call: Call, v: Visit, tr: int)
    requires Inv(w) && u.ShouldList() && CalmCall(call) && v.read.Found? && Shown(w, v, tr) && u.Campaign() != v.Campaign()
    requires RegisterVisit(w, rules, u, call).now <= tr + rules.ttl
    ensures Shown(RegisterVisit(w, rules, u, call), v, tr)
  {
    var s := SentRegister(u, BuildListing(u));
    LogKeepsInv(w, s);
    DriftKeepsShown(Log(w, s), rules, call.drift, v, tr);
    DriftKeepsInv(Log(w, s), rules, call.drift);
  }

  lemma HeartbeatKeepsShown(w: World, rules: Rules, u: Visit, v: Visit, tr: int)
    requires Inv(w) && u.ShouldList() && u.Campaign() in w.regs && CalmCall(u.first)
    requires v.read.Found? && Shown(w, v, tr) && u.Campaign() != v.Campaign()
    requires Heartbeat(w, rules, w.regs[u.Campaign()], BuildListing(u), u.first).0.now <= tr + rules.ttl
    ensures Shown(Heartbeat(w, rules, w.regs[u.Campaign()], BuildListing(u), u.first).0, v, tr)
  {
    DriftKeepsShown(w, rules, u.first.drift, v, tr);
    DriftKeepsInv(w, rules, u.first.drift);
  }

  lemma DropKeepsShown(w: World, rules: Rules, c: string, call: Call, v: Visit, tr: int)
    requires Inv(w) && c in w.regs && CalmCall(call) && v.read.Found? && Shown(w, v, tr) && c != v.Campaign()
    requires DropCampaign(w, rules, c, call).now <= tr + rules.ttl
    ensures Shown(DropCampaign(w, rules, c, call), v, tr)
  {
    var s := SentDeregister(c, w.regs[c].id);
    LogKeepsInv(w, s);
    DriftKeepsShown(Log(w, s), rules, call.drift, v, tr);
    DriftKeepsInv(Log(w, s), rules, call.drift);
  }

  lemma SyncKeepsShown(w: World, rules: Rules, u: Visit, v: Visit, tr: int)
    requires Inv(w) && CalmVisit(u) && v.read.Found? && Shown(w, v, tr) && u.Campaign() != v.Campaign()
    requires SyncCampaign(w, rules, u).now <= tr + rules.ttl
    ensures Shown(SyncCampaign(w, rules, u), v, tr)
  {
    hide Inv, Heartbeat, RegisterVisit, DropCampaign;
    var c := u.Campaign();
    if !u.read.ReadFailed? {
      if !u.ShouldList() {
        if c in w.regs {
          DropKeepsShown(w, rules, c, u.first, v, tr);
        }
      } else if c !in w.regs {
        RegisterVisitKeepsShown(w, rules, u, u.first, v, tr);
      } else {
        var logged := Log(w, SentHeartbeat(u, w.regs[c].id, BuildListing(u)));
        HeartbeatProper(w, u);
        HeartbeatKeepsInv(logged, rules, c, BuildListing(u), u.first);
        var (t, reply) := Heartbeat(logged, rules, w.regs[c], BuildListing(u), u.first);
        RegisterVisitTime(t, rules, u, u.second);
        HeartbeatKeepsShown(logged, rules, u, v, tr);
        if reply.NotFound? {
          RegisterVisitKeepsShown(t, rules, u, u.second, v, tr);
        }
      }
    }
  }

  // ----- A whole round

  ghost predicate AllShown(w: World, rules: Rules, rows: seq<Visit>, n: int, tr: int) {
    forall i :: 0 <= i < n && i < |rows| && Good(rules, rows[i]) ==> Shown(w, rows[i], tr)
  }

  lemma {:induction false} SyncAllShows(w: World, rules: Rules, rows: seq<Visit>, visits: seq<Visit>)
    requires Inv(w) && FixedRows(rows) && |visits| <= |rows|
    requires forall i :: 0 <= i < |visits| ==> Reads(visits[i], rows[i]) && CalmVisit(visits[i])
    requires SyncAll(w, rules, visits).now <= w.now + rules.ttl
    ensures AllShown(SyncAll(w, rules, visits), rules, rows, |visits|, w.now)
    ensures SyncAll(w, rules, visits).now >= w.now
    decreases |visits|
  {
    hide Inv, Shown, CalmVisit, SyncCampaign;
    if visits != [] {
      var n := |visits| - 1;
      var before := SyncAll(w, rules, visits[..n]);
      SyncTime(before, rules, visits[n]);
      SyncAllShows(w, rules, rows, visits[..n]);
      SyncAllKeepsInv(w, rules, visits[..n]);
      forall i | 0 <= i <= n && Good(rules, rows[i]) ensures Shown(SyncAll(w, rules, visits), rows[i], w.now) {
        if i < n {
          SyncKeepsShown(before, rules, visits[n], rows[i], w.now);
        } else {
          SameReadsSameListing(rules, visits[n], rows[n]);
          SyncShows(before, rules, visits[n]);
          ShownEarlier(SyncAll(w, rules, visits), visits[n], before.now, w.now);
          SameReadsShown(SyncAll(w, rules, visits), visits[n], rows[n], w.now);
        }
      }
    }
  }

  lemma SameReadsSameListing(rules: Rules, v: Visit, row: Visit)
    requires Reads(v, row)
    ensures Good(rules, v) <==> Good(rules, row)
  {
  }

  lemma SameReadsShown(w: World, v: Visit, row: Visit, tr: int)
    requires Reads(v, row) && v.read.Found? && Shown(w, v, tr)
    ensures Shown(w, row, tr)
  {
  }

  lemma {:induction false} DropAllKeepsShown(w: World, rules: Rules, order: seq<string>, call: string -> Call, v: Visit, tr: int)
    requires Inv(w) && v.read.Found? && Shown(w, v, tr) && v.Campaign() !in order
    requires forall c :: CalmCall(call(c))
    requires DropAll(w, rules, order, call).now <= tr + rules.ttl
    ensures Shown(DropAll(w, rules, order, call), v, tr)
    decreases |order|
  {
    hide Inv, Shown, DropCampaign;
    if order != [] {
      var n := |order| - 1;
      var before := DropAll(w, rules, order[..n], call);
      if order[n] in before.regs {
        DropTime(before, rules, order[n], call(order[n]));
      }
      DropAllKeepsShown(w, rules, order[..n], call, v, tr);
      DropAllKeepsInv(w, rules, order[..n], call);
      if order[n] in before.regs {
        assert order[n] in order;
        DropKeepsShown(before, rules, order[n], call(order[n]), v, tr);
      }
    }
  }

  lemma {:induction false} DropAllTime(w: World, rules: Rules, order: seq<string>, call: string -> Call)
    ensures DropAll(w, rules, order, call).now >= w.now
    decreases |order|
  {
    if order != [] {
      var n := |order| - 1;
      DropAllTime(w, rules, order[..n], call);
      var before := DropAll(w, rules, order[..n], call);
      if order[n] in before.regs {
        DropTime(before, rules, order[n], call(order[n]));
      }
    }
  }

  lemma RoundShows(w: World, rules: Rules, rows: seq<Visit>, r: Round, t: World)
    requires Inv(w) && FixedRows(rows) && CalmRound(rows, r) && RoundStep(w, rules, r, t)
    requires t.now <= w.now + rules.ttl
    ensures AllShown(t, rules, rows, |rows|, w.now)
  {
    hide Inv, Shown, SyncAll, DropAll, CalmVisit, FixedRows;
    var s := SyncAll(w, rules, r.visits);
    var order :| IsDropOrder(s, r.visits, order) && t == DropAll(s, rules, order, r.drop);
    DropAllTime(s, rules, order, r.drop);
    SyncAllShows(w, rules, rows, r.visits);
    SyncAllKeepsInv(w, rules, r.visits);
    forall i | 0 <= i < |rows| && Good(rules, rows[i]) ensures Shown(t, rows[i], w.now) {
      assert r.visits[i].Campaign() in Present(r.visits);
      DropAllKeepsShown(s, rules, order, r.drop, rows[i], w.now);
    }
  }

  // ----- Convergence

  /** A listing the public sees. */
  predicate Live(w: World, rules: Rules, id: nat) {
    id in w.entries && w.entries[id].lastHeartbeat >= w.now - rules.ttl
  }

  /** The live listings of this Master are exactly one for each campaign that should be
      shown: the one tracked, with the campaign's current fields. */
  ghost predicate Converged(w: World, rules: Rules, rows: seq<Visit>) {
    && (forall id :: id in w.issued && Live(w, rules, id) ==>
          w.issued[id] in w.regs && w.regs[w.issued[id]].id == id && Wanted(rules, rows, w.issued[id], w.entries[id].fields))
    && (forall i :: 0 <= i < |rows| && Good(rules, rows[i]) ==>
          rows[i].Campaign() in w.regs
          && var id := w.regs[rows[i].Campaign()].id;
             id in w.issued && Live(w, rules, id) && w.entries[id].fields == BuildListing(rows[i]))
  }

  /** From state k on rounds are free of faults and settings stay fixed. */
  ghost predicate CalmFrom(rows: seq<Visit>, steps: seq<Step>, k: nat) {
    forall j :: k <= j < |steps| ==> CalmStep(rows, steps[j])
  }

  lemma {:induction false} CalmRunSettles(rules: Rules, rows: seq<Visit>, worlds: seq<World>, steps: seq<Step>, k: nat, i: nat)
    requires IsHistory(rules, worlds, steps) && Fresh(worlds[0]) && FixedRows(rows) && CalmFrom(rows, steps, k)
    requires k <= i <= |steps|
    ensures Inv(worlds[i]) && Settling(worlds[i], rules, rows, worlds[k].now)
    decreases i
  {
    hide Inv, Settling, FixedRows, CalmRound, CalmEvents, Fresh;
    HistoryKeepsInv(rules, worlds, steps, i);
    if i == k {
      SettlingFromHere(worlds[k], rules, rows);
    } else {
      CalmRunSettles(rules, rows, worlds, steps, k, i - 1);
      assert Takes(worlds[i - 1], rules, steps[i - 1], worlds[i]) && CalmStep(rows, steps[i - 1]);
      match steps[i - 1]
      case Meanwhile(es) => DriftKeepsSettling(worlds[i - 1], rules, rows, worlds[k].now, es);
      case RunRound(r) => RoundSettles(worlds[i - 1], rules, rows, worlds[k].now, r, worlds[i]);
    }
  }

  lemma SettlingFromHere(w: World, rules: Rules, rows: seq<Visit>)
    requires Inv(w)
    ensures Settling(w, rules, rows, w.now)
  {
  }

  lemma {:induction false} SyncAllTime(w: World, rules: Rules, visits: seq<Visit>)
    ensures SyncAll(w, rules, visits).now >= w.now
    decreases |visits|
  {
    if visits != [] {
      var n := |visits| - 1;
      SyncAllTime(w, rules, visits[..n]);
      SyncTime(SyncAll(w, rules, visits[..n]), rules, visits[n]);
    }
  }

  lemma StepTime(w: World, rules: Rules, s: Step, t: World)
    requires Takes(w, rules, s, t)
    ensures t.now >= w.now
  {
    match s
    case Meanwhile(es) => TimePasses(w, rules, es);
    case RunRound(r) =>
      if r.Listing? {
        SyncAllTime(w, rules, r.visits);
        var order :| IsDropOrder(SyncAll(w, rules, r.visits), r.visits, order)
                     && t == DropAll(SyncAll(w, rules, r.visits), rules, order, r.drop);
        DropAllTime(SyncAll(w, rules, r.visits), rules, order, r.drop);
      }
    case MasterRestart(visits, order, drop) =>
      SyncAllTime(w, rules, visits);
      DropAllTime(SyncAll(w, rules, visits), rules, order, drop);
  }

  lemma {:induction false} HistoryTime(rules: Rules, worlds: seq<World>, steps: seq<Step>, i: nat, j: nat)
    requires IsHistory(rules, worlds, steps) && i <= j <= |steps|
    ensures worlds[i].now <= worlds[j].now
    decreases j
  {
    if i < j {
      HistoryTime(rules, worlds, steps, i, j - 1);
      assert Takes(worlds[j - 1], rules, steps[j - 1], worlds[j]);
      StepTime(worlds[j - 1], rules, steps[j - 1], worlds[j]);
    }
  }

  lemma AllShownEarlier(w: World, rules: Rules, rows: seq<Visit>, t1: int, t2: int)
    requires AllShown(w, rules, rows, |rows|, t1) && t2 <= t1
    ensures AllShown(w, rules, rows, |rows|, t2)
  {
    hide BuildListing, Rules.Accepts;
    forall i | 0 <= i < |rows| && Good(rules, rows[i]) ensures Shown(w, rows[i], t2) {
      assert Shown(w, rows[i], t1);
    }
  }

  lemma DriftKeepsAllShown(w: World, rules: Rules, rows: seq<Visit>, es: seq<Event>, tr: int)
    requires Inv(w) && CalmEvents(es) && Drift(w, rules, es).now <= tr + rules.ttl
    requires AllShown(w, rules, rows, |rows|, tr)
    ensures AllShown(Drift(w, rules, es), rules, rows, |rows|, tr)
  {
    hide Inv, Shown, CalmEvents;
    forall i | 0 <= i < |rows| && Good(rules, rows[i]) ensures Shown(Drift(w, rules, es), rows[i], tr) {
      DriftKeepsShown(w, rules, es, rows[i], tr);
    }
  }

  /** What a round shows stays shown for the time to live from its start. */
  lemma {:induction false} CalmRunShows(rules: Rules, rows: seq<Visit>, worlds: seq<World>, steps: seq<Step>, k: nat, m: nat, i: nat)
    requires IsHistory(rules, worlds, steps) && Fresh(worlds[0]) && FixedRows(rows) && CalmFrom(rows, steps, k)
    requires k <= m < i <= |steps| && steps[m].RunRound? && worlds[i].now <= worlds[m].now + rules.ttl
    ensures AllShown(worlds[i], rules, rows, |rows|, worlds[m].now)
    decreases i
  {
    hide Inv, FixedRows, CalmRound, CalmEvents, Fresh, AllShown, RoundStep;
    var w, s, t := worlds[i - 1], steps[i - 1], worlds[i];
    HistoryKeepsInv(rules, worlds, steps, i - 1);
    HistoryTime(rules, worlds, steps, m, i - 1);
    assert Takes(w, rules, s, t) && CalmStep(rows, s);
    match s
    case Meanwhile(es) =>
      HistoryTime(rules, worlds, steps, i - 1, i);
      CalmRunShows(rules, rows, worlds, steps, k, m, i - 1);
      DriftKeepsAllShown(w, rules, rows, es, worlds[m].now);
    case RunRound(r) =>
      RoundShows(w, rules, rows, r, t);
      AllShownEarlier(t, rules, rows, w.now, worlds[m].now);
  }

  lemma SettledAndShownIsConverged(w: World, rules: Rules, rows: seq<Visit>, t0: int, tr: int)
    requires Inv(w) && Settling(w, rules, rows, t0) && AllShown(w, rules, rows, |rows|, tr)
    requires w.now > t0 + rules.ttl && w.now <= tr + rules.ttl
    ensures Converged(w, rules, rows)
  {
    hide Wanted, BuildListing;
    forall id | id in w.issued && Live(w, rules, id)
      ensures w.issued[id] in w.regs && w.regs[w.issued[id]].id == id && Wanted(rules, rows, w.issued[id], w.entries[id].fields)
    {
      assert StaleOrWanted(w, rules, rows, t0, id);
    }
    forall i | 0 <= i < |rows| && Good(rules, rows[i]) ensures Shown(w, rows[i], tr) {}
  }

  /** Convergence.  However the run began, with calls lost, listings expired, the directory
      restarted and campaigns opted in and out: if from state k on rounds are free of
      faults and settings stay fixed, then in every state more than the time to live after
      that, and within the time to live of the start of some such round, the directory
      shows exactly the campaigns that are opted in and acceptable. */
  lemma FaultFreeRoundsConverge(rules: Rules, rows: seq<Visit>, worlds: seq<World>, steps: seq<Step>, k: nat, m: nat, i: nat)
    requires IsHistory(rules, worlds, steps) && Fresh(worlds[0]) && FixedRows(rows) && CalmFrom(rows, steps, k)
    requires k <= m < i <= |steps| && steps[m].RunRound?
    requires worlds[k].now + rules.ttl < worlds[i].now <= worlds[m].now + rules.ttl
    ensures Converged(worlds[i], rules, rows)
  {
    hide Inv, Settling, FixedRows, CalmFrom, Fresh, AllShown, Converged;
    CalmRunSettles(rules, rows, worlds, steps, k, i);
    CalmRunShows(rules, rows, worlds, steps, k, m, i);
    SettledAndShownIsConverged(worlds[i], rules, rows, worlds[k].now, worlds[m].now);
  }

  /** Opting out takes the listing down at once, if the call arrives: no expiry is needed. */
  lemma OptOutIsImmediate(w: World, rules: Rules, v: Visit)
    requires Inv(w) && !v.read.ReadFailed? && !v.ShouldList() && Arrives(v.first.delivery) && v.Campaign() in w.regs
    ensures var t := SyncCampaign(w, rules, v); v.Campaign() !in t.regs && w.regs[v.Campaign()].id !in t.entries
  {
    var c := v.Campaign();
    var logged := Log(w, SentDeregister(c, w.regs[c].id));
    LogKeepsInv(w, SentDeregister(c, w.regs[c].id));
    DriftKeepsInv(logged, rules, v.first.drift);
  }

  /** Why the time to live must pass: when the answer to a registration is lost, the next
      round registers the campaign again and the public sees it twice. */
  lemma LostReplyShowsTwice(w: World, rules: Rules, v: Visit, token: int, again: int, rows: seq<Visit>)
    requires Inv(w) && Good(rules, v) && v.Campaign() !in w.regs
    ensures var lost := SyncCampaign(w, rules, v.(first := Call([], ReplyLost, token)));
            var t := SyncCampaign(lost, rules, v.(first := Call([], Delivered, again)));
            && Live(t, rules, w.nextId) && Live(t, rules, w.nextId + 1)
            && t.entries[w.nextId].fields == t.entries[w.nextId + 1].fields == BuildListing(v)
            && !Converged(t, rules, rows)
  {
    hide Converged, SyncCampaign, Good, Rules.Accepts, BuildListing;
    var one, two := Call([], ReplyLost, token), Call([], Delivered, again);
    RegistersAtOnce(w, rules, v, one);
    var lost := SyncCampaign(w, rules, v.(first := one));
    RegistersAtOnce(lost, rules, v, two);
    UntrackedIsNotConverged(SyncCampaign(lost, rules, v.(first := two)), rules, rows, w.nextId);
  }

  /** A first registration that arrives before anything else happens. */
  lemma RegistersAtOnce(w: World, rules: Rules, v: Visit, call: Call)
    requires Good(rules, v) && v.Campaign() !in w.regs && Arrives(call.delivery) && call.drift == []
    ensures var t, c := SyncCampaign(w, rules, v.(first := call)), v.Campaign();
            && t.entries == w.entries[w.nextId := Entry(call.token, BuildListing(v), w.now)]
            && t.issued == w.issued[w.nextId := c] && t.nextId == w.nextId + 1 && t.now == w.now
            && t.regs == if call.delivery.Delivered? then w.regs[c := Registration(w.nextId, call.token)] else w.regs
  {
    hide Rules.FieldsValid, CountPlayers, Heartbeat, DropCampaign;
    var u := v.(first := call);
    assert BuildListing(u) == BuildListing(v);
    assert SyncCampaign(w, rules, u) == RegisterVisit(w, rules, u, call);
  }

  lemma UntrackedIsNotConverged(w: World, rules: Rules, rows: seq<Visit>, id: nat)
    requires id in w.issued && Live(w, rules, id)
    requires w.issued[id] in w.regs && w.regs[w.issued[id]].id != id
    ensures !Converged(w, rules, rows)
  {
  }
}
