/** Exactly when a turn, or a round, leaves the directory right: a listing of this Master
    that it does not track is out of its reach until it expires. */
module RegistryExact {
  import opened RegistryListing
  import opened RegistryModel
  import opened RegistrySafety
  import opened RegistryConvergence
  import opened RegistryConverged

  /** The Master holds the id's token. */
  predicate Tracks(w: World, id: nat) {
    id in w.issued && w.issued[id] in w.regs && w.regs[w.issued[id]].id == id
  }

  /** A listing of this Master heard from since cut. */
  predicate Recent(w: World, id: nat, cut: int) {
    id in w.issued && id in w.entries && w.entries[id].lastHeartbeat >= cut
  }

  // ----- What is left alone lasts

  /** A listing left alone from w to t: it stays as it is, or it expires. */
  predicate Lasts(w: World, t: World, rules: Rules, id: nat) {
    && (id in t.entries ==> id in w.entries && t.entries[id] == w.entries[id])
    && (id in w.entries && w.entries[id].lastHeartbeat >= t.now - rules.ttl ==> id in t.entries)
  }

  lemma LastsTrans(w: World, u: World, t: World, rules: Rules, id: nat)
    requires Lasts(w, u, rules, id) && Lasts(u, t, rules, id) && u.now <= t.now
    ensures Lasts(w, t, rules, id)
  {
  }

  lemma GoneLasts(w: World, t: World, rules: Rules, id: nat)
    requires Lasts(w, t, rules, id) && id !in w.entries
    ensures id !in t.entries
  {
  }

  lemma {:induction false} DriftLasts(w: World, rules: Rules, es: seq<Event>, id: nat)
    requires Inv(w) && id in w.issued && CalmEvents(es)
    ensures Lasts(w, Drift(w, rules, es), rules, id)
    decreases |es|
  {
    if es != [] {
      hide Inv;
      var next := Apply(w, rules, es[0]);
      ApplyKeepsInv(w, rules, es[0]);
      ApplyLasts(w, rules, es[0], id);
      DriftLasts(next, rules, es[1..], id);
      TimePasses(next, rules, es[1..]);
      LastsTrans(w, next, Drift(w, rules, es), rules, id);
    }
  }

  lemma ApplyLasts(w: World, rules: Rules, e: Event, id: nat)
    requires Inv(w) && id in w.issued && !e.Restart?
    ensures Lasts(w, Apply(w, rules, e), rules, id)
  {
  }

  // ----- One call

  /** A calm registration: nothing when the directory refuses it, and otherwise a new id,
      tracked, with the current fields; listings of this Master there were are left alone. */
  lemma RegisterEffect(w: World, rules: Rules, v: Visit, call: Call) returns (n: nat)
    requires Inv(w) && v.ShouldList() && CalmCall(call)
    ensures var t := RegisterVisit(w, rules, v, call);
            && (forall id :: id in w.issued ==> Lasts(w, t, rules, id))
            && if rules.Accepts(BuildListing(v))
               then n !in w.issued && t.issued == w.issued[n := v.Campaign()]
                    && t.regs == w.regs[v.Campaign() := Registration(n, call.token)]
                    && n in t.entries && t.entries[n].fields == BuildListing(v)
               else t.issued == w.issued && t.regs == w.regs
  {
    hide BuildListing, Rules.Accepts, CountPlayers;
    var logged := Log(w, SentRegister(v, BuildListing(v)));
    LogKeepsInv(w, SentRegister(v, BuildListing(v)));
    DriftKeepsInv(logged, rules, call.drift);
    var d := Drift(logged, rules, call.drift);
    forall id | id in w.issued ensures Lasts(w, d, rules, id) {
      DriftLasts(logged, rules, call.drift, id);
    }
    n := d.nextId;
    ListingNamesCampaign(v);
  }

  lemma ListingNamesCampaign(v: Visit)
    requires v.read.Found?
    ensures BuildListing(v).campaignID == v.Campaign()
  {
  }

  lemma HeartbeatEffect(w: World, rules: Rules, v: Visit)
    requires Inv(w) && v.ShouldList() && v.Campaign() in w.regs && CalmCall(v.first)
    ensures var reg := w.regs[v.Campaign()];
            var (t, reply) := Heartbeat(w, rules, reg, BuildListing(v), v.first);
            && t.issued == w.issued && t.regs == w.regs && t.now >= w.now
            && (forall id :: id in w.issued && (id != reg.id || reply.Failed?) ==> Lasts(w, t, rules, id))
            && (reply.Ok? ==> reg.id in t.entries && t.entries[reg.id].fields == BuildListing(v))
            && (reply.NotFound? ==> reg.id !in t.entries)
            && (reply.Failed? <==> !Good(rules, v))
  {
    hide BuildListing;
    DriftKeepsInv(w, rules, v.first.drift);
    TimePasses(w, rules, v.first.drift);
    AcceptedOnceValid(w, rules, v);
    forall id | id in w.issued ensures Lasts(w, Drift(w, rules, v.first.drift), rules, id) {
      DriftLasts(w, rules, v.first.drift, id);
    }
  }

  lemma DropEffect(w: World, rules: Rules, c: string, call: Call)
    requires Inv(w) && c in w.regs && CalmCall(call)
    ensures var t := DropCampaign(w, rules, c, call);
            && t.issued == w.issued && t.regs == w.regs - {c} && w.regs[c].id !in t.entries
            && forall id :: id in w.issued && id != w.regs[c].id ==> Lasts(w, t, rules, id)
  {
    var logged := Log(w, SentDeregister(c, w.regs[c].id));
    LogKeepsInv(w, SentDeregister(c, w.regs[c].id));
    DriftKeepsInv(logged, rules, call.drift);
    forall id | id in w.issued ensures Lasts(w, Drift(logged, rules, call.drift), rules, id) {
      DriftLasts(logged, rules, call.drift, id);
    }
  }

  // ----- One turn

  /** id is the one tracked for v's campaign. */
  predicate OfVisit(w: World, v: Visit, id: nat) { v.Campaign() in w.regs && w.regs[v.Campaign()].id == id }

  /** What a calm turn does to one id of this Master, tracked for its campaign or not. */
  ghost predicate TurnDoes(w: World, t: World, rules: Rules, v: Visit, id: nat) {
    id in w.issued ==>
      && id in t.issued && t.issued[id] == w.issued[id]
      && if !OfVisit(w, v, id) then Lasts(w, t, rules, id) && (Tracks(t, id) <==> Tracks(w, id))
         else if !v.ShouldList() then id !in t.entries && v.Campaign() !in t.regs
         else if Good(rules, v) then id in t.entries ==> Tracks(t, id) && t.entries[id].fields == BuildListing(v)
         else Lasts(w, t, rules, id) && Tracks(t, id)
  }

  /** The ids a calm turn draws: of its campaign, tracked, and with the current fields. */
  ghost predicate TurnDraws(w: World, t: World, rules: Rules, v: Visit, id: nat) {
    id in t.issued && id !in w.issued ==>
      && Good(rules, v) && t.issued[id] == v.Campaign() && Tracks(t, id)
      && (id in t.entries ==> t.entries[id].fields == BuildListing(v))
  }

  ghost predicate TurnEffect(w: World, t: World, rules: Rules, v: Visit) {
    && (forall id :: TurnDoes(w, t, rules, v, id))
    && (forall id :: TurnDraws(w, t, rules, v, id))
  }

  lemma RegisterTurn(w: World, rules: Rules, v: Visit)
    requires Inv(w) && v.ShouldList() && CalmVisit(v) && v.Campaign() !in w.regs
    ensures TurnEffect(w, RegisterVisit(w, rules, v, v.first), rules, v)
  {
    hide Inv, BuildListing, Rules.Accepts, RegisterVisit, Lasts;
    var n := RegisterEffect(w, rules, v, v.first);
  }

  lemma DropTurn(w: World, rules: Rules, v: Visit)
    requires Inv(w) && !v.ShouldList() && CalmVisit(v) && v.Campaign() in w.regs
    ensures TurnEffect(w, DropCampaign(w, rules, v.Campaign(), v.first), rules, v)
  {
    hide BuildListing, DropCampaign, Lasts;
    DropEffect(w, rules, v.Campaign(), v.first);
  }

  lemma HeartbeatTurn(w: World, rules: Rules, v: Visit)
    requires Inv(w) && v.ShouldList() && CalmVisit(v) && v.Campaign() in w.regs
    ensures var (after, reply) := Heartbeat(w, rules, w.regs[v.Campaign()], BuildListing(v), v.first);
            TurnEffect(w, if reply.NotFound? then RegisterVisit(after, rules, v, v.second) else after, rules, v)
  {
    hide Heartbeat, BuildListing, Rules.Accepts, RegisterVisit, Lasts, LogProper, Labelled, NoneFromFuture;
    var c := v.Campaign();
    HeartbeatEffect(w, rules, v);
    var (after, reply) := Heartbeat(w, rules, w.regs[c], BuildListing(v), v.first);
    if reply.NotFound? {
      HeartbeatKept(w, rules, v);
      var n := RegisterEffect(after, rules, v, v.second);
      RegisterVisitTime(after, rules, v, v.second);
      var t := RegisterVisit(after, rules, v, v.second);
      forall id | id in w.issued && id != w.regs[c].id ensures Lasts(w, t, rules, id) {
        LastsTrans(w, after, t, rules, id);
      }
      GoneLasts(after, t, rules, w.regs[c].id);
    }
  }

  lemma HeartbeatKept(w: World, rules: Rules, v: Visit)
    requires Inv(w) && v.ShouldList() && v.Campaign() in w.regs
    ensures Inv(Heartbeat(w, rules, w.regs[v.Campaign()], BuildListing(v), v.first).0)
  {
    ListingNamesCampaign(v);
    HeartbeatKeepsInv(w, rules, v.Campaign(), BuildListing(v), v.first);
  }

  lemma LoggedTurn(w: World, s: Sent, t: World, rules: Rules, v: Visit)
    requires TurnEffect(Log(w, s), t, rules, v)
    ensures TurnEffect(w, t, rules, v)
  {
    forall id ensures TurnDoes(w, t, rules, v, id) && TurnDraws(w, t, rules, v, id) {
      assert TurnDoes(Log(w, s), t, rules, v, id) && TurnDraws(Log(w, s), t, rules, v, id);
    }
  }

  lemma TurnHasEffect(w: World, rules: Rules, v: Visit)
    requires Inv(w) && CalmVisit(v) && !v.read.ReadFailed?
    ensures TurnEffect(w, SyncCampaign(w, rules, v), rules, v)
  {
    hide Inv, RegisterVisit, DropCampaign, Heartbeat, TurnEffect, CalmVisit;
    var c := v.Campaign();
    if !v.ShouldList() {
      if c in w.regs {
        DropTurn(w, rules, v);
      } else {
        NoTurn(w, rules, v);
      }
    } else if c !in w.regs {
      RegisterTurn(w, rules, v);
    } else {
      var s := SentHeartbeat(v, w.regs[c].id, BuildListing(v));
      HeartbeatProper(w, v);
      HeartbeatTurn(Log(w, s), rules, v);
      LoggedTurn(w, s, SyncCampaign(w, rules, v), rules, v);
    }
  }

  lemma NoTurn(w: World, rules: Rules, v: Visit)
    requires !v.ShouldList() && v.Campaign() !in w.regs
    ensures TurnEffect(w, w, rules, v)
  {
  }

  /** No recent listing of campaign c is out of the Master's reach. */
  ghost predicate NoStray(w: World, c: string, cut: int) {
    forall id :: Recent(w, id, cut) && w.issued[id] == c ==> Tracks(w, id)
  }

  /** The public sees c at most once, as the listing tracked for it. */
  ghost predicate ShownOnce(w: World, rules: Rules, c: string) {
    c in w.regs && forall id :: id in w.issued && w.issued[id] == c && Live(w, rules, id) ==> w.regs[c].id == id
  }

  ghost predicate NotShown(w: World, rules: Rules, c: string) {
    c !in w.regs && forall id :: id in w.issued && w.issued[id] == c ==> !Live(w, rules, id)
  }

  /** After a fault-free turn for an opted-in campaign the public sees it once, if and only if
      no listing of it was out of reach that has not expired by then. */
  lemma ShownOnceExactly(w: World, rules: Rules, v: Visit)
    requires Inv(w) && Good(rules, v) && CalmVisit(v)
    ensures var t := SyncCampaign(w, rules, v);
            ShownOnce(t, rules, v.Campaign()) <==> NoStray(w, v.Campaign(), t.now - rules.ttl)
  {
    hide Inv, SyncCampaign, BuildListing, Rules.Accepts;
    var c, t := v.Campaign(), SyncCampaign(w, rules, v);
    SyncShows(w, rules, v);
    TurnHasEffect(w, rules, v);
    forall id | id in t.issued && t.issued[id] == c && Live(t, rules, id)
      ensures t.regs[c].id == id || (Recent(w, id, t.now - rules.ttl) && w.issued[id] == c && !Tracks(w, id))
    {
      assert TurnDoes(w, t, rules, v, id) && TurnDraws(w, t, rules, v, id);
    }
    forall id | Recent(w, id, t.now - rules.ttl) && w.issued[id] == c && !Tracks(w, id)
      ensures id in t.issued && t.issued[id] == c && Live(t, rules, id) && t.regs[c].id != id
    {
      assert TurnDoes(w, t, rules, v, id);
    }
  }

  /** And after one for a campaign opted out, not at all, on the same condition. */
  lemma NotShownExactly(w: World, rules: Rules, v: Visit)
    requires Inv(w) && CalmVisit(v) && !v.read.ReadFailed? && !v.ShouldList()
    ensures var t := SyncCampaign(w, rules, v);
            NotShown(t, rules, v.Campaign()) <==> NoStray(w, v.Campaign(), t.now - rules.ttl)
  {
    hide BuildListing, Rules.Accepts;
    var c, t := v.Campaign(), SyncCampaign(w, rules, v);
    TurnHasEffect(w, rules, v);
    SyncKeepsInv(w, rules, v);
    hide SyncCampaign, Inv;
    forall id | id in t.issued && t.issued[id] == c && Live(t, rules, id)
      ensures Recent(w, id, t.now - rules.ttl) && w.issued[id] == c && !Tracks(w, id)
    {
      assert TurnDoes(w, t, rules, v, id) && TurnDraws(w, t, rules, v, id);
    }
    forall id | Recent(w, id, t.now - rules.ttl) && w.issued[id] == c && !Tracks(w, id)
      ensures id in t.issued && t.issued[id] == c && Live(t, rules, id)
    {
      assert TurnDoes(w, t, rules, v, id);
    }
  }

  /** So when the answer to a registration is lost, opting out does not take the listing
      down: the turn does nothing, and the public sees the campaign until it expires. */
  lemma OptingOutLeavesTheStray(w: World, rules: Rules, v: Visit, token: int, out: Visit, es: seq<Event>)
    requires Inv(w) && Good(rules, v) && v.Campaign() !in w.regs
    requires out.Campaign() == v.Campaign() && !out.ShouldList() && CalmEvents(es)
    ensures var lost := SyncCampaign(w, rules, v.(first := Call([], ReplyLost, token)));
            var later := Drift(lost, rules, es);
            && SyncCampaign(lost, rules, out) == lost && lost.issued[w.nextId] == v.Campaign()
            && (later.now <= w.now + rules.ttl ==> Live(later, rules, w.nextId))
  {
    hide Good, Inv, BuildListing, Rules.Accepts, Visit.ShouldList, RegisterVisit, DropCampaign;
    var u := v.(first := Call([], ReplyLost, token));
    RegistersAtOnce(w, rules, v, Call([], ReplyLost, token));
    SyncKeepsInv(w, rules, u);
    DriftLasts(SyncCampaign(w, rules, u), rules, es, w.nextId);
  }

  // ----- A whole round

  predicate InRows(rows: seq<Visit>, n: nat, c: string)
    requires n <= |rows|
  {
    exists i :: 0 <= i < n && rows[i].Campaign() == c
  }

  /** c is opted in and the directory turns its fields away. */
  ghost predicate Unacceptable(rules: Rules, rows: seq<Visit>, c: string) {
    exists i :: 0 <= i < |rows| && rows[i].Campaign() == c && rows[i].ShouldList() && !rules.Accepts(BuildListing(rows[i]))
  }

  /** What is asked of a recent listing of c when the first n rows have had their turn. */
  ghost predicate Fits(rules: Rules, rows: seq<Visit>, n: nat, c: string, f: Fields)
    requires n <= |rows|
  {
    if InRows(rows, n, c) then Wanted(rules, rows, c, f) else !Unacceptable(rules, rows, c)
  }

  ghost predicate FitOne(w: World, rules: Rules, rows: seq<Visit>, n: nat, cut: int, id: nat)
    requires n <= |rows|
  {
    Recent(w, id, cut) ==> Tracks(w, id) && Fits(rules, rows, n, w.issued[id], w.entries[id].fields)
  }

  ghost predicate AllFit(w: World, rules: Rules, rows: seq<Visit>, n: nat, cut: int)
    requires n <= |rows|
  {
    forall id :: FitOne(w, rules, rows, n, cut, id)
  }

  /** What the rows say of the campaign whose turn it is. */
  lemma RowFits(rules: Rules, rows: seq<Visit>, n: nat, v: Visit, c: string, f: Fields)
    requires FixedRows(rows) && n < |rows| && Reads(v, rows[n])
    ensures c != v.Campaign() ==> (Fits(rules, rows, n, c, f) <==> Fits(rules, rows, n + 1, c, f))
    ensures c == v.Campaign() ==>
              && (Fits(rules, rows, n, c, f) <==> !v.ShouldList() || Good(rules, v))
              && (Fits(rules, rows, n + 1, c, f) <==> Good(rules, v) && f == BuildListing(v))
  {
    hide BuildListing, Rules.Accepts;
    SameReadsSameFields(v, rows[n]);
    assert rows[n].Campaign() == v.Campaign();
    if c == v.Campaign() {
      assert InRows(rows, n + 1, c) && !InRows(rows, n, c);
      assert forall i :: 0 <= i < |rows| && rows[i].Campaign() == c ==> i == n;
    }
  }

  lemma SameReadsSameFields(v: Visit, row: Visit)
    requires Reads(v, row)
    ensures v.read.Found? ==> BuildListing(v) == BuildListing(row)
  {
  }

  lemma TurnFitsOne(w: World, t: World, rules: Rules, rows: seq<Visit>, n: nat, v: Visit, cut: int, id: nat)
    requires Inv(w) && FixedRows(rows) && n < |rows| && Reads(v, rows[n]) && t.now - rules.ttl <= cut
    requires TurnDoes(w, t, rules, v, id) && TurnDraws(w, t, rules, v, id) && w.issued.Keys <= t.issued.Keys
    ensures FitOne(w, rules, rows, n, cut, id) <==> FitOne(t, rules, rows, n + 1, cut, id)
  {
    hide Fits, BuildListing, Good, Visit.ShouldList, FixedRows, Reads, LogProper, Labelled, IdsDrawn, NoneFromFuture;
    if Recent(w, id, cut) {
      RowFits(rules, rows, n, v, w.issued[id], w.entries[id].fields);
      GoodShouldList(rules, v);
    }
    if Recent(t, id, cut) {
      RowFits(rules, rows, n, v, t.issued[id], t.entries[id].fields);
    }
  }

  lemma GoodShouldList(rules: Rules, v: Visit)
    ensures Good(rules, v) ==> v.ShouldList()
  {
  }

  lemma TurnFits(w: World, rules: Rules, rows: seq<Visit>, n: nat, v: Visit, cut: int)
    requires Inv(w) && FixedRows(rows) && n < |rows| && Reads(v, rows[n]) && CalmVisit(v)
    requires SyncCampaign(w, rules, v).now - rules.ttl <= cut
    ensures AllFit(w, rules, rows, n, cut) <==> AllFit(SyncCampaign(w, rules, v), rules, rows, n + 1, cut)
  {
    hide Inv, FitOne, SyncCampaign, CalmVisit, TurnDraws;
    var t := SyncCampaign(w, rules, v);
    assert !v.read.ReadFailed?;
    TurnHasEffect(w, rules, v);
    var m: nat := n + 1;
    forall id ensures FitOne(w, rules, rows, n, cut, id) <==> FitOne(t, rules, rows, m, cut, id) {
      assert TurnDoes(w, t, rules, v, id) && TurnDraws(w, t, rules, v, id);
      assert forall i :: i in w.issued ==> TurnDoes(w, t, rules, v, i);
      TurnFitsOne(w, t, rules, rows, n, v, cut, id);
    }
  }

  lemma {:induction false} SyncAllFits(w: World, rules: Rules, rows: seq<Visit>, visits: seq<Visit>, cut: int)
    requires Inv(w) && FixedRows(rows) && |visits| <= |rows|
    requires forall i :: 0 <= i < |visits| ==> Reads(visits[i], rows[i]) && CalmVisit(visits[i])
    requires SyncAll(w, rules, visits).now - rules.ttl <= cut
    ensures AllFit(w, rules, rows, 0, cut) <==> AllFit(SyncAll(w, rules, visits), rules, rows, |visits|, cut)
    decreases |visits|
  {
    hide Inv, AllFit, FixedRows, Reads, CalmVisit, SyncCampaign;
    if visits != [] {
      var n := |visits| - 1;
      var before := SyncAll(w, rules, visits[..n]);
      SyncTime(before, rules, visits[n]);
      SyncAllFits(w, rules, rows, visits[..n], cut);
      SyncAllKeepsInv(w, rules, visits[..n]);
      TurnFits(before, rules, rows, n, visits[n], cut);
    }
  }

  /** Dropping a campaign that has no row leaves nothing of it to ask about. */
  lemma DropFits(w: World, rules: Rules, rows: seq<Visit>, c: string, call: Call, cut: int)
    requires Inv(w) && c in w.regs && CalmCall(call) && !InRows(rows, |rows|, c)
    requires DropCampaign(w, rules, c, call).now - rules.ttl <= cut
    ensures AllFit(w, rules, rows, |rows|, cut) <==> AllFit(DropCampaign(w, rules, c, call), rules, rows, |rows|, cut)
  {
    var t := DropCampaign(w, rules, c, call);
    DropEffect(w, rules, c, call);
    hide DropCampaign, Wanted, LogProper, Labelled, IdsDrawn, NoneFromFuture;
    forall id ensures FitOne(w, rules, rows, |rows|, cut, id) <==> FitOne(t, rules, rows, |rows|, cut, id) {
      assert id in w.issued && id != w.regs[c].id ==> Lasts(w, t, rules, id);
    }
  }

  lemma {:induction false} DropAllFits(w: World, rules: Rules, rows: seq<Visit>, order: seq<string>, call: string -> Call, cut: int)
    requires Inv(w) && (forall c :: CalmCall(call(c))) && (forall c :: c in order ==> !InRows(rows, |rows|, c))
    requires DropAll(w, rules, order, call).now - rules.ttl <= cut
    ensures AllFit(w, rules, rows, |rows|, cut) <==> AllFit(DropAll(w, rules, order, call), rules, rows, |rows|, cut)
    decreases |order|
  {
    hide Inv, AllFit, DropCampaign, InRows;
    if order != [] {
      var n := |order| - 1;
      var before := DropAll(w, rules, order[..n], call);
      if order[n] in before.regs {
        DropTime(before, rules, order[n], call(order[n]));
      }
      DropAllFits(w, rules, rows, order[..n], call, cut);
      DropAllKeepsInv(w, rules, order[..n], call);
      if order[n] in before.regs {
        assert order[n] in order;
        DropFits(before, rules, rows, order[n], call(order[n]), cut);
      }
    }
  }

  /** Every listing of this Master that has not expired by cut is one it tracks, for a
      campaign whose fields, if opted in, the directory accepts. */
  ghost predicate NothingAmiss(w: World, rules: Rules, rows: seq<Visit>, cut: int) {
    forall id :: Recent(w, id, cut) ==> Tracks(w, id) && !Unacceptable(rules, rows, w.issued[id])
  }

  /** Once the rows have had their turn and the rest is dropped, fitting is converging. */
  lemma FitIsConverged(w: World, rules: Rules, rows: seq<Visit>, tr: int)
    requires Inv(w) && AllShown(w, rules, rows, |rows|, tr) && w.now <= tr + rules.ttl
    requires forall c :: c in w.regs ==> InRows(rows, |rows|, c)
    ensures Converged(w, rules, rows) <==> AllFit(w, rules, rows, |rows|, w.now - rules.ttl)
  {
    hide Wanted, BuildListing, LogProper, Labelled, IdsDrawn, NoneFromFuture, Unacceptable, Rules.Accepts;
    forall id ensures FitOne(w, rules, rows, |rows|, w.now - rules.ttl, id) <==>
                        (id in w.issued && Live(w, rules, id) ==>
                           Tracks(w, id) && Wanted(rules, rows, w.issued[id], w.entries[id].fields)) {}
    forall i | 0 <= i < |rows| && Good(rules, rows[i]) ensures Shown(w, rows[i], tr) {}
  }

  lemma PresentIsInRows(rows: seq<Visit>, visits: seq<Visit>, c: string)
    requires |visits| == |rows| && forall i :: 0 <= i < |rows| ==> Reads(visits[i], rows[i])
    ensures c in Present(visits) <==> InRows(rows, |rows|, c)
  {
    forall i | 0 <= i < |rows| ensures visits[i].Campaign() == rows[i].Campaign() {
      assert Reads(visits[i], rows[i]);
    }
  }

  /** Exactly when one fault-free round is enough: it leaves the directory right if and only
      if every listing this Master left there, that has not expired by its end, is one it
      tracks, and none is of a campaign that is opted in and unacceptable. */
  lemma RoundConvergesExactly(w: World, rules: Rules, rows: seq<Visit>, r: Round, t: World)
    requires Inv(w) && FixedRows(rows) && CalmRound(rows, r) && RoundStep(w, rules, r, t)
    requires t.now <= w.now + rules.ttl
    ensures Converged(t, rules, rows) <==> NothingAmiss(w, rules, rows, t.now - rules.ttl)
  {
    hide Inv, SyncAll, DropAll, CalmVisit, FixedRows, AllShown, Reads, InRows, Converged, Unacceptable, Recent, Tracks;
    var cut := t.now - rules.ttl;
    var s := SyncAll(w, rules, r.visits);
    var order :| IsDropOrder(s, r.visits, order) && t == DropAll(s, rules, order, r.drop);
    RoundShows(w, rules, rows, r, t);
    SyncAllKeepsInv(w, rules, r.visits);
    DropAllKeepsInv(s, rules, order, r.drop);
    DropAllTime(s, rules, order, r.drop);
    forall c ensures c in Present(r.visits) <==> InRows(rows, |rows|, c) {
      PresentIsInRows(rows, r.visits, c);
    }
    SyncAllFits(w, rules, rows, r.visits, cut);
    DropAllFits(s, rules, rows, order, r.drop, cut);
    FitIsConverged(t, rules, rows, w.now);
    StartFits(w, rules, rows, cut);
  }

  lemma StartFits(w: World, rules: Rules, rows: seq<Visit>, cut: int)
    ensures AllFit(w, rules, rows, 0, cut) <==> NothingAmiss(w, rules, rows, cut)
  {
    hide Unacceptable, Tracks;
    forall id ensures FitOne(w, rules, rows, 0, cut, id) <==>
                        (Recent(w, id, cut) ==> Tracks(w, id) && !Unacceptable(rules, rows, w.issued[id])) {}
  }

  /** What the public sees of this Master once the directory has converged: campaigns whose
      hosts opted them in, addressed and unarchived, each with its true fields. */
  lemma ThePublicSeesTheTruth(w: World, rules: Rules, rows: seq<Visit>, id: nat) returns (i: nat)
    requires Converged(w, rules, rows) && id in w.issued && Live(w, rules, id)
    ensures i < |rows| && rows[i].summary.campaignID == w.issued[id] && TrueListing(w.entries[id].fields, rows[i])
    ensures rows[i].read.Found? && rows[i].read.settings.registryListed && rows[i].read.settings.joinAddress != "" && !rows[i].summary.archived
  {
    hide BuildListing, TrueListing, Rules.Accepts;
    i :| i < |rows| && rows[i].Campaign() == w.issued[id] && Good(rules, rows[i]) && w.entries[id].fields == BuildListing(rows[i]);
    ListingIsTrue(rows[i]);
  }
}
