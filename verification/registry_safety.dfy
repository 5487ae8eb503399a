/** Safety of the heartbeat loop over every run: it never leaks a campaign its host did
    not opt in, and never crosses two campaigns' listings. */
module RegistrySafety {
  import opened RegistryListing
  import opened RegistryModel

  /** A call carries a campaign that was opted in, had an address and was unarchived when
      its round read it, with the fields read then; and an id only ever goes out for the
      campaign it was issued for. */
  ghost predicate Proper(issued: map<nat, string>, s: Sent) {
    match s
    case SentRegister(v, f) => v.ShouldList() && f == BuildListing(v)
    case SentHeartbeat(v, id, f) => v.ShouldList() && f == BuildListing(v) && id in issued && issued[id] == v.Campaign()
    case SentDeregister(c, id) => id in issued && issued[id] == c
  }

  /** Ids in use are below the counter. */
  ghost predicate IdsDrawn(w: World) {
    && (forall id :: id in w.entries ==> id < w.nextId)
    && (forall id :: id in w.issued ==> id < w.nextId)
  }

  /** Each tracked id was issued for its campaign, and its token still opens its listing. */
  ghost predicate Tracked(w: World) {
    forall c :: c in w.regs ==>
      && w.regs[c].id in w.issued && w.issued[w.regs[c].id] == c
      && (w.regs[c].id in w.entries ==> w.entries[w.regs[c].id].token == w.regs[c].token)
  }

  /** A listing of this Master shows the campaign it was issued for. */
  ghost predicate Labelled(w: World) {
    && (forall id :: id in w.issued ==> w.issued[id] != "")
    && (forall id :: id in w.issued && id in w.entries ==> w.entries[id].fields.campaignID == w.issued[id])
  }

  ghost predicate LogProper(w: World) {
    forall i :: 0 <= i < |w.log| ==> Proper(w.issued, w.log[i])
  }

  /** Nothing is later than now. */
  ghost predicate NoneFromFuture(w: World) {
    forall id :: id in w.entries ==> w.entries[id].lastHeartbeat <= w.now
  }

  ghost predicate Inv(w: World) { IdsDrawn(w) && Tracked(w) && Labelled(w) && LogProper(w) && NoneFromFuture(w) }

  /** What happens on its own leaves the Master and its record alone. */
  ghost predicate SameMaster(w: World, t: World) {
    t.regs == w.regs && t.issued == w.issued && t.log == w.log && w.nextId <= t.nextId && w.now <= t.now
  }

  lemma ApplyKeepsInv(w: World, rules: Rules, e: Event)
    requires Inv(w)
    ensures Inv(Apply(w, rules, e)) && SameMaster(w, Apply(w, rules, e))
  {
  }

  lemma {:induction false} DriftKeepsInv(w: World, rules: Rules, es: seq<Event>)
    requires Inv(w)
    ensures Inv(Drift(w, rules, es)) && SameMaster(w, Drift(w, rules, es))
    decreases |es|
  {
    if es != [] {
      ApplyKeepsInv(w, rules, es[0]);
      DriftKeepsInv(Apply(w, rules, es[0]), rules, es[1..]);
    }
  }

  lemma LogKeepsInv(w: World, s: Sent)
    requires Inv(w) && Proper(w.issued, s)
    ensures Inv(Log(w, s))
  {
  }

  lemma RegisterVisitKeepsInv(w: World, rules: Rules, v: Visit, call: Call)
    requires Inv(w) && v.ShouldList()
    ensures Inv(RegisterVisit(w, rules, v, call))
    ensures RegisterVisit(w, rules, v, call).regs.Keys <= w.regs.Keys + {v.Campaign()}
  {
    var f := BuildListing(v);
    var logged := Log(w, SentRegister(v, f));
    LogKeepsInv(w, SentRegister(v, f));
    DriftKeepsInv(logged, rules, call.drift);
    var d := Drift(logged, rules, call.drift);
    var t := RegisterVisit(w, rules, v, call);
    if Arrives(call.delivery) && rules.Accepts(f) {
      IssueKeepsInv(d, Entry(call.token, f, d.now));
    }
  }

  /** Creating a listing issues an id nobody holds. */
  lemma IssueKeepsInv(w: World, e: Entry)
    requires Inv(w) && e.fields.campaignID != "" && e.lastHeartbeat == w.now
    ensures var made := w.(entries := w.entries[w.nextId := e], issued := w.issued[w.nextId := e.fields.campaignID], nextId := w.nextId + 1);
            Inv(made) && Inv(made.(regs := made.regs[e.fields.campaignID := Registration(w.nextId, e.token)]))
  {
    var made := w.(entries := w.entries[w.nextId := e], issued := w.issued[w.nextId := e.fields.campaignID], nextId := w.nextId + 1);
    forall i | 0 <= i < |made.log| ensures Proper(made.issued, made.log[i]) {
      assert Proper(w.issued, w.log[i]);
    }
    assert LogProper(made.(regs := made.regs[e.fields.campaignID := Registration(w.nextId, e.token)]));
  }

  lemma HeartbeatKeepsInv(w: World, rules: Rules, c: string, f: Fields, call: Call)
    requires Inv(w) && c in w.regs && f.campaignID == c
    ensures Inv(Heartbeat(w, rules, w.regs[c], f, call).0) && Heartbeat(w, rules, w.regs[c], f, call).0.regs == w.regs
  {
    DriftKeepsInv(w, rules, call.drift);
    var d := Drift(w, rules, call.drift);
    var t := d.(entries := d.entries[w.regs[c].id := Entry(w.regs[c].token, f, d.now)]);
    assert HeartbeatAnswer(d, rules, w.regs[c], f).Ok? ==> Inv(t);
  }

  lemma DropKeepsInv(w: World, rules: Rules, c: string, call: Call)
    requires Inv(w) && c in w.regs
    ensures Inv(DropCampaign(w, rules, c, call)) && DropCampaign(w, rules, c, call).regs == w.regs - {c}
  {
    var s := SentDeregister(c, w.regs[c].id);
    LogKeepsInv(w, s);
    DriftKeepsInv(Log(w, s), rules, call.drift);
  }

  lemma SyncKeepsInv(w: World, rules: Rules, v: Visit)
    requires Inv(w)
    ensures Inv(SyncCampaign(w, rules, v))
    ensures var t := SyncCampaign(w, rules, v);
            if v.read.ReadFailed? then t.regs == w.regs
            else if v.ShouldList() then t.regs.Keys <= w.regs.Keys + {v.Campaign()}
            else t.regs == w.regs - {v.Campaign()}
  {
    hide Inv, RegisterVisit, DropCampaign, Heartbeat;
    var c := v.Campaign();
    if !v.read.ReadFailed? {
      if !v.ShouldList() {
        if c in w.regs {
          DropKeepsInv(w, rules, c, v.first);
        }
      } else if c !in w.regs {
        RegisterVisitKeepsInv(w, rules, v, v.first);
      } else {
        var f := BuildListing(v);
        HeartbeatProper(w, v);
        var logged := Log(w, SentHeartbeat(v, w.regs[c].id, f));
        HeartbeatKeepsInv(logged, rules, c, f, v.first);
        RegisterVisitKeepsInv(Heartbeat(logged, rules, w.regs[c], f, v.first).0, rules, v, v.second);
      }
    }
  }

  lemma HeartbeatProper(w: World, v: Visit)
    requires Inv(w) && v.ShouldList() && v.Campaign() in w.regs
    ensures Inv(Log(w, SentHeartbeat(v, w.regs[v.Campaign()].id, BuildListing(v))))
  {
    LogKeepsInv(w, SentHeartbeat(v, w.regs[v.Campaign()].id, BuildListing(v)));
  }

  lemma {:induction false} SyncAllKeepsInv(w: World, rules: Rules, visits: seq<Visit>)
    requires Inv(w)
    ensures Inv(SyncAll(w, rules, visits))
    decreases |visits|
  {
    if visits != [] {
      SyncAllKeepsInv(w, rules, visits[..|visits| - 1]);
      SyncKeepsInv(SyncAll(w, rules, visits[..|visits| - 1]), rules, visits[|visits| - 1]);
    }
  }

  lemma {:induction false} DropAllKeepsInv(w: World, rules: Rules, order: seq<string>, call: string -> Call)
    requires Inv(w)
    ensures Inv(DropAll(w, rules, order, call))
    ensures forall c :: c in DropAll(w, rules, order, call).regs <==> c in w.regs && c !in order
    decreases |order|
  {
    if order != [] {
      var n := |order| - 1;
      DropAllKeepsInv(w, rules, order[..n], call);
      var before := DropAll(w, rules, order[..n], call);
      assert order == order[..n] + [order[n]];
      if order[n] in before.regs {
        DropKeepsInv(before, rules, order[n], call(order[n]));
      }
    }
  }

  lemma RoundKeepsInv(w: World, rules: Rules, r: Round, t: World)
    requires Inv(w) && RoundStep(w, rules, r, t)
    ensures Inv(t)
  {
    if r.Listing? {
      SyncAllKeepsInv(w, rules, r.visits);
      var order :| IsDropOrder(SyncAll(w, rules, r.visits), r.visits, order)
                   && t == DropAll(SyncAll(w, rules, r.visits), rules, order, r.drop);
      DropAllKeepsInv(SyncAll(w, rules, r.visits), rules, order, r.drop);
    }
  }

  // ----- What is sent comes from what was read

  lemma {:induction false} DriftKeepsMaster(w: World, rules: Rules, es: seq<Event>)
    ensures var t := Drift(w, rules, es); t.regs == w.regs && t.issued == w.issued && t.log == w.log
    decreases |es|
  {
    if es != [] {
      DriftKeepsMaster(Apply(w, rules, es[0]), rules, es[1..]);
    }
  }

  /** The campaign was read, and as not opted in, without an address, or archived. */
  predicate ReadAsUnlisted(v: Visit) {
    || v.read.NoSettings?
    || (v.read.Found? && (!v.read.settings.registryListed || v.read.settings.joinAddress == "" || v.summary.archived))
  }

  /** A call a campaign's turn makes, for what one of these visits read. */
  ghost predicate FromVisit(s: Sent, visits: seq<Visit>) {
    match s
    case SentRegister(v, _) => v in visits
    case SentHeartbeat(v, _, _) => v in visits
    case SentDeregister(c, _) => exists v :: v in visits && v.Campaign() == c && ReadAsUnlisted(v)
  }

  /** A call a round with these visits makes: a campaign is deregistered when its visit read
      that it should not be listed, or when it has no visit. */
  ghost predicate FromRound(s: Sent, visits: seq<Visit>) {
    FromVisit(s, visits) || (s.SentDeregister? && s.campaign !in Present(visits))
  }

  /** after has before's calls, and then only calls of a round with these visits. */
  ghost predicate LogGrows(before: seq<Sent>, after: seq<Sent>, visits: seq<Visit>) {
    before <= after && forall k :: |before| <= k < |after| ==> FromRound(after[k], visits)
  }

  lemma RegisterVisitLogs(w: World, rules: Rules, v: Visit, call: Call)
    requires v.read.Found?
    ensures RegisterVisit(w, rules, v, call).log == w.log + [SentRegister(v, BuildListing(v))]
  {
    DriftKeepsMaster(Log(w, SentRegister(v, BuildListing(v))), rules, call.drift);
  }

  lemma DropLogs(w: World, rules: Rules, c: string, call: Call)
    requires c in w.regs
    ensures DropCampaign(w, rules, c, call).log == w.log + [SentDeregister(c, w.regs[c].id)]
  {
    DriftKeepsMaster(Log(w, SentDeregister(c, w.regs[c].id)), rules, call.drift);
  }

  lemma SyncLogs(w: World, rules: Rules, v: Visit)
    ensures var t := SyncCampaign(w, rules, v);
            w.log <= t.log && forall k :: |w.log| <= k < |t.log| ==> FromVisit(t.log[k], [v])
  {
    hide RegisterVisit, DropCampaign, Drift;
    var c := v.Campaign();
    if !v.read.ReadFailed? {
      if !v.ShouldList() {
        assert v in [v];
        if c in w.regs {
          DropLogs(w, rules, c, v.first);
        }
      } else if c !in w.regs {
        RegisterVisitLogs(w, rules, v, v.first);
      } else {
        var logged := Log(w, SentHeartbeat(v, w.regs[c].id, BuildListing(v)));
        DriftKeepsMaster(logged, rules, v.first.drift);
        RegisterVisitLogs(Heartbeat(logged, rules, w.regs[c], BuildListing(v), v.first).0, rules, v, v.second);
      }
    }
  }

  lemma {:induction false} SyncAllLogs(w: World, rules: Rules, visits: seq<Visit>)
    ensures var t := SyncAll(w, rules, visits);
            w.log <= t.log && forall k :: |w.log| <= k < |t.log| ==> FromVisit(t.log[k], visits)
    decreases |visits|
  {
    hide SyncCampaign;
    if visits != [] {
      var n := |visits| - 1;
      SyncAllLogs(w, rules, visits[..n]);
      SyncLogs(SyncAll(w, rules, visits[..n]), rules, visits[n]);
    }
  }

  lemma {:induction false} DropAllLogs(w: World, rules: Rules, order: seq<string>, call: string -> Call)
    ensures var t := DropAll(w, rules, order, call);
            w.log <= t.log && forall k :: |w.log| <= k < |t.log| ==> t.log[k].SentDeregister? && t.log[k].campaign in order
    decreases |order|
  {
    hide DropCampaign;
    if order != [] {
      var n := |order| - 1;
      var before := DropAll(w, rules, order[..n], call);
      DropAllLogs(w, rules, order[..n], call);
      if order[n] in before.regs {
        DropLogs(before, rules, order[n], call(order[n]));
      }
    }
  }

  lemma VisitsAndDropsLog(w: World, rules: Rules, visits: seq<Visit>, order: seq<string>, call: string -> Call)
    requires forall c :: c in order ==> c !in Present(visits)
    ensures LogGrows(w.log, DropAll(SyncAll(w, rules, visits), rules, order, call).log, visits)
  {
    hide SyncAll, DropAll, FromVisit;
    var s := SyncAll(w, rules, visits);
    var t := DropAll(s, rules, order, call);
    SyncAllLogs(w, rules, visits);
    DropAllLogs(s, rules, order, call);
    forall k | |w.log| <= k < |t.log| ensures FromRound(t.log[k], visits) {
      assert k < |s.log| ==> t.log[k] == s.log[k];
    }
  }

  // ----- Every run

  /** What can happen: things on their own, a round, or the Master going down and coming
      back with nothing tracked, perhaps in the middle of a round. */
  datatype Step =
    | Meanwhile(es: seq<Event>)
    | RunRound(round: Round)
    | MasterRestart(visits: seq<Visit>, order: seq<string>, drop: string -> Call)
  {
    function Visits(): seq<Visit> {
      match this
      case Meanwhile(_) => []
      case RunRound(r) => if r.Listing? then r.visits else []
      case MasterRestart(visits, _, _) => visits
    }
  }

  /** The Master forgets what it tracked; its listings stay up, and nobody holds their tokens. */
  function Forget(w: World): World { w.(regs := map[]) }

  ghost predicate Takes(w: World, rules: Rules, s: Step, t: World) {
    match s
    case Meanwhile(es) => t == Drift(w, rules, es)
    case RunRound(r) => RoundStep(w, rules, r, t)
    case MasterRestart(visits, order, drop) =>
      && (forall c :: c in order ==> c !in Present(visits))
      && t == Forget(DropAll(SyncAll(w, rules, visits), rules, order, drop))
  }

  ghost predicate IsHistory(rules: Rules, worlds: seq<World>, steps: seq<Step>) {
    && |worlds| == |steps| + 1
    && forall i {:trigger steps[i]} :: 0 <= i < |steps| ==> Takes(worlds[i], rules, steps[i], worlds[i + 1])
  }

  /** A Master that has made no call yet, facing any directory. */
  ghost predicate Fresh(w: World) {
    && w.issued == map[] && w.regs == map[] && w.log == []
    && (forall id :: id in w.entries ==> id < w.nextId) && NoneFromFuture(w)
  }

  lemma StepKeepsInv(w: World, rules: Rules, s: Step, t: World)
    requires Inv(w) && Takes(w, rules, s, t)
    ensures Inv(t)
  {
    hide SyncAll, DropAll, Drift, RoundStep;
    match s
    case Meanwhile(es) => DriftKeepsInv(w, rules, es);
    case RunRound(r) => RoundKeepsInv(w, rules, r, t);
    case MasterRestart(visits, order, drop) =>
      SyncAllKeepsInv(w, rules, visits);
      DropAllKeepsInv(SyncAll(w, rules, visits), rules, order, drop);
  }

  lemma StepLogs(w: World, rules: Rules, s: Step, t: World)
    requires Takes(w, rules, s, t)
    ensures LogGrows(w.log, t.log, s.Visits())
  {
    hide SyncAll, DropAll, FromVisit;
    match s
    case Meanwhile(es) => DriftKeepsMaster(w, rules, es);
    case RunRound(r) =>
      if r.Listing? {
        var order :| IsDropOrder(SyncAll(w, rules, r.visits), r.visits, order)
                     && t == DropAll(SyncAll(w, rules, r.visits), rules, order, r.drop);
        VisitsAndDropsLog(w, rules, r.visits, order, r.drop);
      }
    case MasterRestart(visits, order, drop) =>
      VisitsAndDropsLog(w, rules, visits, order, drop);
  }

  /** Call k was sent in step j, as that step's visits say. */
  ghost predicate SentIn(worlds: seq<World>, steps: seq<Step>, k: int, j: int, s: Sent)
    requires |worlds| == |steps| + 1
  {
    0 <= j < |steps| && |worlds[j].log| <= k < |worlds[j + 1].log| && FromRound(s, steps[j].Visits())
  }

  ghost predicate CallWasDue(worlds: seq<World>, steps: seq<Step>, i: nat, k: int, s: Sent)
    requires |worlds| == |steps| + 1
  {
    exists j :: j < i && SentIn(worlds, steps, k, j, s)
  }

  /** Each call was sent in some step before i, as what that step read says. */
  ghost predicate EveryCallWasDue(worlds: seq<World>, steps: seq<Step>, i: nat)
    requires |worlds| == |steps| + 1 && i <= |steps|
  {
    forall k :: 0 <= k < |worlds[i].log| ==> CallWasDue(worlds, steps, i, k, worlds[i].log[k])
  }

  lemma {:induction false} HistoryLogs(rules: Rules, worlds: seq<World>, steps: seq<Step>, i: nat)
    requires IsHistory(rules, worlds, steps) && Fresh(worlds[0]) && i <= |steps|
    ensures EveryCallWasDue(worlds, steps, i)
  {
    hide Takes, FromRound;
    if i > 0 {
      HistoryLogs(rules, worlds, steps, i - 1);
      var before, after := worlds[i - 1].log, worlds[i].log;
      assert Takes(worlds[i - 1], rules, steps[i - 1], worlds[i]);
      StepLogs(worlds[i - 1], rules, steps[i - 1], worlds[i]);
      forall k | 0 <= k < |after| ensures CallWasDue(worlds, steps, i, k, after[k]) {
        if k < |before| {
          assert after[k] == before[k];
          assert CallWasDue(worlds, steps, i - 1, k, before[k]);
        } else {
          assert SentIn(worlds, steps, k, i - 1, after[k]);
        }
      }
    }
  }

  lemma {:induction false} HistoryKeepsInv(rules: Rules, worlds: seq<World>, steps: seq<Step>, i: nat)
    requires IsHistory(rules, worlds, steps) && Fresh(worlds[0]) && i <= |steps|
    ensures Inv(worlds[i])
  {
    if i > 0 {
      hide Inv, Takes;
      HistoryKeepsInv(rules, worlds, steps, i - 1);
      assert Takes(worlds[i - 1], rules, steps[i - 1], worlds[i]);
      StepKeepsInv(worlds[i - 1], rules, steps[i - 1], worlds[i]);
    }
  }

  lemma ProperIsRight(issued: map<nat, string>, s: Sent)
    requires Proper(issued, s)
    ensures RightlySent(s)
  {
    hide BuildListing, TrueListing;
    if !s.SentDeregister? {
      ListingIsTrue(s.visit);
    }
  }

  /** In every state of every run, Master restarts included: every call that publishes a
      campaign is for one whose host had opted it in, addressed and unarchived, with its true
      fields; every call was sent in a round whose reading of that campaign calls for it; each
      tracked id was issued for its campaign, and no two campaigns share one. */
  lemma {:induction false} RoundsNeverLeakOrCross(rules: Rules, worlds: seq<World>, steps: seq<Step>, i: nat)
    requires IsHistory(rules, worlds, steps) && Fresh(worlds[0]) && i <= |steps|
    ensures Inv(worlds[i]) && EveryCallWasDue(worlds, steps, i)
    ensures forall k :: 0 <= k < |worlds[i].log| ==> RightlySent(worlds[i].log[k])
    ensures var w := worlds[i]; forall c, d :: c in w.regs && d in w.regs && c != d ==> w.regs[c].id != w.regs[d].id
  {
    hide Takes, EveryCallWasDue, Fresh, Proper, RightlySent;
    HistoryKeepsInv(rules, worlds, steps, i);
    HistoryLogs(rules, worlds, steps, i);
    forall k | 0 <= k < |worlds[i].log| ensures RightlySent(worlds[i].log[k]) {
      ProperIsRight(worlds[i].issued, worlds[i].log[k]);
    }
  }

  /** Some visit of the round found c opted in, addressed and unarchived. */
  ghost predicate OptedIn(visits: seq<Visit>, c: string) {
    exists i :: 0 <= i < |visits| && visits[i].summary.campaignID == c && visits[i].read.Found?
      && visits[i].read.settings.registryListed && visits[i].read.settings.joinAddress != "" && !visits[i].summary.archived
  }

  lemma {:induction false} SyncAllTracksOptedIn(w: World, rules: Rules, visits: seq<Visit>)
    requires Inv(w) && forall i :: 0 <= i < |visits| ==> !visits[i].read.ReadFailed?
    ensures forall c :: c in SyncAll(w, rules, visits).regs && c in Present(visits) ==> OptedIn(visits, c)
    decreases |visits|
  {
    if visits != [] {
      var n := |visits| - 1;
      var vs, v := visits[..n], visits[n];
      SyncAllTracksOptedIn(w, rules, vs);
      SyncAllKeepsInv(w, rules, vs);
      SyncKeepsInv(SyncAll(w, rules, vs), rules, v);
      forall c | c in SyncAll(w, rules, visits).regs && c in Present(visits) ensures OptedIn(visits, c) {
        if c != v.Campaign() {
          var k :| 0 <= k < |visits| && visits[k].Campaign() == c;
          assert vs[k].Campaign() == c;
          assert OptedIn(vs, c);
          assert forall i :: 0 <= i < |vs| ==> visits[i] == vs[i];
        } else {
          assert visits[n].Campaign() == c;
        }
      }
    }
  }

  /** After a round that read its stores without error, only opted-in campaigns are
      tracked, however its calls fared. */
  lemma TrackedAreOptedIn(w: World, rules: Rules, r: Round, t: World, c: string)
    requires Inv(w) && RoundStep(w, rules, r, t) && r.Listing?
    requires forall i :: 0 <= i < |r.visits| ==> !r.visits[i].read.ReadFailed?
    requires c in t.regs
    ensures OptedIn(r.visits, c)
  {
    var s := SyncAll(w, rules, r.visits);
    SyncAllKeepsInv(w, rules, r.visits);
    SyncAllTracksOptedIn(w, rules, r.visits);
    var order :| IsDropOrder(s, r.visits, order) && t == DropAll(s, rules, order, r.drop);
    DropAllKeepsInv(s, rules, order, r.drop);
  }

  // ----- What one turn sends

  /** One turn, however its calls fare.  A campaign that cannot be read is left alone.  One
      read as not to be listed is deregistered and forgotten if it was tracked.  One to be
      listed is registered if untracked, and tracked once a registration that was accepted is
      answered; if tracked it is heartbeated, stays tracked, and is registered again only when
      the directory answers that the listing is gone. */
  lemma TurnExactly(w: World, rules: Rules, v: Visit)
    ensures var t, c := SyncCampaign(w, rules, v), v.summary.campaignID;
            var agreed := v.read.Found? && v.read.settings.registryListed && v.read.settings.joinAddress != "" && !v.summary.archived;
            && (v.read.ReadFailed? ==> t == w)
            && (!v.read.ReadFailed? && !agreed && c !in w.regs ==> t == w)
            && (!v.read.ReadFailed? && !agreed && c in w.regs ==>
                  t.log == w.log + [SentDeregister(c, w.regs[c].id)] && t.regs == w.regs - {c})
            && (agreed && c !in w.regs ==>
                  && t.log == w.log + [SentRegister(v, BuildListing(v))]
                  && (c in t.regs <==> v.first.delivery.Delivered? && rules.Accepts(BuildListing(v))))
            && (agreed && c in w.regs ==>
                  var beat := SentHeartbeat(v, w.regs[c].id, BuildListing(v));
                  var gone := v.first.delivery.Delivered? && rules.FieldsValid(BuildListing(v))
                              && w.regs[c].id !in Drift(Log(w, beat), rules, v.first.drift).entries;
                  c in t.regs && t.log == w.log + if gone then [beat, SentRegister(v, BuildListing(v))] else [beat])
            && (forall x :: x != c ==> (x in t.regs <==> x in w.regs) && (x in w.regs ==> t.regs[x] == w.regs[x]))
  {
    hide BuildListing, Rules.FieldsValid;
    var c := v.Campaign();
    if v.read.Found? {
      var s := SentRegister(v, BuildListing(v));
      DriftKeepsMaster(Log(w, s), rules, v.first.drift);
    }
    if c in w.regs {
      DriftKeepsMaster(Log(w, SentDeregister(c, w.regs[c].id)), rules, v.first.drift);
      if v.ShouldList() {
        var logged := Log(w, SentHeartbeat(v, w.regs[c].id, BuildListing(v)));
        DriftKeepsMaster(logged, rules, v.first.drift);
        var after := Heartbeat(logged, rules, w.regs[c], BuildListing(v), v.first).0;
        DriftKeepsMaster(Log(after, SentRegister(v, BuildListing(v))), rules, v.second.drift);
      }
    }
  }
}
