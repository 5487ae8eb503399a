/** The campaign directory and what can happen to it: its in-memory store, the passage
    of time, restarts, other hosts, and calls that go astray. */
module RegistryModel {

  /** What a listing says about a campaign. */
  datatype Fields = Fields(adventureName: string, minLevel: int, maxLevel: int, playersJoined: int, playerSlots: int,
                           passwordProtected: bool, joinURL: string, campaignID: string)

  datatype Entry = Entry(token: int, fields: Fields, lastHeartbeat: int)

  datatype Registration = Registration(id: nat, token: int)

  /** The directory's settings: how long a listing lives without a heartbeat, and which
      join addresses parse as absolute URLs. */
  datatype Rules = Rules(ttl: nat, urlParses: string -> bool) {
    predicate FieldsValid(f: Fields) {
      && |f.adventureName| <= 200 && |f.joinURL| <= 500 && |f.campaignID| <= 200
      && (f.joinURL == "" || urlParses(f.joinURL))
    }

    /** A new listing must also name its adventure, address and campaign. */
    predicate Accepts(f: Fields) {
      f.adventureName != "" && f.joinURL != "" && f.campaignID != "" && FieldsValid(f)
    }
  }

  /** A call this Master made, as it left. */
  datatype Sent =
    | SentRegister(visit: Visit, fields: Fields)
    | SentHeartbeat(visit: Visit, id: nat, fields: Fields)
    | SentDeregister(campaign: string, id: nat)

  /** The directory and this Master together.  Ids are drawn from a counter: all that
      matters of a random id is that it is new.  issued and log record what this Master
      was given and sent. */
  datatype World = World(now: int, nextId: nat, entries: map<nat, Entry>, issued: map<nat, string>,
                         regs: map<string, Registration>, log: seq<Sent>)

  /** What happens on its own: time passes, expired entries are swept, the directory
      restarts empty, and other hosts work on listings of their own. */
  datatype Event =
    | Tick(dt: nat)
    | Sweep
    | Restart
    | ForeignCreate(token: int, fields: Fields)
    | ForeignHeartbeat(id: nat, fields: Fields)
    | ForeignRemove(id: nat)

  function SweepEntries(entries: map<nat, Entry>, cutoff: int): map<nat, Entry> {
    map id | id in entries && entries[id].lastHeartbeat >= cutoff :: entries[id]
  }

  function Apply(w: World, rules: Rules, e: Event): World {
    match e
    case Tick(dt) => w.(now := w.now + dt)
    case Sweep => w.(entries := SweepEntries(w.entries, w.now - rules.ttl))
    case Restart => w.(entries := map[])
    case ForeignCreate(token, fields) =>
      w.(entries := w.entries[w.nextId := Entry(token, fields, w.now)], nextId := w.nextId + 1)
    case ForeignHeartbeat(id, fields) =>
      if id in w.entries && id !in w.issued
      then w.(entries := w.entries[id := Entry(w.entries[id].token, fields, w.now)]) else w
    case ForeignRemove(id) =>
      if id in w.entries && id !in w.issued then w.(entries := w.entries - {id}) else w
  }

  function Drift(w: World, rules: Rules, es: seq<Event>): World
    decreases |es|
  {
    if es == [] then w else Drift(Apply(w, rules, es[0]), rules, es[1..])
  }

  /** What becomes of one call: it arrives and is answered, never arrives, arrives but the
      answer is lost, or is turned away unread (rate limit, full store, server error). */
  datatype Delivery = Delivered | RequestLost | ReplyLost | Refused

  predicate Arrives(d: Delivery) { d.Delivered? || d.ReplyLost? }

  /** One call: what happens before it arrives, what becomes of it, and the token drawn
      should it create a listing. */
  datatype Call = Call(drift: seq<Event>, delivery: Delivery, token: int)

  datatype Option<T> = None | Some(value: T)

  /** Creates a listing for a campaign; the answer is its registration. */
  function Register(w0: World, rules: Rules, f: Fields, call: Call): (World, Option<Registration>) {
    var w := Drift(w0, rules, call.drift);
    if !Arrives(call.delivery) || !rules.Accepts(f) then (w, None)
    else
      var made := w.(entries := w.entries[w.nextId := Entry(call.token, f, w.now)],
                     issued := w.issued[w.nextId := f.campaignID], nextId := w.nextId + 1);
      (made, if call.delivery.Delivered? then Some(Registration(w.nextId, call.token)) else None)
  }

  datatype Reply = Ok | NotFound | Failed

  /** The directory's own answer to a heartbeat; validation comes before the lookup. */
  function HeartbeatAnswer(w: World, rules: Rules, reg: Registration, f: Fields): Reply {
    if !rules.FieldsValid(f) then Failed
    else if reg.id !in w.entries then NotFound
    else if w.entries[reg.id].token != reg.token then Failed
    else Ok
  }

  function Heartbeat(w0: World, rules: Rules, reg: Registration, f: Fields, call: Call): (World, Reply) {
    var w := Drift(w0, rules, call.drift);
    var answer := HeartbeatAnswer(w, rules, reg, f);
    if !Arrives(call.delivery) then (w, Failed)
    else
      var after := if answer.Ok? then w.(entries := w.entries[reg.id := Entry(reg.token, f, w.now)]) else w;
      (after, if call.delivery.Delivered? then answer else Failed)
  }

  function Deregister(w0: World, rules: Rules, reg: Registration, call: Call): World {
    var w := Drift(w0, rules, call.drift);
    if Arrives(call.delivery) && reg.id in w.entries && w.entries[reg.id].token == reg.token
    then w.(entries := w.entries - {reg.id}) else w
  }

  // ----- The Master's side

  datatype Summary = Summary(campaignID: string, displayName: string, archived: bool)

  datatype Settings = Settings(registryListed: bool, joinAddress: string, minLevel: int, maxLevel: int, maxPlayers: int,
                               roomPassword: string)

  datatype SettingsRead = ReadFailed | NoSettings | Found(settings: Settings)

  /** What the pack and character stores say: the title of the bound pack, if one loads,
      and the owners of the campaign's characters, if they can be counted. */
  datatype Lookup = Lookup(packTitle: Option<string>, owners: Option<seq<string>>)

  /** One campaign's turn in a round: what is read about it and what becomes of the call
      made for it, and of a second one should the first find the listing gone. */
  datatype Visit = Visit(summary: Summary, read: SettingsRead, lookup: Lookup, first: Call, second: Call) {
    function Campaign(): string { summary.campaignID }

    /** The host opted this campaign in, gave it an address, and did not archive it. */
    predicate ShouldList() {
      read.Found? && read.settings.registryListed && read.settings.joinAddress != "" && !summary.archived
    }
  }

  const NPC_OWNER := "master"

  function CountPlayers(owners: seq<string>): nat {
    if owners == [] then 0 else (if owners[0] != NPC_OWNER then 1 else 0) + CountPlayers(owners[1..])
  }

  function BuildListing(v: Visit): Fields
    requires v.read.Found?
  {
    var s := v.read.settings;
    var title := if v.lookup.packTitle.Some? && v.lookup.packTitle.value != "" then v.lookup.packTitle.value else v.summary.displayName;
    var players := if v.lookup.owners.Some? then CountPlayers(v.lookup.owners.value) else 0;
    Fields(if title == "" then v.Campaign() else title, s.minLevel, s.maxLevel, players, s.maxPlayers,
           s.roomPassword != "", s.joinAddress, v.Campaign())
  }

  function Log(w: World, s: Sent): World { w.(log := w.log + [s]) }

  function Track(w: World, campaign: string, r: Option<Registration>): World {
    if r.Some? then w.(regs := w.regs[campaign := r.value]) else w
  }

  function RegisterVisit(w: World, rules: Rules, v: Visit, call: Call): World
    requires v.read.Found?
  {
    var f := BuildListing(v);
    var (after, r) := Register(Log(w, SentRegister(v, f)), rules, f, call);
    Track(after, v.Campaign(), r)
  }

  /** Deregisters a tracked campaign; it is forgotten whatever becomes of the call. */
  function DropCampaign(w: World, rules: Rules, c: string, call: Call): World
    requires c in w.regs
  {
    var after := Deregister(Log(w, SentDeregister(c, w.regs[c].id)), rules, w.regs[c], call);
    after.(regs := after.regs - {c})
  }

  function SyncCampaign(w: World, rules: Rules, v: Visit): World {
    var c := v.Campaign();
    if v.read.ReadFailed? then w
    else if !v.ShouldList() then if c in w.regs then DropCampaign(w, rules, c, v.first) else w
    else if c !in w.regs then RegisterVisit(w, rules, v, v.first)
    else
      var f := BuildListing(v);
      var (after, reply) := Heartbeat(Log(w, SentHeartbeat(v, w.regs[c].id, f)), rules, w.regs[c], f, v.first);
      if reply.NotFound? then RegisterVisit(after, rules, v, v.second) else after
  }

  function SyncAll(w: World, rules: Rules, visits: seq<Visit>): World {
    if visits == [] then w
    else SyncCampaign(SyncAll(w, rules, visits[..|visits| - 1]), rules, visits[|visits| - 1])
  }

  function DropAll(w: World, rules: Rules, order: seq<string>, call: string -> Call): World {
    if order == [] then w
    else
      var n := |order| - 1;
      var before := DropAll(w, rules, order[..n], call);
      if order[n] in before.regs then DropCampaign(before, rules, order[n], call(order[n])) else before
  }

  /** What one round reads and meets: the campaigns listed, unless listing them fails, and
      what becomes of the calls that drop campaigns no longer listed. */
  datatype Round = ListFailed | Listing(visits: seq<Visit>, drop: string -> Call)

  function Present(visits: seq<Visit>): set<string> { set i | 0 <= i < |visits| :: visits[i].Campaign() }

  /** The tracked campaigns that are no longer listed, in some order. */
  ghost predicate IsDropOrder(w: World, visits: seq<Visit>, order: seq<string>) {
    && (forall i, j :: 0 <= i < j < |order| ==> order[i] != order[j])
    && forall c :: c in order <==> c in w.regs && c !in Present(visits)
  }

  /** One round may take w to t. */
  ghost predicate RoundStep(w: World, rules: Rules, r: Round, t: World) {
    if r.ListFailed? then t == w
    else exists order :: IsDropOrder(SyncAll(w, rules, r.visits), r.visits, order)
           && t == DropAll(SyncAll(w, rules, r.visits), rules, order, r.drop)
  }
}
