/** What a listing says about its campaign, told apart from how it is put together. */
module RegistryListing {
  import opened RegistryModel

  /** The name shown: the bound pack's title, or else the display name, or else the id. */
  predicate NamedFor(name: string, v: Visit) {
    match v.lookup.packTitle
    case Some(title) => if title != "" then name == title else NamedWithoutPack(name, v.summary)
    case None => NamedWithoutPack(name, v.summary)
  }

  predicate NamedWithoutPack(name: string, s: Summary) {
    if s.displayName != "" then name == s.displayName else name == s.campaignID
  }

  /** The fields a campaign read like this should show: players are the owners of characters
      other than the Master's own, none if they cannot be counted, and a password is told of
      but not shown. */
  ghost predicate TrueListing(f: Fields, v: Visit) {
    && v.read.Found?
    && NamedFor(f.adventureName, v)
    && f.minLevel == v.read.settings.minLevel && f.maxLevel == v.read.settings.maxLevel
    && f.playerSlots == v.read.settings.maxPlayers
    && f.joinURL == v.read.settings.joinAddress && f.campaignID == v.summary.campaignID
    && (f.passwordProtected <==> v.read.settings.roomPassword != "")
    && match v.lookup.owners
       case None => f.playersJoined == 0
       case Some(owners) => f.playersJoined == |owners| - multiset(owners)["master"]
  }

  /** Counting players is counting all owners less the Master's own. */
  lemma {:induction false} CountPlayersExactly(owners: seq<string>)
    ensures CountPlayers(owners) == |owners| - multiset(owners)["master"]
  {
    if owners != [] {
      CountPlayersExactly(owners[1..]);
      assert owners == [owners[0]] + owners[1..];
      assert multiset(owners) == multiset([owners[0]]) + multiset(owners[1..]);
    }
  }

  lemma ListingIsTrue(v: Visit)
    requires v.read.Found?
    ensures TrueListing(BuildListing(v), v)
  {
    if v.lookup.owners.Some? {
      CountPlayersExactly(v.lookup.owners.value);
    }
  }

  /** A call that publishes fields does so for a campaign the host agreed to, truly. */
  ghost predicate RightlySent(s: Sent) {
    match s
    case SentRegister(v, f) =>
      && v.read.Found? && v.read.settings.registryListed && v.read.settings.joinAddress != "" && !v.summary.archived
      && TrueListing(f, v)
    case SentHeartbeat(v, _, f) =>
      && v.read.Found? && v.read.settings.registryListed && v.read.settings.joinAddress != "" && !v.summary.archived
      && TrueListing(f, v)
    case SentDeregister(_, _) => true
  }
}
