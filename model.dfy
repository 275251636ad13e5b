/** The values the userscript works on: the host's player registry, the
    gradient records, the remote customisation records and a snapshot of
    the six module-level override variables. */
module Model {
  import opened Wrappers
  import opened Text
  import opened Numbers

  /** A player id as the host assigns it. */
  type Id = nat

  /** What the host registry holds per player. An empty `userName` stands
      for a missing or nameless entry, which every loop skips. */
  datatype Player = Player(userName: string, level: nat)

  /** One registry slot, in the order a `for ... in` loop visits them. */
  datatype Entry = Entry(id: Id, player: Player)

  /** The host state the core reads: the registry and the local player's id. */
  datatype Host = Host(players: seq<Entry>, myId: Id)

  /** A gradient: colour strings and the animation period in milliseconds. */
  datatype Gradient = Gradient(colors: seq<string>, speed: int)

  /** What a peer announced about itself. */
  datatype Remote = Remote(name: string, level: string, gradient: Option<Gradient>)

  /** The six module-level variables: `CUSTOM_NAME`, `CUSTOM_LEVEL`,
      `isNameActive`, `currentGradient`, `nicknames`, `remoteCustomizations`. */
  datatype Overrides = Overrides(
    customName: string,
    customLevel: string,
    nameActive: bool,
    gradient: Option<Gradient>,
    nicknames: map<Id, string>,
    remote: map<Id, Remote>)

  /** `OWNER_USERNAMES`: the users whose real level is always shown. */
  const Owners: set<string> := {"ki1la", "khayrie", "Il fait"}

  predicate IsOwner(userName: string) { userName in Owners }

  /** Ids appear at most once, as keys of the host's registry object do. */
  predicate UniqueIds(players: seq<Entry>) {
    forall i, j :: 0 <= i < j < |players| ==> players[i].id != players[j].id
  }

  /** `uw.playerids[id]`. */
  function Lookup(players: seq<Entry>, id: Id): (r: Option<Player>)
    ensures r.Some? <==> exists k :: 0 <= k < |players| && players[k].id == id
    ensures forall k :: 0 <= k < |players| && UniqueIds(players) && players[k].id == id ==> r == Some(players[k].player)
  {
    if players == [] then None
    else if players[0].id == id then Some(players[0].player)
    else
      var r := Lookup(players[1..], id);
      assert forall k :: 1 <= k < |players| ==> players[k] == players[1..][k - 1];
      r
  }

  /** `OWNER_USERNAMES.has(uw.playerids[uw.myid]?.userName)`. */
  predicate ViewerIsOwner(host: Host) {
    var me := Lookup(host.players, host.myId);
    me.Some? && IsOwner(me.value.userName)
  }

  /** `nicknames[id]` is set and truthy. */
  predicate HasNick(ov: Overrides, id: Id) {
    id in ov.nicknames && ov.nicknames[id] != ""
  }

  /** With ids unique, the viewer is an owner exactly when the registry
      holds the viewer's id under an owner's name. */
  lemma ViewerIsOwnerByEntry(host: Host)
    requires UniqueIds(host.players)
    ensures ViewerIsOwner(host) <==>
      exists k :: 0 <= k < |host.players| && host.players[k].id == host.myId &&
                  IsOwner(host.players[k].player.userName)
  {
    if ViewerIsOwner(host) {
      var k :| 0 <= k < |host.players| && host.players[k].id == host.myId;
      assert Lookup(host.players, host.myId) == Some(host.players[k].player);
    }
  }

  /** The label of a player's real level, `Level ${player.level || 1}`: a
      missing (zero) level reads as 1. */
  function RealLevel(p: Player): (r: string)
    ensures |r| > 6 && r[..6] == "Level "
  {
    LevelLabel(if p.level == 0 then 1 else p.level)
  }

  /** The shown real level reads back as the player's level, or 1 when the
      registry has none. */
  lemma RealLevelReadsBack(p: Player)
    ensures ParseInt(RealLevel(p)[6..]) == Some(if p.level == 0 then 1 else p.level)
  {
    LevelLabelReadsBack(if p.level == 0 then 1 else p.level);
  }
}
