/** Which value the local viewer sees for a player: the name and level
    rules of `updateAllDOM`, the gradient hand-off rule, and the separate
    precedence of `getDisplayName`. */
module Visibility {
  import opened Wrappers
  import opened Model

  /** The name `updateAllDOM` writes for player `id`: the nickname; else the
      local custom name when `id` is the local player and it is active; else
      the peer's announced name (the real name when that is empty); else the
      real name. */
  function ResolveName(ov: Overrides, host: Host, id: Id, p: Player): (r: string)
    ensures HasNick(ov, id) ==> r == ov.nicknames[id]
    ensures !HasNick(ov, id) && id == host.myId && ov.nameActive ==> r == ov.customName
    ensures !HasNick(ov, id) && !(id == host.myId && ov.nameActive) && id in ov.remote ==>
      r == (if ov.remote[id].name != "" then ov.remote[id].name else p.userName)
    ensures !HasNick(ov, id) && !(id == host.myId && ov.nameActive) && id !in ov.remote ==> r == p.userName
  {
    if HasNick(ov, id) then ov.nicknames[id]
    else if id == host.myId && ov.nameActive then ov.customName
    else if id in ov.remote then
      (if ov.remote[id].name != "" then ov.remote[id].name else p.userName)
    else p.userName
  }

  /** The level text `updateAllDOM` writes for player `id`. An owner viewer,
      or an owner player, always gets the real level; otherwise the local
      player gets `CUSTOM_LEVEL` and a peer its announced level. */
  function ResolveLevel(ov: Overrides, host: Host, id: Id, p: Player): (r: string)
    ensures ViewerIsOwner(host) || IsOwner(p.userName) ==> r == RealLevel(p)
    ensures !ViewerIsOwner(host) && !IsOwner(p.userName) && id == host.myId ==> r == ov.customLevel
    ensures !ViewerIsOwner(host) && !IsOwner(p.userName) && id != host.myId && id in ov.remote ==>
      r == (if ov.remote[id].level != "" then ov.remote[id].level else RealLevel(p))
    ensures id != host.myId && id !in ov.remote ==> r == RealLevel(p)
  {
    var viewerOwner := ViewerIsOwner(host);
    var targetOwner := IsOwner(p.userName);
    if !viewerOwner && !targetOwner && id == host.myId then ov.customLevel
    else if id in ov.remote && !viewerOwner && !targetOwner then
      (if ov.remote[id].level != "" then ov.remote[id].level else RealLevel(p))
    else RealLevel(p)
  }

  /** The gradient handed to the animator with a patched name: the local
      gradient for the local player while the custom name is active, else
      the peer's announced gradient, else none. Nicknames do not affect it. */
  function GradientFor(ov: Overrides, host: Host, id: Id): (r: Option<Gradient>)
    ensures id == host.myId && ov.nameActive ==> r == ov.gradient
    ensures !(id == host.myId && ov.nameActive) && id in ov.remote ==> r == ov.remote[id].gradient
    ensures !(id == host.myId && ov.nameActive) && id !in ov.remote ==> r == None
  {
    if id == host.myId && ov.nameActive then ov.gradient
    else if id in ov.remote then ov.remote[id].gradient
    else None
  }

  /** `getDisplayName`: nickname, then the peer's announced name, then the
      local custom name when active, then the real name or `Guest`. */
  function GetDisplayName(ov: Overrides, host: Host, id: Id): (r: string)
    ensures HasNick(ov, id) ==> r == ov.nicknames[id]
    ensures !HasNick(ov, id) && id in ov.remote ==> r == ov.remote[id].name
    ensures !HasNick(ov, id) && id !in ov.remote && id == host.myId && ov.nameActive ==> r == ov.customName
    ensures !HasNick(ov, id) && id !in ov.remote && !(id == host.myId && ov.nameActive) ==>
      r == (if Lookup(host.players, id).Some? && Lookup(host.players, id).value.userName != ""
            then Lookup(host.players, id).value.userName else "Guest")
  {
    if HasNick(ov, id) then ov.nicknames[id]
    else if id in ov.remote then ov.remote[id].name
    else if id == host.myId && ov.nameActive then ov.customName
    else
      match Lookup(host.players, id)
      case Some(p) => if p.userName != "" then p.userName else "Guest"
      case None => "Guest"
  }

  /** The two orders really differ: for the local player with an active
      custom name and an echo of its own announcement under a different
      name, `getDisplayName` shows the echoed name and `updateAllDOM` the
      custom name. */
  lemma DisplayNameOrdersDiffer(ov: Overrides, host: Host, p: Player)
    requires !HasNick(ov, host.myId) && ov.nameActive
    requires host.myId in ov.remote && ov.remote[host.myId].name != ov.customName
    ensures GetDisplayName(ov, host, host.myId) != ResolveName(ov, host, host.myId, p)
  {
  }

  /** Nicknames win in both orders. */
  lemma NicknameWinsEverywhere(ov: Overrides, host: Host, id: Id, p: Player)
    requires HasNick(ov, id)
    ensures GetDisplayName(ov, host, id) == ResolveName(ov, host, id, p) == ov.nicknames[id]
  {
  }
}
