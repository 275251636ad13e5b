/** The peer protocol: the `bonk_customizer` announcement a client
    broadcasts and what `handleCustomMessage` makes of one it receives. */
module Gossip {
  import opened Wrappers
  import opened Model

  /** The payload `broadcastCustomization` sends: name, level and gradient. */
  datatype Announcement = Announcement(name: string, level: string, gradient: Option<Gradient>)

  /** An incoming transport message after parsing. In an `Announce`
      message an empty string stands for a missing or falsy field and
      `None` for a missing or falsy `senderId`; every other message type,
      and every payload that does not parse, is `Unrelated`. */
  datatype Message =
    | Announce(senderId: Option<Id>, name: string, level: string, gradient: Option<Gradient>)
    | Unrelated

  /** An announcement as it arrives. The payload itself carries no sender
      id; `sender` is the one the host's transport is assumed to add, and
      `None` when it adds none. */
  function Deliver(a: Announcement, sender: Option<Id>): Message {
    Announce(sender, a.name, a.level, a.gradient)
  }

  /** The record stored for a sender: the announced name, else the sender's
      registry name, else `Guest`; the announced level, else `Level 1`; the
      announced gradient as it is, unchecked. */
  function RemoteRecord(sender: Id, name: string, level: string, gradient: Option<Gradient>, players: seq<Entry>): (r: Remote)
    ensures r.name != "" && r.level != "" && r.gradient == gradient
    ensures name != "" ==> r.name == name
    ensures level != "" ==> r.level == level
    ensures level == "" ==> r.level == "Level 1"
    ensures name == "" && Lookup(players, sender).None? ==> r.name == "Guest"
    ensures name == "" && Lookup(players, sender).Some? ==>
      r.name == (if Lookup(players, sender).value.userName != "" then Lookup(players, sender).value.userName else "Guest")
  {
    var fallback := match Lookup(players, sender)
      case Some(p) => if p.userName != "" then p.userName else "Guest"
      case None => "Guest";
    Remote(if name != "" then name else fallback,
           if level != "" then level else "Level 1",
           gradient)
  }

  /** Whether `handleCustomMessage` acts on a message. */
  predicate Accepted(msg: Message) {
    msg.Announce? && msg.senderId.Some?
  }

  /** `handleCustomMessage`'s effect on `remoteCustomizations`: an accepted
      message overwrites the sender's record; anything else is ignored. */
  function ApplyMessage(remote: map<Id, Remote>, msg: Message, players: seq<Entry>): (r: map<Id, Remote>)
    ensures !Accepted(msg) ==> r == remote
    ensures Accepted(msg) ==> r.Keys == remote.Keys + {msg.senderId.value}
    ensures Accepted(msg) ==> forall id :: id in remote && id != msg.senderId.value ==> r[id] == remote[id]
    ensures Accepted(msg) ==>
      r[msg.senderId.value] == RemoteRecord(msg.senderId.value, msg.name, msg.level, msg.gradient, players)
  {
    if Accepted(msg) then
      remote[msg.senderId.value := RemoteRecord(msg.senderId.value, msg.name, msg.level, msg.gradient, players)]
    else remote
  }

  /** Last write wins: a later announcement from the same sender leaves no
      trace of an earlier one. */
  lemma LastWriteWins(remote: map<Id, Remote>, first: Message, second: Message, players: seq<Entry>)
    requires Accepted(first) && Accepted(second) && first.senderId == second.senderId
    ensures ApplyMessage(ApplyMessage(remote, first, players), second, players) == ApplyMessage(remote, second, players)
  {
  }

  /** Announcements from different senders do not interfere. */
  lemma DistinctSendersCommute(remote: map<Id, Remote>, a: Message, b: Message, players: seq<Entry>)
    requires Accepted(a) && Accepted(b) && a.senderId != b.senderId
    ensures ApplyMessage(ApplyMessage(remote, a, players), b, players) == ApplyMessage(ApplyMessage(remote, b, players), a, players)
  {
  }

  /** What a client broadcasts is what its peers store for it, whenever the
      name and level it announces are non-empty. */
  lemma AnnouncementRoundTrip(remote: map<Id, Remote>, a: Announcement, sender: Id, players: seq<Entry>)
    requires a.name != "" && a.level != ""
    ensures ApplyMessage(remote, Deliver(a, Some(sender)), players)[sender] == Remote(a.name, a.level, a.gradient)
  {
  }
}
