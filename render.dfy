/** The text substitution the hooked `PIXI.Text.prototype.updateText`
    performs before delegating to the original renderer. */
module Render {
  import opened Text
  import opened Model

  /** The name drawn on the canvas: nickname, else the local custom name for
      the local player while active, else the real name. Peer names are not
      used here. */
  function CanvasName(ov: Overrides, host: Host, id: Id, p: Player): (r: string)
    ensures HasNick(ov, id) ==> r == ov.nicknames[id]
    ensures !HasNick(ov, id) && id == host.myId && ov.nameActive ==> r == ov.customName
    ensures !HasNick(ov, id) && !(id == host.myId && ov.nameActive) ==> r == p.userName
  {
    if HasNick(ov, id) then ov.nicknames[id]
    else if id == host.myId && ov.nameActive then ov.customName
    else p.userName
  }

  /** One loop iteration: replace every occurrence of the player's real name
      when the text contains it and the drawn name differs. */
  function CanvasStep(text: string, ov: Overrides, host: Host, e: Entry): (r: string)
    ensures !Contains(text, e.player.userName) ==> r == text
  {
    var u := e.player.userName;
    if u == [] then text
    else
      var d := CanvasName(ov, host, e.id, e.player);
      if Contains(text, u) && d != u then ReplaceAll(text, u, d) else text
  }

  /** A named entry's step replaces every occurrence of its real name by the
      drawn name: the text split on the real name, joined with the drawn
      name. */
  lemma CanvasStepReplacesEveryOccurrence(text: string, ov: Overrides, host: Host, e: Entry)
    requires e.player.userName != []
    ensures CanvasStep(text, ov, host, e) ==
            Join(SplitOnPattern(text, e.player.userName), CanvasName(ov, host, e.id, e.player))
  {
    var u := e.player.userName;
    var d := CanvasName(ov, host, e.id, e.player);
    if Contains(text, u) && d != u {
      ReplaceAllIsJoinOfSplit(text, u, d);
    } else if Contains(text, u) {
      JoinSplitOnPattern(text, u);
    } else {
      assert SplitOnPattern(text, u) == [text];
    }
  }

  /** The loop over the registry, each step seeing the previous one's text. */
  function CanvasText(text: string, ov: Overrides, host: Host, players: seq<Entry>): string
    decreases |players|
  {
    if players == [] then text
    else CanvasText(CanvasStep(text, ov, host, players[0]), ov, host, players[1..])
  }

  /** The hook's loop: rewrites `this.text` player by player. */
  method UpdateText(text: string, ov: Overrides, host: Host) returns (r: string)
    ensures r == CanvasText(text, ov, host, host.players)
  {
    r := text;
    var i := 0;
    while i < |host.players|
      invariant 0 <= i <= |host.players|
      invariant CanvasText(r, ov, host, host.players[i..]) == CanvasText(text, ov, host, host.players)
    {
      assert host.players[i..][1..] == host.players[i + 1..];
      r := CanvasStep(r, ov, host, host.players[i]);
      i := i + 1;
    }
  }

  /** Text naming no player is drawn unchanged. */
  lemma {:induction false} CanvasTextWithoutNames(text: string, ov: Overrides, host: Host, players: seq<Entry>)
    requires forall k :: 0 <= k < |players| && players[k].player.userName != [] ==>
      !Contains(text, players[k].player.userName)
    ensures CanvasText(text, ov, host, players) == text
    decreases |players|
  {
    if players != [] {
      CanvasTextWithoutNames(text, ov, host, players[1..]);
    }
  }

  /** With no nickname set and the custom name switched off, nothing
      is substituted on the canvas. */
  lemma {:induction false} CanvasTextWithoutOverrides(text: string, ov: Overrides, host: Host, players: seq<Entry>)
    requires !ov.nameActive
    requires forall k :: 0 <= k < |players| ==> !HasNick(ov, players[k].id)
    ensures CanvasText(text, ov, host, players) == text
    decreases |players|
  {
    if players != [] {
      CanvasTextWithoutOverrides(text, ov, host, players[1..]);
    }
  }
}
