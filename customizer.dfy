/** The override state and the chat-command wrapper installed over
    `commandhandle`, plus the receiving side of the peer protocol. */
module Customizer {
  import opened Wrappers
  import opened Text
  import opened Numbers
  import opened Model
  import opened Registry
  import opened Presets
  import opened Arguments
  import opened Visibility
  import opened Gossip

  /** Why a command was refused; each leaves the state unchanged. */
  datatype Reason =
    | NameLength | LevelRange | NickUsage | NickTooLong | PlayerNotFound
    | MessageUsage | GradientUsage | GradientBounds

  /** What the wrapper did with a chat line. `Delegate` carries the line
      handed, unchanged, to the original handler. */
  datatype Outcome = Handled | Rejected(reason: Reason) | Delegate(line: string)

  /** Outbound effects, in the order they happen: a `bonk_customizer`
      broadcast, a `bonk_nick` notice, a `bonk_pm` message, and a request for
      a reconciliation pass (`updateAllDOM`). */
  datatype Effect =
    | Broadcast(announcement: Announcement)
    | NickNotice(target: Id, nickname: string)
    | PrivateMessage(target: Id, sender: Id, senderName: string, content: string)
    | Refresh

  /** The command a chat line selects, tested in the wrapper's order; the
      argument is the text after the command's prefix. */
  datatype Command =
    | SetName(arg: string) | ToggleName | SetLevel(arg: string) | Nick(arg: string)
    | PrivateMsg(arg: string) | SetGradient(arg: string) | Info | Other

  /** The dispatch order of the wrapper's `startsWith` tests. The prefixes
      are mutually exclusive, so each one alone decides the command, with
      the rest of the line as its argument, whatever the order of the
      tests; a line matching none of them is no command. */
  function Route(line: string): (c: Command)
    ensures "/name " <= line ==> c == SetName(line[6..])
    ensures line == "/name" ==> c == ToggleName
    ensures "/level " <= line ==> c == SetLevel(line[7..])
    ensures "/nick " <= line ==> c == Nick(line[6..])
    ensures "/m " <= line ==> c == PrivateMsg(line[3..])
    ensures "/gradient " <= line ==> c == SetGradient(line[10..])
    ensures line == "/info" ==> c == Info
    ensures c.Other? <==> (!("/name " <= line) && line != "/name" && !("/level " <= line) &&
      !("/nick " <= line) && !("/m " <= line) && !("/gradient " <= line) && line != "/info")
  {
    assert "/name " <= line ==> line[1] == 'n' && line[2] == 'a' && |line| >= 6;
    assert line == "/name" ==> line[1] == 'n' && line[2] == 'a' && |line| == 5;
    assert "/level " <= line ==> line[1] == 'l';
    assert "/nick " <= line ==> line[1] == 'n' && line[2] == 'i';
    assert "/m " <= line ==> line[1] == 'm';
    assert "/gradient " <= line ==> line[1] == 'g';
    assert line == "/info" ==> line[1] == 'i';
    if "/name " <= line then SetName(line[6..])
    else if line == "/name" then ToggleName
    else if "/level " <= line then SetLevel(line[7..])
    else if "/nick " <= line then Nick(line[6..])
    else if "/m " <= line then PrivateMsg(line[3..])
    else if "/gradient " <= line then SetGradient(line[10..])
    else if line == "/info" then Info
    else Other
  }

  /** A gradient `currentGradient` may hold: a preset, or a custom gradient
      within the command's bounds. */
  predicate StorableGradient(g: Gradient) {
    IsPreset(g) || (2 <= |g.colors| <= 6 && 10 <= g.speed <= 1000)
  }

  /** What `/nick` decides: a usage error (fewer than two words), a too
      long nickname (over 20 characters), an unknown player, or the
      nickname to set for the first player whose name contains the first
      word, ignoring case. */
  datatype NickDecision = NickRefused(reason: Reason) | NickSet(id: Id, nickname: string)

  function DecideNick(arg: string, players: seq<Entry>): (r: NickDecision)
    ensures r.NickRefused? ==> r.reason in {NickUsage, NickTooLong, PlayerNotFound}
    ensures r.NickSet? ==> 1 <= |r.nickname| <= 20
  {
    match TwoWordArgs(arg)
    case None => NickRefused(NickUsage)
    case Some((name, nick)) =>
      if |nick| > 20 then NickRefused(NickTooLong)
      else match FirstMatch(players, name)
        case None => NickRefused(PlayerNotFound)
        case Some(k) => NickSet(players[k].id, nick)
  }

  /** Each outcome of `/nick` and exactly when it happens. */
  lemma DecideNickCases(arg: string, players: seq<Entry>)
    ensures var r := DecideNick(arg, players);
      && (r == NickRefused(NickUsage) <==> TwoWordArgs(arg).None?)
      && (r == NickRefused(NickTooLong) <==> TwoWordArgs(arg).Some? && |TwoWordArgs(arg).value.1| > 20)
      && (r.NickSet? <==> (TwoWordArgs(arg).Some? && |TwoWordArgs(arg).value.1| <= 20 &&
                           FirstMatch(players, TwoWordArgs(arg).value.0).Some?))
      && (r.NickSet? ==> (r.nickname == TwoWordArgs(arg).value.1 &&
                          r.id == players[FirstMatch(players, TwoWordArgs(arg).value.0).value].id))
  {
  }

  /** `/nick`'s checks as the wrapper runs them, with the registry search. */
  method NickDecisionOf(arg: string, players: seq<Entry>) returns (d: NickDecision)
    ensures d == DecideNick(arg, players)
  {
    var parts := TwoWordArgs(arg);
    if parts.None? {
      d := NickRefused(NickUsage);
    } else if |parts.value.1| > 20 {
      d := NickRefused(NickTooLong);
    } else {
      var playerId := FindPlayerIdByName(players, parts.value.0);
      if playerId.None? {
        d := NickRefused(PlayerNotFound);
      } else {
        d := NickSet(playerId.value, parts.value.1);
      }
    }
  }

  /** What `/m` decides: a usage error, an unknown player, or the target and
      text of the message. Unlike `/nick`, the text has no length limit. */
  datatype MessageDecision = MessageRefused(reason: Reason) | MessageTo(target: Id, content: string)

  function DecideMessage(arg: string, players: seq<Entry>): (r: MessageDecision)
    ensures r == MessageRefused(MessageUsage) <==> TwoWordArgs(arg).None?
    ensures r.MessageTo? <==> TwoWordArgs(arg).Some? && FirstMatch(players, TwoWordArgs(arg).value.0).Some?
    ensures r.MessageRefused? ==> r.reason in {MessageUsage, PlayerNotFound}
    ensures r.MessageTo? ==> (r.content == TwoWordArgs(arg).value.1 && r.content != [] &&
                              r.target == players[FirstMatch(players, TwoWordArgs(arg).value.0).value].id)
  {
    match TwoWordArgs(arg)
    case None => MessageRefused(MessageUsage)
    case Some((name, text)) =>
      match FirstMatch(players, name)
      case None => MessageRefused(PlayerNotFound)
      case Some(k) => MessageTo(players[k].id, text)
  }

  /** `/m`'s checks as the wrapper runs them, with the registry search. */
  method MessageDecisionOf(arg: string, players: seq<Entry>) returns (d: MessageDecision)
    ensures d == DecideMessage(arg, players)
  {
    var parts := TwoWordArgs(arg);
    if parts.None? {
      d := MessageRefused(MessageUsage);
    } else {
      var playerId := FindPlayerIdByName(players, parts.value.0);
      if playerId.None? {
        d := MessageRefused(PlayerNotFound);
      } else {
        d := MessageTo(playerId.value, parts.value.1);
      }
    }
  }

  /** What `/gradient` decides: the trimmed argument, lower-cased, selects a
      preset; otherwise it is parsed as a comma list whose colours go
      through `parseColor`. */
  datatype GradientDecision = GradientRefused(reason: Reason) | Store(g: Gradient)

  function DecideGradient(arg: string, cssAccepts: string -> bool): (r: GradientDecision)
    ensures Preset(ToLower(Trim(arg))).Some? ==> r == Store(Preset(ToLower(Trim(arg))).value)
    ensures Preset(ToLower(Trim(arg))).None? ==> (
      (r == GradientRefused(GradientUsage) <==> ',' !in Trim(arg)) &&
      (r.Store? <==> ParseGradientArgs(Trim(arg)).Custom?))
    ensures Preset(ToLower(Trim(arg))).None? && ParseGradientArgs(Trim(arg)).Custom? ==>
      var c := ParseGradientArgs(Trim(arg));
      r == Store(Gradient(ParseColors(c.colors, cssAccepts), c.speed))
    ensures r.GradientRefused? ==> r.reason in {GradientUsage, GradientBounds}
    ensures r.Store? ==> StorableGradient(r.g)
  {
    var input := Trim(arg);
    match Preset(ToLower(input))
    case Some(g) => Store(g)
    case None =>
      match ParseGradientArgs(input)
      case Usage => GradientRefused(GradientUsage)
      case Invalid => GradientRefused(GradientBounds)
      case Custom(colors, speed) => Store(Gradient(ParseColors(colors, cssAccepts), speed))
  }

  /** The level label is `Level n` for some n in 0..9999. */
  ghost predicate LevelOk(level: string) {
    exists n: nat :: n <= 9999 && level == LevelLabel(n)
  }

  /** A stored gradient, if any, is storable. */
  ghost predicate GradientOk(g: Option<Gradient>) {
    g.Some? ==> StorableGradient(g.value)
  }

  /** Every nickname has 1..20 characters. */
  ghost predicate NicknamesOk(nicknames: map<Id, string>) {
    forall id :: id in nicknames ==> 1 <= |nicknames[id]| <= 20
  }

  /** The six module-level variables, `CUSTOM_NAME`, `CUSTOM_LEVEL`,
      `isNameActive`, `currentGradient`, `nicknames` and
      `remoteCustomizations`, with the effects performed so far. */
  datatype State = State(
    customName: string,
    customLevel: string,
    nameActive: bool,
    gradient: Option<Gradient>,
    nicknames: map<Id, string>,
    remote: map<Id, Remote>,
    outbox: seq<Effect>)
  {
    /** The overrides the display rules read. */
    function View(): Overrides {
      Overrides(customName, customLevel, nameActive, gradient, nicknames, remote)
    }

    /** What `broadcastCustomization` sends in this state. */
    function Current(): Announcement {
      Announcement(customName, customLevel, gradient)
    }
  }

  /** What the commands guarantee about the local state: the name has
      1..20 characters, the level label is `Level n` for n in 0..9999, a
      stored gradient is storable, and every nickname has 1..20 characters.
      Peer records are stored unchecked. */
  ghost predicate StateOk(st: State) {
    1 <= |st.customName| <= 20 && LevelOk(st.customLevel) &&
    GradientOk(st.gradient) && NicknamesOk(st.nicknames)
  }

  /** The initial custom name, character for character as the script's
      text decodes: each intended star is stored as the three characters
      U+00E2 U+02DC U+2026 (a UTF-8 star read back as Windows-1252). */
  const InitialName: string := "\U{E2}\U{2DC}\U{2026}Custom\U{E2}\U{2DC}\U{2026}"

  /** The state at script start. */
  const Initial: State := State(InitialName, "Level 999", true, None, map[], map[], [])

  /** The state a command leaves and what the wrapper reports. */
  datatype Step = Step(state: State, outcome: Outcome)

  /** `/name <text>`: accepted exactly when the trimmed text has 1..20
      characters; then it becomes the custom name and is switched on, and a
      broadcast and a reconciliation pass follow. */
  function SetNameStep(st: State, arg: string): (r: Step)
    ensures r.outcome == Handled <==> 1 <= |Trim(arg)| <= 20
    ensures r.outcome == Handled ==>
      r.state == st.(customName := Trim(arg), nameActive := true,
        outbox := st.outbox + [Broadcast(Announcement(Trim(arg), st.customLevel, st.gradient)), Refresh])
    ensures r.outcome != Handled ==> r == Step(st, Rejected(NameLength))
    ensures StateOk(st) ==> StateOk(r.state)
  {
    var name := Trim(arg);
    if 0 < |name| <= 20 then
      var named := st.(customName := name, nameActive := true);
      Step(named.(outbox := named.outbox + [Broadcast(named.Current()), Refresh]), Handled)
    else Step(st, Rejected(NameLength))
  }

  /** Bare `/name`: flips whether the custom name is shown and broadcasts;
      no reconciliation pass is requested. */
  function ToggleNameStep(st: State): (r: Step)
    ensures r.outcome == Handled
    ensures r.state.nameActive == !st.nameActive
    ensures r.state.outbox == st.outbox + [Broadcast(st.Current())]
    ensures r.state.(nameActive := st.nameActive, outbox := st.outbox) == st
    ensures StateOk(st) ==> StateOk(r.state)
  {
    var flipped := st.(nameActive := !st.nameActive);
    Step(flipped.(outbox := flipped.outbox + [Broadcast(flipped.Current())]), Handled)
  }

  /** `/level <n>`: accepted exactly when `parseInt` gives n in 0..9999;
      then the label becomes `Level n`, and a broadcast and a pass follow. */
  function SetLevelStep(st: State, arg: string): (r: Step)
    ensures r.outcome == Handled <==> LevelArg(arg).Some?
    ensures r.outcome == Handled ==>
      r.state == st.(customLevel := LevelLabel(LevelArg(arg).value),
        outbox := st.outbox + [Broadcast(Announcement(st.customName, LevelLabel(LevelArg(arg).value), st.gradient)), Refresh])
    ensures r.outcome != Handled ==> r == Step(st, Rejected(LevelRange))
    ensures StateOk(st) ==> StateOk(r.state)
  {
    match LevelArg(arg)
    case Some(n) =>
      var leveled := st.(customLevel := LevelLabel(n));
      Step(leveled.(outbox := leveled.outbox + [Broadcast(leveled.Current()), Refresh]), Handled)
    case None => Step(st, Rejected(LevelRange))
  }

  /** Carrying out a `/nick` decision: the nickname is stored and a notice
      sent; a refusal changes nothing. */
  function ApplyNickDecision(st: State, d: NickDecision): (r: Step)
    ensures d.NickSet? ==> r == Step(st.(nicknames := st.nicknames[d.id := d.nickname],
      outbox := st.outbox + [NickNotice(d.id, d.nickname)]), Handled)
    ensures d.NickRefused? ==> r == Step(st, Rejected(d.reason))
    ensures StateOk(st) && (d.NickSet? ==> 1 <= |d.nickname| <= 20) ==> StateOk(r.state)
  {
    match d
    case NickRefused(reason) => Step(st, Rejected(reason))
    case NickSet(id, nick) =>
      Step(st.(nicknames := st.nicknames[id := nick], outbox := st.outbox + [NickNotice(id, nick)]), Handled)
  }

  /** `/nick <player> <nickname>`: the `DecideNick` decision, carried out. */
  function NickStep(st: State, arg: string, players: seq<Entry>): (r: Step)
    ensures r.outcome == Handled <==> DecideNick(arg, players).NickSet?
    ensures r.state.(nicknames := st.nicknames, outbox := st.outbox) == st
    ensures StateOk(st) ==> StateOk(r.state)
  {
    ApplyNickDecision(st, DecideNick(arg, players))
  }

  /** `/m <player> <message>`: the message `DecideMessage` selects is sent
      under the local player's `getDisplayName`; no override changes. */
  function MessageStep(st: State, arg: string, host: Host): (r: Step)
    ensures r.state.(outbox := st.outbox) == st
    ensures DecideMessage(arg, host.players).MessageTo? ==>
      var d := DecideMessage(arg, host.players);
      r == Step(st.(outbox := st.outbox + [PrivateMessage(d.target, host.myId, GetDisplayName(st.View(), host, host.myId), d.content)]), Handled)
    ensures DecideMessage(arg, host.players).MessageRefused? ==>
      r == Step(st, Rejected(DecideMessage(arg, host.players).reason))
  {
    match DecideMessage(arg, host.players)
    case MessageRefused(reason) => Step(st, Rejected(reason))
    case MessageTo(target, content) =>
      Step(st.(outbox := st.outbox + [PrivateMessage(target, host.myId, GetDisplayName(st.View(), host, host.myId), content)]), Handled)
  }

  /** `/gradient ...`: the gradient `DecideGradient` selects is stored, then
      broadcast, and a pass follows; a refusal changes nothing. */
  function GradientStep(st: State, arg: string, cssAccepts: string -> bool): (r: Step)
    ensures r.outcome == Handled <==> DecideGradient(arg, cssAccepts).Store?
    ensures DecideGradient(arg, cssAccepts).Store? ==>
      var g := DecideGradient(arg, cssAccepts).g;
      r.state == st.(gradient := Some(g),
        outbox := st.outbox + [Broadcast(Announcement(st.customName, st.customLevel, Some(g))), Refresh])
    ensures DecideGradient(arg, cssAccepts).GradientRefused? ==>
      r == Step(st, Rejected(DecideGradient(arg, cssAccepts).reason))
    ensures StateOk(st) ==> StateOk(r.state)
  {
    match DecideGradient(arg, cssAccepts)
    case Store(g) =>
      var stored := st.(gradient := Some(g));
      Step(stored.(outbox := stored.outbox + [Broadcast(stored.Current()), Refresh]), Handled)
    case GradientRefused(reason) => Step(st, Rejected(reason))
  }

  /** The wrapper over `commandhandle`: the routed command's step; `/info`
      only shows help, and a line that is no command goes to the original
      handler unchanged, with nothing changed. */
  function Exec(st: State, line: string, host: Host, cssAccepts: string -> bool): (r: Step)
    ensures Route(line).SetName? ==> r == SetNameStep(st, Route(line).arg)
    ensures Route(line) == ToggleName ==> r == ToggleNameStep(st)
    ensures Route(line).SetLevel? ==> r == SetLevelStep(st, Route(line).arg)
    ensures Route(line).Nick? ==> r == NickStep(st, Route(line).arg, host.players)
    ensures Route(line).PrivateMsg? ==> r == MessageStep(st, Route(line).arg, host)
    ensures Route(line).SetGradient? ==> r == GradientStep(st, Route(line).arg, cssAccepts)
  {
    match Route(line)
    case SetName(arg) => SetNameStep(st, arg)
    case ToggleName => ToggleNameStep(st)
    case SetLevel(arg) => SetLevelStep(st, arg)
    case Nick(arg) => NickStep(st, arg, host.players)
    case PrivateMsg(arg) => MessageStep(st, arg, host)
    case SetGradient(arg) => GradientStep(st, arg, cssAccepts)
    case Info => Step(st, Handled)
    case Other => Step(st, Delegate(line))
  }

  /** Every command keeps the invariant. */
  lemma ExecKeepsInvariant(st: State, line: string, host: Host, cssAccepts: string -> bool)
    requires StateOk(st)
    ensures StateOk(Exec(st, line, host, cssAccepts).state)
  {
  }

  /** Exactly the lines that are no command reach the original handler. */
  lemma ExecDelegatesOnlyOther(st: State, line: string, host: Host, cssAccepts: string -> bool)
    ensures Exec(st, line, host, cssAccepts).outcome.Delegate? <==> Route(line).Other?
  {
    var r := Exec(st, line, host, cssAccepts);
    match Route(line)
    case SetName(arg) => assert r.outcome == Handled || r.outcome == Rejected(NameLength);
    case SetLevel(arg) => assert r.outcome == Handled || r.outcome == Rejected(LevelRange);
    case Nick(arg) => assert r == ApplyNickDecision(st, DecideNick(arg, host.players));
    case PrivateMsg(arg) => assert r.outcome == Handled || r.outcome.Rejected?;
    case SetGradient(arg) => assert r.outcome == Handled || r.outcome.Rejected?;
    case _ =>
  }

  /** A line that is no command reaches the original handler unchanged,
      with the state untouched; `/info` only shows help. */
  lemma ExecPassesOtherLines(st: State, line: string, host: Host, cssAccepts: string -> bool)
    ensures Route(line).Other? ==> Exec(st, line, host, cssAccepts) == Step(st, Delegate(line))
    ensures Route(line).Info? ==> Exec(st, line, host, cssAccepts) == Step(st, Handled)
  {
  }

  /** The script starts in a state that meets the invariant. */
  lemma InitialOk()
    ensures StateOk(Initial)
  {
    assert DecimalString(999) == "999";
    assert LevelLabel(999) == "Level 999";
  }

  /** `/name <name>` for a trimmed name of 1..20 characters sets and shows
      it and touches no level. */
  lemma NameCommandSets(st: State, name: string, host: Host, cssAccepts: string -> bool)
    requires IsTrimmed(name) && 1 <= |name| <= 20
    ensures var r := Exec(st, "/name " + name, host, cssAccepts);
      r.outcome == Handled && r.state.customName == name && r.state.nameActive &&
      r.state.customLevel == st.customLevel
  {
    var line := "/name " + name;
    assert "/name " <= line && line[6..] == name;
    TrimOfTrimmed(name);
  }

  /** `/level <n>` with n written in decimal and in 0..9999 sets the label
      `Level n` and touches no name. */
  lemma LevelCommandSets(st: State, n: nat, host: Host, cssAccepts: string -> bool)
    requires n <= 9999
    ensures var r := Exec(st, "/level " + DecimalString(n), host, cssAccepts);
      r.outcome == Handled && r.state.customLevel == LevelLabel(n) &&
      r.state.customName == st.customName && r.state.nameActive == st.nameActive
  {
    var line := "/level " + DecimalString(n);
    assert "/level " <= line && line[7..] == DecimalString(n);
    LevelArgOfNumeral(n);
  }

  /** `/name <name>` followed by `/level <n>` (for instance `/name Star`
      then `/level 42`) leaves that name, shown, and the label `Level n`,
      whatever the state before. */
  lemma NameThenLevel(st: State, name: string, n: nat, host: Host, cssAccepts: string -> bool)
    requires IsTrimmed(name) && 1 <= |name| <= 20 && n <= 9999
    ensures var s1 := Exec(st, "/name " + name, host, cssAccepts);
      var s2 := Exec(s1.state, "/level " + DecimalString(n), host, cssAccepts);
      s1.outcome == Handled && s2.outcome == Handled &&
      s2.state.customName == name && s2.state.nameActive && s2.state.customLevel == LevelLabel(n)
  {
    NameCommandSets(st, name, host, cssAccepts);
    var s1 := Exec(st, "/name " + name, host, cssAccepts);
    LevelCommandSets(s1.state, n, host, cssAccepts);
  }

  class Customizer {
    var customName: string
    var customLevel: string
    var nameActive: bool
    var currentGradient: Option<Gradient>
    var nicknames: map<Id, string>
    var remote: map<Id, Remote>
    var outbox: seq<Effect>

    /** The fields as one value. */
    function St(): State
      reads this
    {
      State(customName, customLevel, nameActive, currentGradient, nicknames, remote, outbox)
    }

    ghost predicate Valid()
      reads this
    {
      StateOk(St())
    }

    /** The initial configuration. */
    constructor ()
      ensures Valid() && St() == Initial
    {
      customName := InitialName;
      customLevel := "Level 999";
      nameActive := true;
      currentGradient := None;
      nicknames := map[];
      remote := map[];
      outbox := [];
      InitialOk();
    }

    /** `/name <text>`. */
    method SetCustomName(arg: string) returns (o: Outcome)
      requires Valid()
      modifies this`customName, this`nameActive, this`outbox
      ensures Valid()
      ensures Step(St(), o) == SetNameStep(old(St()), arg)
    {
      var newName := Trim(arg);
      if 0 < |newName| <= 20 {
        customName := newName;
        nameActive := true;
        outbox := outbox + [Broadcast(St().Current()), Refresh];
        o := Handled;
      } else {
        o := Rejected(NameLength);
      }
    }

    /** Bare `/name`. */
    method ToggleCustomName() returns (o: Outcome)
      requires Valid()
      modifies this`nameActive, this`outbox
      ensures Valid()
      ensures Step(St(), o) == ToggleNameStep(old(St()))
    {
      nameActive := !nameActive;
      outbox := outbox + [Broadcast(St().Current())];
      o := Handled;
    }

    /** `/level <n>`. */
    method SetCustomLevel(arg: string) returns (o: Outcome)
      requires Valid()
      modifies this`customLevel, this`outbox
      ensures Valid()
      ensures Step(St(), o) == SetLevelStep(old(St()), arg)
    {
      var num := LevelArg(arg);
      if num.Some? {
        customLevel := LevelLabel(num.value);
        outbox := outbox + [Broadcast(St().Current()), Refresh];
        o := Handled;
      } else {
        o := Rejected(LevelRange);
      }
    }

    /** `/nick <player> <nickname>`, with the registry search. */
    method SetNickname(arg: string, players: seq<Entry>) returns (o: Outcome)
      requires Valid()
      modifies this`nicknames, this`outbox
      ensures Valid()
      ensures Step(St(), o) == NickStep(old(St()), arg, players)
    {
      var d := NickDecisionOf(arg, players);
      o := ApplyNick(d);
    }

    /** Carries out a `/nick` decision. */
    method ApplyNick(d: NickDecision) returns (o: Outcome)
      requires Valid() && (d.NickSet? ==> 1 <= |d.nickname| <= 20)
      modifies this`nicknames, this`outbox
      ensures Valid()
      ensures Step(St(), o) == ApplyNickDecision(old(St()), d)
    {
      match d
      case NickRefused(reason) =>
        o := Rejected(reason);
      case NickSet(id, nick) =>
        nicknames, outbox := nicknames[id := nick], outbox + [NickNotice(id, nick)];
        o := Handled;
    }

    /** `/m <player> <message>`, with the registry search. */
    method SendMessage(arg: string, host: Host) returns (o: Outcome)
      requires Valid()
      modifies this`outbox
      ensures Valid()
      ensures Step(St(), o) == MessageStep(old(St()), arg, host)
    {
      var d := MessageDecisionOf(arg, host.players);
      match d
      case MessageRefused(reason) =>
        o := Rejected(reason);
      case MessageTo(target, content) =>
        outbox := outbox + [PrivateMessage(target, host.myId, GetDisplayName(St().View(), host, host.myId), content)];
        o := Handled;
    }

    /** `/gradient ...`. */
    method SetGradient(arg: string, cssAccepts: string -> bool) returns (o: Outcome)
      requires Valid()
      modifies this`currentGradient, this`outbox
      ensures Valid()
      ensures Step(St(), o) == GradientStep(old(St()), arg, cssAccepts)
    {
      var d := DecideGradient(arg, cssAccepts);
      match d
      case Store(g) =>
        currentGradient := Some(g);
        outbox := outbox + [Broadcast(St().Current()), Refresh];
        o := Handled;
      case GradientRefused(reason) =>
        o := Rejected(reason);
    }

    /** The wrapper over `commandhandle`. */
    method CommandHandle(line: string, host: Host, cssAccepts: string -> bool) returns (o: Outcome)
      requires Valid()
      modifies this`customName, this`nameActive, this`customLevel
      modifies this`currentGradient, this`nicknames, this`outbox
      ensures Valid()
      ensures Step(St(), o) == Exec(old(St()), line, host, cssAccepts)
    {
      match Route(line)
      case SetName(arg) => o := SetCustomName(arg);
      case ToggleName => o := ToggleCustomName();
      case SetLevel(arg) => o := SetCustomLevel(arg);
      case Nick(arg) => o := SetNickname(arg, host.players);
      case PrivateMsg(arg) => o := SendMessage(arg, host);
      case SetGradient(arg) => o := SetGradient(arg, cssAccepts);
      case Info => o := Handled;
      case Other => o := Delegate(line);
    }

    /** `handleCustomMessage`: an accepted announcement overwrites the
        sender's record and requests a reconciliation pass; anything else
        changes nothing. */
    method HandleCustomMessage(msg: Message, players: seq<Entry>)
      requires Valid()
      modifies this`remote, this`outbox
      ensures Valid()
      ensures remote == ApplyMessage(old(remote), msg, players)
      ensures outbox == old(outbox) + (if Accepted(msg) then [Refresh] else [])
    {
      if Accepted(msg) {
        remote := ApplyMessage(remote, msg, players);
        outbox := outbox + [Refresh];
      }
    }
  }
}
