# Rie's Mod: a verified model of the cosmetic-override core

Rie's Mod is a userscript for the bonk.io game client. It keeps a local
presentation identity for the player: a custom name, a custom level label and
an animated colour gradient, plus nicknames the player gives to others. It
shows these in two places. One is the game's canvas text, through a hook on
`PIXI.Text.prototype.updateText`. The other is the lobby and in-game DOM,
through a reconciliation pass (`updateAllDOM`) that patches a fixed catalog
of selectors and marks each element so that it is patched only once. The
script adds chat commands (`/name`, `/level`, `/nick`, `/m`, `/gradient`,
`/info`) on top of the existing `commandhandle` and forwards every other
line to it. It sends its overrides to other players as `bonk_customizer`
messages and records theirs on receipt, last write wins. Owners (`ki1la`,
`khayrie`, `Il fait`) always see real levels.

The project models that core in Dafny. Its modules follow the script's
parts:

- `Text` models the JavaScript string operations the script relies on:
  `trim`, `toLowerCase`, `includes`, `split(',')`, `split(/\s+/)`, `join`,
  and a global replace of a literal pattern.
- `Numbers` models `parseInt` and the `Level n` label.
- `Model` holds the player registry (`uw.playerids`) and the override state
  as a value.
- `Registry` models `findPlayerIdByName`.
- `Presets` holds the preset table, and also the table lookup as written
  (see Findings).
- `Arguments` models argument parsing for `/level`, `/nick`, `/m` and
  `/gradient`, and `parseColor`.
- `Visibility` holds the name, level and gradient selection rules of the DOM
  pass, plus `getDisplayName`.
- `Render` models the canvas-text hook.
- `Dom` models:
  - the selector catalog;
  - `applyGradientEffect`;
  - the per-element patch and the whole pass over an array of elements;
  - `createFlowingGradient`;
  - the animation tick.
- `Gossip` models `handleCustomMessage` as a pure update of the
  remote-override map.
- `Customizer` is a class holding the six override variables and an outbox
  of outgoing effects. It has one method per command and the
  `commandhandle` wrapper.

Broadcasts, nickname notices, private messages and requests for a
reconciliation pass are not performed. They are appended to the class's
`outbox` in the order the script performs them. A command's chat
confirmation or error is its `Outcome`: `Handled`, `Rejected(reason)`, or
`Delegate(line)` for a line handed to the original handler.

## Model

| member | source | states |
|---|---|---|
| Text.SpaceRunFrom | Bonk-Commands+Rie-Mod.js:237 | the end of the whitespace run starting at an index: every character skipped is whitespace and the next one is not |
| Text.SpaceRunBefore | Bonk-Commands+Rie-Mod.js:237 | the start of the whitespace run ending at an index: every character skipped is whitespace and the previous one is not |
| Text.TrimStart | Bonk-Commands+Rie-Mod.js:237 | the result is a suffix of the input; everything removed is whitespace; the result does not start with whitespace |
| Text.TrimEnd | Bonk-Commands+Rie-Mod.js:237 | the result is a prefix of the input; everything removed is whitespace; the result does not end with whitespace |
| Text.Trim | Bonk-Commands+Rie-Mod.js:237 | the result has whitespace at neither end and is no longer than the input |
| Text.TrimRemovesOnlySpace | Bonk-Commands+Rie-Mod.js:237 | the trimmed text is an infix `s[i..j]` of the input with only whitespace before `i` and after `j`; with `Trim`'s contract, exactly the surrounding whitespace is dropped |
| Text.TrimOfTrimmed | Bonk-Commands+Rie-Mod.js:237 | trimming a string with no surrounding whitespace leaves it unchanged |
| Text.TrimIdempotent | Bonk-Commands+Rie-Mod.js:237 | trimming twice equals trimming once |
| Text.ToLower | Bonk-Commands+Rie-Mod.js:216 | same length; each character is lower-cased in place |
| Text.Contains | Bonk-Commands+Rie-Mod.js:96 | `includes` holds exactly when the pattern occurs at some index |
| Text.FindFrom | Bonk-Commands+Rie-Mod.js:97 | the first occurrence of the pattern at or after an index, or the length when there is none |
| Text.Find | Bonk-Commands+Rie-Mod.js:97 | the first occurrence of the pattern, with none before it; the length exactly when the pattern does not occur |
| Text.SplitOnPattern | Bonk-Commands+Rie-Mod.js:97 | the pieces between the occurrences of a name: at least one, and none of them contains the name |
| Text.SplitOnPatternUnfold | Bonk-Commands+Rie-Mod.js:97 | when the name occurs, the first piece is the text before its leftmost occurrence (`Find`) and the rest is split after that occurrence, so the pieces lie between the leftmost non-overlapping occurrences, as a global replace scans |
| Text.JoinSplitOnPattern | Bonk-Commands+Rie-Mod.js:97 | joining those pieces with the name gives back the text |
| Text.ReplaceAllIsJoinOfSplit | Bonk-Commands+Rie-Mod.js:97 | the global replace (the same one the DOM pass makes at line 142) is the text's pieces between occurrences joined with the replacement: every occurrence is replaced and nothing else changes |
| Text.ReplaceAllWithoutMatch | Bonk-Commands+Rie-Mod.js:97 | a global replace of a pattern that does not occur leaves the text unchanged |
| Text.ReplaceAllBySelf | Bonk-Commands+Rie-Mod.js:96-97 | replacing a name by itself leaves the text unchanged, which is why the hook skips that case |
| Text.ReplaceAllInsertsReplacement | Bonk-Commands+Rie-Mod.js:141-142 | when the name occurs, the display value stands where its first occurrence was |
| Text.IndexOf | Bonk-Commands+Rie-Mod.js:328 | the first index of the separator, or the length when it is absent |
| Text.SplitOn | Bonk-Commands+Rie-Mod.js:328 | `split(',')` yields at least one piece, and no piece contains the separator |
| Text.JoinSplitOn | Bonk-Commands+Rie-Mod.js:328 | joining the pieces with the separator gives back the input |
| Text.SplitOnCount | Bonk-Commands+Rie-Mod.js:328-329 | there are two or more pieces exactly when the separator occurs |
| Text.JoinCons | Bonk-Commands+Rie-Mod.js:280 | `join` puts exactly one separator between a first word and the joined rest |
| Text.FirstSpace | Bonk-Commands+Rie-Mod.js:274 | the first whitespace index, or the length when there is none |
| Text.CollapseWord | Bonk-Commands+Rie-Mod.js:274 | a word without whitespace is kept as it is when runs are collapsed |
| Text.SplitWhitespace | Bonk-Commands+Rie-Mod.js:274 | `split(/\s+/)` yields at least one piece, and no piece contains whitespace |
| Text.SplitWhitespaceWords | Bonk-Commands+Rie-Mod.js:274-280 | the pieces joined by single spaces are the input with every whitespace run collapsed to one space: exactly the words, in order |
| Text.SplitTrimmedWords | Bonk-Commands+Rie-Mod.js:274 | splitting a trimmed non-empty string yields only non-empty words |
| Numbers.DigitRun | Bonk-Commands+Rie-Mod.js:260 | the length of the leading run of decimal digits, and where it stops |
| Numbers.HexRun | Bonk-Commands+Rie-Mod.js:260 | the length of the leading run of hexadecimal digits, and where it stops |
| Numbers.ParseUnsigned | Bonk-Commands+Rie-Mod.js:260 | a number only when the text starts with a digit |
| Numbers.ParseInt | Bonk-Commands+Rie-Mod.js:260 | a number is produced only when the input holds a digit; otherwise the result is NaN (`None`) |
| Numbers.ParseIntSkipsLeadingSpace | Bonk-Commands+Rie-Mod.js:260 | leading whitespace never changes the result |
| Numbers.ParseIntNaN | Bonk-Commands+Rie-Mod.js:260-261 | text that, after its leading whitespace, is empty or starts with neither a digit nor a sign is NaN, which the level check rejects |
| Numbers.ParseIntSigned | Bonk-Commands+Rie-Mod.js:260-261 | `-` before a numeral gives its negation, which the level check rejects; `+` gives the numeral |
| Numbers.UnsignedOfNumeral | Bonk-Commands+Rie-Mod.js:260 | the unsigned reading of a numeral followed by a non-digit is that number |
| Numbers.SignedStart | Bonk-Commands+Rie-Mod.js:260 | after a sign the unsigned part right behind it is read, negated for `-` |
| Numbers.ParseIntHex | Bonk-Commands+Rie-Mod.js:260 | after `0x` or `0X` the leading hexadecimal digits are read in base 16; without any the result is NaN |
| Numbers.HexStart | Bonk-Commands+Rie-Mod.js:260 | text starting with `0` is read from its first character, as its unsigned part |
| Numbers.UnsignedIsParseInt | Bonk-Commands+Rie-Mod.js:260 | text starting with a digit reads as its unsigned part, so a signed value is the value of the text after the sign, negated for `-` |
| Numbers.DigitChar | Bonk-Commands+Rie-Mod.js:262 | a digit character whose value is the given digit |
| Numbers.DecimalString | Bonk-Commands+Rie-Mod.js:262 | the decimal rendering is non-empty, all digits, with no leading zero except for 0 |
| Numbers.DecimalValueOfString | Bonk-Commands+Rie-Mod.js:262 | reading the decimal rendering back gives the number |
| Numbers.ParseIntOfDecimal | Bonk-Commands+Rie-Mod.js:260-262 | `parseInt` of a number's decimal rendering returns that number (round trip) |
| Numbers.ParseIntStopsAtNonDigit | Bonk-Commands+Rie-Mod.js:260 | `parseInt` of a number's decimal rendering followed by text that starts with neither a digit nor `x` returns that number: the digits after the numeral are ignored |
| Numbers.ParseIntOfDigitStart | Bonk-Commands+Rie-Mod.js:260 | a string starting with a digit and without a `0x` prefix parses to the value of its leading digit run |
| Numbers.DigitRunStops | Bonk-Commands+Rie-Mod.js:260 | the digit run of all digits followed by a non-digit is exactly those digits |
| Numbers.LevelLabel | Bonk-Commands+Rie-Mod.js:262 | the label starts with `Level ` and has a number after it |
| Numbers.LevelLabelReadsBack | Bonk-Commands+Rie-Mod.js:262 | the text after `Level ` parses back to the level: the label holds that level's numeral |
| Numbers.LevelLabelInjective | Bonk-Commands+Rie-Mod.js:262 | different levels give different labels |
| Model.Lookup | Bonk-Commands+Rie-Mod.js:394 | a player is found exactly when the id is registered, and with unique ids it is that entry's player |
| Model.ViewerIsOwnerByEntry | Bonk-Commands+Rie-Mod.js:129 | with unique ids, the viewer is an owner exactly when the registry holds the viewer's id under an owner's name |
| Model.RealLevel | Bonk-Commands+Rie-Mod.js:152-155 | the real level is shown as a `Level ` label |
| Model.RealLevelReadsBack | Bonk-Commands+Rie-Mod.js:152-155 | the label's number is the player's level, or 1 when the level is missing (zero) |
| Registry.FirstMatchFrom | Bonk-Commands+Rie-Mod.js:217-223 | none exactly when no named player from the given index on has a lower-cased name containing the lower-cased query; otherwise the first such index |
| Registry.FindPlayerIdByName | Bonk-Commands+Rie-Mod.js:215-224 | null exactly when nobody matches; otherwise the id of the first matching player in registry order |
| Presets.Preset | Bonk-Commands+Rie-Mod.js:32-38 | a gradient exactly for the five preset names; each has 3..7 colours and a period of 10..1000 ms |
| Presets.PresetPropertyAsWritten | Bonk-Commands+Rie-Mod.js:320 | the property lookup as written is an own preset exactly for the five names, and truthy also for `constructor` and `__proto__` |
| Presets.ConstructorPassesPresetTest | Bonk-Commands+Rie-Mod.js:320-321 | `/gradient constructor` passes the preset test although no such preset exists |
| Arguments.LevelArg | Bonk-Commands+Rie-Mod.js:260-261 | accepted exactly when `parseInt` of the trimmed argument is a number in 0..9999, and that number is the result |
| Arguments.LevelArgOfNumeral | Bonk-Commands+Rie-Mod.js:260-262 | every level 0..9999 written in decimal is accepted as itself |
| Arguments.JoinStartsWithFirst | Bonk-Commands+Rie-Mod.js:280 | a joined word list starts with its first word |
| Arguments.TwoWordArgs | Bonk-Commands+Rie-Mod.js:274-280 | a usable argument has a non-empty first word without whitespace and a non-empty rest |
| Arguments.TwoWordsIffInnerSpace | Bonk-Commands+Rie-Mod.js:274-275 | `/nick` and `/m` get two or more parts exactly when the trimmed argument holds whitespace |
| Arguments.TwoWordArgsWords | Bonk-Commands+Rie-Mod.js:274-280 | the player part is the trimmed argument up to its first whitespace; the text is every later word, in order, joined by single spaces |
| Arguments.CleanArgs | Bonk-Commands+Rie-Mod.js:335 | the kept pieces are trimmed and non-empty, and there are no more of them than pieces |
| Arguments.CleanArgsUnfold | Bonk-Commands+Rie-Mod.js:335 | the first piece contributes itself trimmed, unless nothing remains of it, ahead of the rest's contribution |
| Arguments.CleanArgsConcat | Bonk-Commands+Rie-Mod.js:335 | cleaning works piece by piece, in order: cleaning a concatenation concatenates the cleaned parts |
| Arguments.CleanArgsSingle | Bonk-Commands+Rie-Mod.js:335 | one piece is kept trimmed when something remains of it, and dropped otherwise; with the previous row this fixes the whole result |
| Arguments.CleanArgsKeepsEveryPiece | Bonk-Commands+Rie-Mod.js:335 | nothing is dropped: every piece that is non-empty once trimmed is kept, trimmed |
| Arguments.CleanArgsInventsNothing | Bonk-Commands+Rie-Mod.js:335 | nothing is invented: every kept piece is some input piece, trimmed |
| Arguments.ColorsAndSpeed | Bonk-Commands+Rie-Mod.js:334-345 | a trailing numeric piece becomes the speed and is dropped from the colours, else the speed is 100; the gradient is accepted exactly when there are 2..6 colours and the speed is 10..1000 |
| Arguments.ParseGradientArgs | Bonk-Commands+Rie-Mod.js:328-345 | usage error exactly when the input has no comma; otherwise the colour/speed rule on the cleaned pieces |
| Arguments.ParseColor | Bonk-Commands+Rie-Mod.js:190-196 | the trimmed, lower-cased colour is kept when it is a `#` hex code or the CSS parser accepts it; otherwise the result is `#FFD700` |
| Arguments.ParseColors | Bonk-Commands+Rie-Mod.js:348 | one parsed colour per piece, in order |
| Visibility.ResolveName | Bonk-Commands+Rie-Mod.js:132-140 | a nickname wins, then the own custom name when active, then a remote name (the real name if that is empty), else the real name |
| Visibility.ResolveLevel | Bonk-Commands+Rie-Mod.js:129-156 | an owner viewer or owner subject gets the real level; otherwise oneself gets the custom level and a peer with a record its announced level, else the real level; an unknown other player gets the real level |
| Visibility.GradientFor | Bonk-Commands+Rie-Mod.js:143-144 | the own gradient when the name is active; otherwise a peer's announced gradient, and none for anyone without a record |
| Visibility.GetDisplayName | Bonk-Commands+Rie-Mod.js:390-395 | a nickname wins, then the remote name, then the own custom name when active, then the registry name, or `Guest` when there is none |
| Visibility.DisplayNameOrdersDiffer | Bonk-Commands+Rie-Mod.js:390-393 | with an echoed remote record for oneself, `getDisplayName` and the DOM name rule disagree, because of their different priority orders |
| Visibility.NicknameWinsEverywhere | Bonk-Commands+Rie-Mod.js:134-135 | a nickname is what both name rules show |
| Render.CanvasName | Bonk-Commands+Rie-Mod.js:89-94 | the canvas name is the nickname, else the own custom name when active, else the real name |
| Render.CanvasStep | Bonk-Commands+Rie-Mod.js:96-99 | text not containing the player's name is left unchanged |
| Render.CanvasStepReplacesEveryOccurrence | Bonk-Commands+Rie-Mod.js:87-99 | for a named player, every occurrence of the name is replaced by the canvas name: the text split on the name, joined with the canvas name |
| Render.UpdateText | Bonk-Commands+Rie-Mod.js:82-101 | the loop over the registry yields the left fold of the per-player replacement |
| Render.CanvasTextWithoutNames | Bonk-Commands+Rie-Mod.js:85-96 | text mentioning no registered name passes through the hook unchanged; nameless entries are skipped |
| Render.CanvasTextWithoutOverrides | Bonk-Commands+Rie-Mod.js:89-96 | with no nicknames and the custom name off, the hook changes nothing |
| Dom.KindOf | Bonk-Commands+Rie-Mod.js:107-122 | no kind exactly when the element matches no catalog selector; otherwise the kind of the first catalog selector it matches |
| Dom.ApplyGradientEffect | Bonk-Commands+Rie-Mod.js:64-67 | an element already animating is untouched; otherwise it is flagged and starts at progress 0 |
| Dom.PatchStep | Bonk-Commands+Rie-Mod.js:126-157 | a nameless entry changes nothing; a name element without the name is untouched, and with it gets the player's gradient handed over; a level element gets the resolved level; flags and an attached animation are kept |
| Dom.PatchStepReplacesEveryOccurrence | Bonk-Commands+Rie-Mod.js:141-142 | a name element's text becomes the text split on the real name, joined with the resolved name |
| Dom.PatchAllKeepsFlags | Bonk-Commands+Rie-Mod.js:124-158 | patching for every player keeps the processed flag and an attached animation |
| Dom.ReconcileIdempotent | Bonk-Commands+Rie-Mod.js:121-122 | a second pass changes nothing; a catalog element is marked processed; an attached animation is never restarted |
| Dom.LastNamed | Bonk-Commands+Rie-Mod.js:124-126 | the last registry entry with a non-empty name: every later entry is nameless |
| Dom.LevelLastPlayerDecides | Bonk-Commands+Rie-Mod.js:147-156 | a level element ends with the value for the last named player, because each step overwrites it |
| Dom.OwnerViewerSeesRealLevel | Bonk-Commands+Rie-Mod.js:149-155 | for an owner viewer a fresh level element shows the real level of the last named player |
| Dom.NameWithoutUsernames | Bonk-Commands+Rie-Mod.js:126-141 | a name element containing no registered name keeps its text; nameless entries are skipped |
| Dom.ProcessElement | Bonk-Commands+Rie-Mod.js:120-158 | the per-element loop yields the reconciled element |
| Dom.ReconcilePass | Bonk-Commands+Rie-Mod.js:106-161 | after the pass every element equals its reconciled form |
| Dom.FlowingGradient | Bonk-Commands+Rie-Mod.js:55-61 | one stop per colour in order at the given angle; with two or more colours the stops run from 0% to 100%, strictly increasing; a single colour gets NaN% |
| Dom.StopPercentEnds | Bonk-Commands+Rie-Mod.js:57 | the first stop is at 0% and the last at 100% |
| Dom.StopPercentIncreasing | Bonk-Commands+Rie-Mod.js:57 | stop positions strictly increase |
| Dom.Tick | Bonk-Commands+Rie-Mod.js:69-71 | a detached element is unchanged; a connected one's angle advances by one, wrapping from 359 to 0; everything else, the gradient included, is kept |
| Dom.TickImage | Bonk-Commands+Rie-Mod.js:72 | an animating element is painted with the flowing gradient of its colours at its current angle, below 360 |
| Dom.AnimationTick | Bonk-Commands+Rie-Mod.js:69-75 | one timer firing advances that element only and paints it only when it is connected |
| Gossip.RemoteRecord | Bonk-Commands+Rie-Mod.js:180-184 | an empty name falls back to the registry name or `Guest`; an empty level falls back to `Level 1`; the gradient is stored as sent |
| Gossip.ApplyMessage | Bonk-Commands+Rie-Mod.js:175-184 | an unrelated message or one without a sender changes nothing; otherwise the sender's record, with its defaults, is written and no other |
| Gossip.LastWriteWins | Bonk-Commands+Rie-Mod.js:180 | of two announcements from one sender, the later one alone decides the record |
| Gossip.DistinctSendersCommute | Bonk-Commands+Rie-Mod.js:180 | announcements from different senders commute |
| Gossip.AnnouncementRoundTrip | Bonk-Commands+Rie-Mod.js:164-184 | an announcement delivered with a sender id and non-empty fields is recorded exactly as sent |
| Customizer.Route | Bonk-Commands+Rie-Mod.js:234-363 | each prefix, or exact `/name` and `/info`, selects its command with the text after the prefix; a line goes to the original handler exactly when it matches none |
| Customizer.DecideNick | Bonk-Commands+Rie-Mod.js:273-290 | a refusal is a usage error, a too-long nickname or an unknown player; a stored nickname has 1..20 characters |
| Customizer.DecideNickCases | Bonk-Commands+Rie-Mod.js:273-290 | usage error exactly without two words; too long exactly over 20 characters; stored exactly when a player matches, and then the first match gets the joined nickname |
| Customizer.NickDecisionOf | Bonk-Commands+Rie-Mod.js:273-290 | the imperative decision with the registry search agrees with the specification |
| Customizer.DecideMessage | Bonk-Commands+Rie-Mod.js:297-310 | usage error without two words; not found without a match; otherwise the message goes to the first match |
| Customizer.MessageDecisionOf | Bonk-Commands+Rie-Mod.js:297-310 | the imperative decision with the registry search agrees with the specification |
| Customizer.DecideGradient | Bonk-Commands+Rie-Mod.js:316-350 | a preset name stores the preset; otherwise usage error without a comma, else the custom gradient, its colours parsed and its speed kept, exactly when its bounds hold; whatever is stored is storable |
| Customizer.SetNameStep | Bonk-Commands+Rie-Mod.js:236-247 | accepted exactly for 1..20 trimmed characters; then the name is set and switched on, and a broadcast and a pass follow; otherwise nothing changes; the invariant is kept |
| Customizer.ToggleNameStep | Bonk-Commands+Rie-Mod.js:248-255 | flips the active flag and adds a broadcast only |
| Customizer.SetLevelStep | Bonk-Commands+Rie-Mod.js:259-269 | accepted exactly when the argument parses to 0..9999; then the label is `Level n`, and a broadcast and a pass follow; otherwise nothing changes |
| Customizer.ApplyNickDecision | Bonk-Commands+Rie-Mod.js:290-291 | a decided nickname is stored for its player with a nickname notice; a refusal is reported and changes nothing |
| Customizer.NickStep | Bonk-Commands+Rie-Mod.js:273-294 | handled exactly when `DecideNick` sets a nickname; only the nicknames and the outbox change |
| Customizer.MessageStep | Bonk-Commands+Rie-Mod.js:297-313 | the message goes out under one's own `getDisplayName`; a refusal changes nothing; no override ever changes |
| Customizer.GradientStep | Bonk-Commands+Rie-Mod.js:316-355 | handled exactly when a gradient is decided; it is stored and broadcast and a pass follows; a refusal changes nothing |
| Customizer.Exec | Bonk-Commands+Rie-Mod.js:234-363 | each routed command runs its own step |
| Customizer.ExecKeepsInvariant | Bonk-Commands+Rie-Mod.js:234-363 | every chat line keeps the invariant on the local overrides |
| Customizer.ExecDelegatesOnlyOther | Bonk-Commands+Rie-Mod.js:363 | exactly the lines that are no command reach the original handler |
| Customizer.ExecPassesOtherLines | Bonk-Commands+Rie-Mod.js:357-363 | a line that is no command is handed over unchanged with nothing changed; `/info` changes nothing |
| Customizer.InitialOk | Bonk-Commands+Rie-Mod.js:21-26 | the initial values meet the invariant |
| Customizer.NameCommandSets | Bonk-Commands+Rie-Mod.js:236-242 | `/name` with a trimmed name of 1..20 characters sets and shows it and leaves the level |
| Customizer.LevelCommandSets | Bonk-Commands+Rie-Mod.js:259-264 | `/level n` for n in 0..9999 sets `Level n` and leaves the name |
| Customizer.NameThenLevel | Bonk-Commands+Rie-Mod.js:236-264 | `/name <name>` then `/level n` leaves that name, shown, and `Level n`, from any state |
| Customizer.Customizer.constructor | Bonk-Commands+Rie-Mod.js:21-26 | the initial name and `Level 999`, the name active, no gradient, no nicknames, no remote records |
| Customizer.Customizer.SetCustomName | Bonk-Commands+Rie-Mod.js:236-247 | the new fields and outcome are `SetNameStep` of the old fields; the invariant is kept |
| Customizer.Customizer.ToggleCustomName | Bonk-Commands+Rie-Mod.js:248-255 | the new fields and outcome are `ToggleNameStep` of the old fields |
| Customizer.Customizer.SetCustomLevel | Bonk-Commands+Rie-Mod.js:259-269 | the new fields and outcome are `SetLevelStep` of the old fields |
| Customizer.Customizer.ApplyNick | Bonk-Commands+Rie-Mod.js:290-291 | the new fields and outcome are `ApplyNickDecision` of the old fields |
| Customizer.Customizer.SetNickname | Bonk-Commands+Rie-Mod.js:273-294 | the new fields and outcome are `NickStep` of the old fields |
| Customizer.Customizer.SendMessage | Bonk-Commands+Rie-Mod.js:297-313 | the new fields and outcome are `MessageStep` of the old fields; only the outbox may change |
| Customizer.Customizer.SetGradient | Bonk-Commands+Rie-Mod.js:316-355 | the new fields and outcome are `GradientStep` of the old fields |
| Customizer.Customizer.CommandHandle | Bonk-Commands+Rie-Mod.js:234-364 | the new fields and outcome are `Exec` of the old fields: the routed command's step; the invariant is kept |
| Customizer.Customizer.HandleCustomMessage | Bonk-Commands+Rie-Mod.js:175-187 | the remote map becomes the applied message, and a pass is queued exactly when the message is accepted |

The class invariant `Customizer.Customizer.Valid` holds that:

- the name has 1..20 characters;
- the level label is `Level n` with n in 0..9999;
- a stored gradient is a preset, or has 2..6 colours and a period of 10..1000 ms;
- every nickname has 1..20 characters.

Every command method keeps it.

The initial name is the script's literal read character for character. The
file stores each intended star (U+2605) as UTF-8 decoded a second time as
Windows-1252. That gives three characters per star: U+00E2, U+02DC, U+2026.

Where the script's description and its code differ, the model follows the
code:

- An invalid colour in `/gradient` is not rejected. `parseColor`
  substitutes `#FFD700`.
- The `/nick` command and bare `/name` do not request a reconciliation
  pass. Only `/name <text>`, `/level`, `/gradient` and an accepted
  announcement do.
- Gradients received from peers are stored without any check. The class
  invariant covers only local gradients.

## Left out

- Timers and observers are not modelled: `waitForGame`, the 300 ms
  reconciliation interval, the `MutationObserver`, `addCommands` retrying
  until `commandhandle` exists, and the `init` chaining of
  `handleCustomMessage`. The model has single operations that these
  would trigger.
- The gradient interval's period (`gradient.speed`) is not modelled. One
  firing is `Dom.AnimationTick`, and `isConnected` is a parameter.
- The canvas hook's monkey-patching of `PIXI.Text` and its `style.fill`
  colour are not modelled. Only the text rewrite is.
- `JSON.stringify`/`JSON.parse` and `uw.sendToServer` are not modelled.
  Outgoing messages are `Effect` values in the outbox. Incoming ones are
  already-decoded `Gossip.Message` values. A malformed payload is
  `Unrelated`.
- The browser's CSS colour parser (the `test.style.color` probe) is the
  `cssAccepts` parameter of `Arguments.ParseColor`.
- `displayInChat` and `showHelp` output is not modelled. It becomes the
  command's `Outcome`.
- `Text.ReplaceAll`: `new RegExp(userName, 'g')` is modelled as a literal
  global replace. A username holding regex metacharacters, or a
  replacement holding `$&`-style patterns, behaves differently in the
  script.
- `Text.ToLower` lower-cases ASCII letters only. JavaScript's
  `toLowerCase` also folds other scripts.
- String lengths count Unicode scalar values. JavaScript counts UTF-16 code
  units, so the 20-character limits differ for characters outside the
  Basic Multilingual Plane.
- `Numbers.ParseInt` uses unbounded integers. JavaScript numbers lose
  precision beyond 2^53, which does not affect the 0..9999 and 10..1000
  range checks.
- Gossip.Deliver: the payload `broadcastCustomization` sends has no
  sender id. The model assumes the host's transport adds one on the way
  (`Deliver` takes it as a parameter). The script that serves
  `sendToServer` is not part of this model. A transport that relays the
  payload verbatim would make `handleCustomMessage` drop every
  announcement, and `Gossip.AnnouncementRoundTrip` would then say nothing.
- `Gossip.Message`: a sender id is a `nat`, and only a missing sender
  (`None`) is refused. The script's `!msg.senderId` also refuses a numeric
  id `0` and an empty string.
- Player ids are natural numbers, and the registry is a sequence in `for
  ... in` order. Entries that are `null` are not represented. A player
  without a name is one with an empty `userName`.
- `Dom.ReconcilePass` visits elements in document order, each under its
  first matching catalog kind. The script visits selectors in catalog
  order and then elements in document order, and the processed flag stops
  later selectors. Each element's patch depends only on that element and
  the override state, so the results are the same.
- Gradients received from peers are not validated. `Visibility.GradientFor`
  may therefore hand `applyGradientEffect` a gradient of any shape.

- Some functions carry only the contract their callers' proofs need, and
  the rest of what the script does is a lemma beside them. Each line below
  names the function and then that lemma:
- Trim: that only the surrounding whitespace is dropped is
  `Text.TrimRemovesOnlySpace`.
- ReplaceAll: it has no contract of its own. That every occurrence is
  replaced is `Text.ReplaceAllIsJoinOfSplit`.
- SplitWhitespace: which words come out, in order, is
  `Text.SplitWhitespaceWords`.
- TwoWordArgs: which name and text come out is `Arguments.TwoWordArgsWords`.
- CleanArgs: which pieces are kept, in order, is `Arguments.CleanArgsConcat`
  with `Arguments.CleanArgsSingle`, and also `Arguments.CleanArgsKeepsEveryPiece`
  and `Arguments.CleanArgsInventsNothing`.
- ParseInt: its values are given by `Numbers.ParseIntOfDecimal`,
  `Numbers.ParseIntOfDigitStart`, `Numbers.ParseIntSigned`,
  `Numbers.ParseIntHex`, `Numbers.ParseIntSkipsLeadingSpace`,
  `Numbers.ParseIntNaN`, and, for any text after a sign,
  `Numbers.SignedStart` with `Numbers.UnsignedIsParseInt`.
- LevelLabel: that the number after `Level ` is n is
  `Numbers.LevelLabelReadsBack`.
- RealLevel: which number it shows is `Model.RealLevelReadsBack`.
- CanvasStep: the text written when the name occurs is
  `Render.CanvasStepReplacesEveryOccurrence`.
- Exec: `/info` and lines that are no command are covered by
  `Customizer.ExecPassesOtherLines`, and the invariant by
  `Customizer.ExecKeepsInvariant`.

## Findings

| source | as written | input that shows it | evidently intended | confidence | as-written member | corrected member |
|---|---|---|---|---|---|---|
| Bonk-Commands+Rie-Mod.js:320-321 | `PRESETS[lowerInput]` reads any property of the object literal, including ones inherited from `Object.prototype` | `/gradient constructor` (or `/gradient __proto__`) passes the truthiness test and stores the `Object` function (or `Object.prototype`) as the current gradient, which is then broadcast | only the five own preset names select a preset; anything else falls through to custom-gradient parsing (usage error without a comma) | not executed | Presets.PresetPropertyAsWritten, Presets.ConstructorPassesPresetTest | Presets.Preset (used by Customizer.DecideGradient) |
