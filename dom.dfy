/** The DOM side: the selector catalog, the idempotent reconciliation pass
    of `updateAllDOM`, and the gradient animator of `applyGradientEffect`
    with the stop layout of `createFlowingGradient`. */
module Dom {
  import opened Wrappers
  import opened Text
  import opened Model
  import opened Visibility

  datatype FieldKind = NameField | LevelField

  datatype Target = Target(selector: string, kind: FieldKind)

  /** The `targets` catalog, in the order the pass visits it. */
  const Catalog: seq<Target> := [
    Target("#pretty_top_name", NameField),
    Target(".newbonklobby_playerentry_name", NameField),
    Target(".ingamescoreboard_playername", NameField),
    Target(".ingamechatname", NameField),
    Target(".newbonklobby_chat_msg_name", NameField),
    Target("#ingamewinner_top", NameField),
    Target(".replay_playername", NameField),
    Target("#pretty_top_level", LevelField),
    Target(".newbonklobby_playerentry_level", LevelField)
  ]

  /** The kind of the first catalog entry among `targets` whose selector the
      element matches: the entry under which the pass patches it, since the
      `customProcessed` flag set then makes every later entry skip it. */
  function KindOf(matched: set<string>, targets: seq<Target>): (r: Option<FieldKind>)
    ensures r.None? <==> forall k :: 0 <= k < |targets| ==> targets[k].selector !in matched
    ensures r.Some? ==> exists k :: 0 <= k < |targets| && targets[k].selector in matched && targets[k].kind == r.value &&
                                    forall j :: 0 <= j < k ==> targets[j].selector !in matched
  {
    if targets == [] then None
    else if targets[0].selector in matched then Some(targets[0].kind)
    else
      var r := KindOf(matched, targets[1..]);
      assert forall k :: 1 <= k < |targets| ==> targets[k] == targets[1..][k - 1];
      if r.Some? then
        var k :| 0 <= k < |targets[1..]| && targets[1..][k].selector in matched && targets[1..][k].kind == r.value &&
                 forall j :: 0 <= j < k ==> targets[1..][j].selector !in matched;
        assert forall j :: 0 <= j < k + 1 ==> targets[j].selector !in matched;
        r
      else r
  }

  /** A running gradient loop: the gradient it was started with and its
      angle counter. */
  datatype Anim = Anim(gradient: Gradient, progress: nat)

  /** A DOM element: its text, the selectors it matches, the
      `customProcessed` and `gradientApplied` flags, and the animation loop
      attached to it, if any. */
  datatype Element = Element(
    text: string,
    matched: set<string>,
    processed: bool,
    gradientApplied: bool,
    anim: Option<Anim>)

  /** The flags agree with what is attached: an animation exists exactly
      when `gradientApplied` is set, and its angle is in 0..359. */
  predicate WellFormed(e: Element) {
    e.gradientApplied == e.anim.Some? && (e.anim.Some? ==> e.anim.value.progress < 360)
  }

  /** `applyGradientEffect`: a no-op when a loop is already attached;
      otherwise marks the element and starts a loop at angle 0. */
  function ApplyGradientEffect(e: Element, g: Gradient): (r: Element)
    ensures e.gradientApplied ==> r == e
    ensures !e.gradientApplied ==> r == e.(gradientApplied := true, anim := Some(Anim(g, 0)))
  {
    if e.gradientApplied then e else e.(gradientApplied := true, anim := Some(Anim(g, 0)))
  }

  /** One iteration of the per-element loop over the registry. A name
      element is rewritten only when it contains the real name, and then
      every occurrence is replaced and the player's gradient handed over; a
      level element is overwritten unconditionally. */
  function PatchStep(e: Element, kind: FieldKind, ov: Overrides, host: Host, entry: Entry): (r: Element)
    ensures r.processed == e.processed && r.matched == e.matched
    ensures e.gradientApplied ==> r.gradientApplied && r.anim == e.anim
    ensures WellFormed(e) ==> WellFormed(r)
    ensures entry.player.userName == [] ==> r == e
    ensures kind.NameField? && !Contains(e.text, entry.player.userName) ==> r == e
    ensures kind.NameField? && entry.player.userName != [] && Contains(e.text, entry.player.userName) ==>
      r.gradientApplied == (e.gradientApplied || GradientFor(ov, host, entry.id).Some?) &&
      (!e.gradientApplied && GradientFor(ov, host, entry.id).Some? ==> r.anim == Some(Anim(GradientFor(ov, host, entry.id).value, 0))) &&
      (GradientFor(ov, host, entry.id).None? ==> r.anim == e.anim)
    ensures kind.LevelField? && entry.player.userName != [] ==>
      r == e.(text := ResolveLevel(ov, host, entry.id, entry.player))
  {
    var u := entry.player.userName;
    if u == [] then e
    else match kind
      case NameField =>
        if Contains(e.text, u) then
          var named := e.(text := ReplaceAll(e.text, u, ResolveName(ov, host, entry.id, entry.player)));
          match GradientFor(ov, host, entry.id)
          case Some(g) => ApplyGradientEffect(named, g)
          case None => named
        else e
      case LevelField =>
        e.(text := ResolveLevel(ov, host, entry.id, entry.player))
  }

  /** On a name element that contains the real name, every occurrence is
      replaced by the resolved name: the text split on the real name and
      joined with the resolved name. That also holds, trivially, when the
      name does not occur. */
  lemma PatchStepReplacesEveryOccurrence(e: Element, ov: Overrides, host: Host, entry: Entry)
    requires entry.player.userName != []
    ensures PatchStep(e, NameField, ov, host, entry).text ==
      Join(SplitOnPattern(e.text, entry.player.userName), ResolveName(ov, host, entry.id, entry.player))
  {
    var u := entry.player.userName;
    if Contains(e.text, u) {
      ReplaceAllIsJoinOfSplit(e.text, u, ResolveName(ov, host, entry.id, entry.player));
    } else {
      assert SplitOnPattern(e.text, u) == [e.text];
    }
  }

  /** The whole loop over the registry, in iteration order. */
  function PatchAll(e: Element, kind: FieldKind, ov: Overrides, host: Host, players: seq<Entry>): Element
    decreases |players|
  {
    if players == [] then e
    else PatchAll(PatchStep(e, kind, ov, host, players[0]), kind, ov, host, players[1..])
  }

  /** What one pass does to one element: skipped when already processed or
      matched by no catalog selector; otherwise marked and patched. */
  function Reconciled(e: Element, ov: Overrides, host: Host): Element {
    if e.processed then e
    else match KindOf(e.matched, Catalog)
      case None => e
      case Some(kind) => PatchAll(e.(processed := true), kind, ov, host, host.players)
  }

  /** The registry loop keeps the flags and never replaces an attached loop. */
  lemma {:induction false} PatchAllKeepsFlags(e: Element, kind: FieldKind, ov: Overrides, host: Host, players: seq<Entry>)
    ensures PatchAll(e, kind, ov, host, players).processed == e.processed
    ensures PatchAll(e, kind, ov, host, players).matched == e.matched
    ensures e.gradientApplied ==> PatchAll(e, kind, ov, host, players).anim == e.anim
    ensures WellFormed(e) ==> WellFormed(PatchAll(e, kind, ov, host, players))
    decreases |players|
  {
    if players != [] {
      PatchAllKeepsFlags(PatchStep(e, kind, ov, host, players[0]), kind, ov, host, players[1..]);
    }
  }

  /** A second pass over an element changes nothing, and a pass keeps the
      flags consistent and marks every catalogued element. */
  lemma ReconcileIdempotent(e: Element, ov: Overrides, host: Host)
    ensures Reconciled(Reconciled(e, ov, host), ov, host) == Reconciled(e, ov, host)
    ensures KindOf(e.matched, Catalog).Some? ==> Reconciled(e, ov, host).processed
    ensures WellFormed(e) ==> WellFormed(Reconciled(e, ov, host))
    ensures e.gradientApplied ==> Reconciled(e, ov, host).anim == e.anim
  {
    if !e.processed && KindOf(e.matched, Catalog).Some? {
      PatchAllKeepsFlags(e.(processed := true), KindOf(e.matched, Catalog).value, ov, host, host.players);
    }
  }

  /** The last registry entry with a name, which decides a level element. */
  function LastNamed(players: seq<Entry>): (r: Option<Entry>)
    ensures r.Some? ==> r.value in players && r.value.player.userName != []
    ensures r.None? <==> forall k :: 0 <= k < |players| ==> players[k].player.userName == []
    ensures r.Some? ==> exists k :: 0 <= k < |players| && players[k] == r.value &&
                                    forall j :: k < j < |players| ==> players[j].player.userName == []
  {
    if players == [] then None
    else
      var t := LastNamed(players[1..]);
      assert forall k :: 1 <= k < |players| ==> players[k] == players[1..][k - 1];
      if t.Some? then
        var k :| 0 <= k < |players[1..]| && players[1..][k] == t.value &&
                 forall j :: k < j < |players[1..]| ==> players[1..][j].player.userName == [];
        assert players[k + 1] == t.value;
        t
      else if players[0].player.userName != [] then Some(players[0])
      else None
  }

  /** A level element ends with the level of the LAST named player in the
      registry, whoever it belongs to: each iteration overwrites it. */
  lemma {:induction false} LevelLastPlayerDecides(e: Element, ov: Overrides, host: Host, players: seq<Entry>)
    ensures PatchAll(e, LevelField, ov, host, players).text ==
      match LastNamed(players)
      case None => e.text
      case Some(last) => ResolveLevel(ov, host, last.id, last.player)
    decreases |players|
  {
    if players != [] {
      LevelLastPlayerDecides(PatchStep(e, LevelField, ov, host, players[0]), ov, host, players[1..]);
    }
  }

  /** An owner viewer sees the real level on every level element it patches. */
  lemma OwnerViewerSeesRealLevel(e: Element, ov: Overrides, host: Host)
    requires ViewerIsOwner(host)
    requires !e.processed && KindOf(e.matched, Catalog) == Some(LevelField)
    requires LastNamed(host.players).Some?
    ensures Reconciled(e, ov, host).text == RealLevel(LastNamed(host.players).value.player)
  {
    LevelLastPlayerDecides(e.(processed := true), ov, host, host.players);
  }

  /** A name element that names no player keeps its text. */
  lemma {:induction false} NameWithoutUsernames(e: Element, ov: Overrides, host: Host, players: seq<Entry>)
    requires forall k :: 0 <= k < |players| && players[k].player.userName != [] ==>
      !Contains(e.text, players[k].player.userName)
    ensures PatchAll(e, NameField, ov, host, players).text == e.text
    decreases |players|
  {
    if players != [] {
      NameWithoutUsernames(PatchStep(e, NameField, ov, host, players[0]), ov, host, players[1..]);
    }
  }

  /** The per-element loop of `updateAllDOM`. */
  method ProcessElement(e: Element, ov: Overrides, host: Host) returns (r: Element)
    ensures r == Reconciled(e, ov, host)
  {
    if e.processed {
      return e;
    }
    var kind := KindOf(e.matched, Catalog);
    if kind.None? {
      return e;
    }
    r := e.(processed := true);
    var i := 0;
    while i < |host.players|
      invariant 0 <= i <= |host.players|
      invariant PatchAll(r, kind.value, ov, host, host.players[i..]) == Reconciled(e, ov, host)
    {
      assert host.players[i..][1..] == host.players[i + 1..];
      r := PatchStep(r, kind.value, ov, host, host.players[i]);
      i := i + 1;
    }
  }

  /** One reconciliation pass over the document, patching each element in
      place. */
  method ReconcilePass(doc: array<Element>, ov: Overrides, host: Host)
    modifies doc
    ensures forall i :: 0 <= i < doc.Length ==> doc[i] == Reconciled(old(doc[i]), ov, host)
  {
    ghost var before := doc[..];
    var i := 0;
    while i < doc.Length
      invariant 0 <= i <= doc.Length
      invariant forall k :: 0 <= k < i ==> doc[..i][k] == Reconciled(before[k], ov, host)
      invariant forall k :: i <= k < doc.Length ==> doc[k] == before[k]
    {
      var patched := ProcessElement(doc[i], ov, host);
      ghost var done := doc[..i];
      doc[i] := patched;
      assert doc[..i] == done;
      i := i + 1;
    }
  }

  /** A colour stop position: a percentage, or NaN for a one-colour list. */
  datatype Position = Percent(p: real) | NaN

  datatype Stop = Stop(color: string, pos: Position)

  /** `linear-gradient(<angle>deg, <stops>)`. */
  datatype GradientImage = GradientImage(angle: nat, stops: seq<Stop>)

  /** `createFlowingGradient`: one stop per colour, the i-th at
      i/(n-1)*100 percent. */
  function FlowingGradient(colors: seq<string>, progress: nat): (r: GradientImage)
    ensures r.angle == progress && |r.stops| == |colors|
    ensures forall k :: 0 <= k < |colors| ==> r.stops[k].color == colors[k]
    ensures |colors| >= 2 ==> r.stops[0].pos == Percent(0.0) && r.stops[|colors| - 1].pos == Percent(100.0)
    ensures |colors| >= 2 ==> forall k :: 0 <= k < |colors| ==> r.stops[k].pos.Percent?
    ensures |colors| >= 2 ==> forall j, k :: 0 <= j < k < |colors| ==> r.stops[j].pos.p < r.stops[k].pos.p
    ensures |colors| == 1 ==> r.stops[0].pos == NaN
  {
    var n := |colors|;
    StopPercentEnds(n);
    StopPercentIncreasing(n);
    GradientImage(progress, seq(n, k requires 0 <= k < n =>
      Stop(colors[k], if n == 1 then NaN else Percent(StopPercent(k, n)))))
  }

  /** The position of stop `k` of `n`, in percent. */
  function StopPercent(k: nat, n: nat): real
    requires n >= 2
  {
    k as real / (n - 1) as real * 100.0
  }

  /** The first stop sits at 0% and the last at 100%. */
  lemma StopPercentEnds(n: nat)
    ensures n >= 2 ==> StopPercent(0, n) == 0.0 && StopPercent(n - 1, n) == 100.0
  {
    if n >= 2 {
      var d := (n - 1) as real;
      assert d / d == 1.0;
    }
  }

  /** Stops are laid out in strictly increasing order. */
  lemma StopPercentIncreasing(n: nat)
    ensures n >= 2 ==> forall j, k :: 0 <= j < k < n ==> StopPercent(j, n) < StopPercent(k, n)
  {
    forall j, k | n >= 2 && 0 <= j < k < n
      ensures StopPercent(j, n) < StopPercent(k, n)
    {
      var d := (n - 1) as real;
      assert k as real / d - j as real / d == (k - j) as real / d;
    }
  }

  /** One timer tick: skipped while the element is detached; otherwise the
      angle advances by one degree modulo 360. */
  function Tick(e: Element, connected: bool): (r: Element)
    ensures r.(anim := e.anim) == e && r.anim.Some? == e.anim.Some?
    ensures !connected || e.anim.None? ==> r == e
    ensures r.anim.Some? ==> r.anim.value.gradient == e.anim.value.gradient
    ensures WellFormed(e) ==> WellFormed(r)
    ensures connected && e.anim.Some? && e.anim.value.progress < 359 ==> r.anim.value.progress == e.anim.value.progress + 1
    ensures connected && e.anim.Some? && e.anim.value.progress == 359 ==> r.anim.value.progress == 0
  {
    match e.anim
    case Some(a) =>
      if connected then e.(anim := Some(a.(progress := (a.progress + 1) % 360))) else e
    case None => e
  }

  /** The background image a tick writes. */
  function TickImage(e: Element): (r: Option<GradientImage>)
    requires WellFormed(e)
    ensures r.Some? <==> e.anim.Some?
    ensures r.Some? ==> r.value.angle < 360
    ensures e.anim.Some? ==> r == Some(FlowingGradient(e.anim.value.gradient.colors, e.anim.value.progress))
  {
    match e.anim
    case Some(a) => Some(FlowingGradient(a.gradient.colors, a.progress))
    case None => None
  }

  /** The interval callback of the loop attached to element `i`. */
  method AnimationTick(doc: array<Element>, i: nat, connected: bool) returns (image: Option<GradientImage>)
    requires i < doc.Length && WellFormed(doc[i])
    modifies doc
    ensures doc[i] == Tick(old(doc[i]), connected) && WellFormed(doc[i])
    ensures forall k :: 0 <= k < doc.Length && k != i ==> doc[k] == old(doc[k])
    ensures image == if connected then TickImage(doc[i]) else None
  {
    doc[i] := Tick(doc[i], connected);
    image := if connected then TickImage(doc[i]) else None;
  }
}
