/** Argument parsing of the chat commands: `/level`'s number, `/nick` and
    `/m`'s two-word form, `/gradient`'s comma list and `parseColor`. */
module Arguments {
  import opened Wrappers
  import opened Text
  import opened Numbers
  import opened Model

  /** `/level`: `parseInt` of the trimmed argument, kept only in 0..9999. */
  function LevelArg(rest: string): (r: Option<nat>)
    ensures r.Some? <==> ParseInt(Trim(rest)).Some? && 0 <= ParseInt(Trim(rest)).value <= 9999
    ensures r.Some? ==> r.value == ParseInt(Trim(rest)).value
  {
    match ParseInt(Trim(rest))
    case Some(n) => if 0 <= n <= 9999 then Some(n) else None
    case None => None
  }

  /** Every level in range, written out, is accepted as itself. */
  lemma LevelArgOfNumeral(n: nat)
    requires n <= 9999
    ensures LevelArg(DecimalString(n)) == Some(n)
  {
    var s := DecimalString(n);
    assert !IsSpace(s[0]) && !IsSpace(s[|s| - 1]);
    TrimOfTrimmed(s);
    ParseIntOfDecimal(n);
  }

  /** A list of strings starts with its first element once joined. */
  lemma JoinStartsWithFirst(parts: seq<string>, sep: string)
    requires |parts| >= 1
    ensures parts[0] <= Join(parts, sep)
  {
  }

  /** `/nick` and `/m`: the trimmed argument split on white-space runs; the
      first word names the player and the remaining words, joined by single
      spaces, are the text. Fewer than two words is a usage error. */
  function TwoWordArgs(rest: string): (r: Option<(string, string)>)
    ensures r.Some? ==> r.value.0 != [] && r.value.1 != []
    ensures r.Some? ==> forall k :: 0 <= k < |r.value.0| ==> !IsSpace(r.value.0[k])
  {
    var t := Trim(rest);
    var parts := SplitWhitespace(t);
    if |parts| < 2 then None
    else
      assert FirstSpace(t) < |t|;
      SplitTrimmedWords(t);
      JoinStartsWithFirst(parts[1..], " ");
      Some((parts[0], Join(parts[1..], " ")))
  }

  /** There are two words exactly when white space remains inside the
      trimmed argument. */
  lemma TwoWordsIffInnerSpace(rest: string)
    ensures TwoWordArgs(rest).Some? <==> exists k :: 0 <= k < |Trim(rest)| && IsSpace(Trim(rest)[k])
  {
    var t := Trim(rest);
    if |SplitWhitespace(t)| < 2 {
      assert FirstSpace(t) == |t|;
    } else {
      assert FirstSpace(t) < |t|;
    }
  }

  /** The name is the trimmed argument up to its first white space; the text
      is every later word, in order, joined by single spaces: whatever
      follows that white-space run with each run collapsed to one space. */
  lemma TwoWordArgsWords(rest: string)
    ensures var t := Trim(rest);
      TwoWordArgs(rest).Some? ==>
        TwoWordArgs(rest).value.0 == t[..FirstSpace(t)] &&
        TwoWordArgs(rest).value.1 == Collapse(TrimStart(t[FirstSpace(t)..]))
  {
    var t := Trim(rest);
    var i := FirstSpace(t);
    if i < |t| {
      var parts := SplitWhitespace(t);
      assert parts[1..] == SplitWhitespace(TrimStart(t[i..]));
      SplitWhitespaceWords(TrimStart(t[i..]));
    }
  }

  /** `args.map(s => s.trim()).filter(s => s)`. */
  function CleanArgs(args: seq<string>): (r: seq<string>)
    ensures forall k :: 0 <= k < |r| ==> r[k] != [] && IsTrimmed(r[k])
    ensures |r| <= |args|
  {
    if args == [] then []
    else
      var t := Trim(args[0]);
      if t == [] then CleanArgs(args[1..]) else [t] + CleanArgs(args[1..])
  }

  /** The first piece's contribution followed by the rest's. */
  lemma CleanArgsUnfold(args: seq<string>)
    requires args != []
    ensures CleanArgs(args) == Kept(args[0]) + CleanArgs(args[1..])
  {
    if Trim(args[0]) == [] {
      assert [] + CleanArgs(args[1..]) == CleanArgs(args[1..]);
    }
  }

  /** What cleaning keeps of one piece: the piece trimmed, unless nothing
      remains of it. */
  function Kept(x: string): seq<string> {
    if Trim(x) == [] then [] else [Trim(x)]
  }

  /** Cleaning works piece by piece, in order: the cleaned concatenation is
      the concatenation of the cleaned parts. */
  lemma {:induction false} CleanArgsConcat(a: seq<string>, b: seq<string>)
    ensures CleanArgs(a + b) == CleanArgs(a) + CleanArgs(b)
    decreases |a|
  {
    if a != [] {
      var ab := a + b;
      assert ab[0] == a[0] && ab[1..] == a[1..] + b;
      CleanArgsUnfold(ab);
      CleanArgsUnfold(a);
      CleanArgsConcat(a[1..], b);
      ConcatAssoc(Kept(a[0]), CleanArgs(a[1..]), CleanArgs(b));
    } else {
      assert a + b == b;
    }
  }

  /** One piece is kept trimmed when something remains of it, and dropped
      otherwise. */
  lemma CleanArgsSingle(x: string)
    ensures CleanArgs([x]) == if Trim(x) == [] then [] else [Trim(x)]
  {
    assert [x][1..] == [];
  }

  /** Nothing is dropped: every piece that is non-empty once trimmed is
      kept, trimmed. */
  lemma {:induction false} CleanArgsKeepsEveryPiece(args: seq<string>)
    ensures forall j :: 0 <= j < |args| && Trim(args[j]) != [] ==> Trim(args[j]) in CleanArgs(args)
    decreases |args|
  {
    if args != [] {
      CleanArgsKeepsEveryPiece(args[1..]);
      var r := CleanArgs(args);
      var tail := CleanArgs(args[1..]);
      assert r == if Trim(args[0]) == [] then tail else [Trim(args[0])] + tail;
      forall j | 0 <= j < |args| && Trim(args[j]) != []
        ensures Trim(args[j]) in r
      {
        if j > 0 {
          assert args[1..][j - 1] == args[j];
        } else {
          assert r[0] == Trim(args[0]);
        }
      }
    }
  }

  /** Nothing is invented: every kept piece is some input piece, trimmed. */
  lemma {:induction false} CleanArgsInventsNothing(args: seq<string>)
    ensures forall k :: 0 <= k < |CleanArgs(args)| ==> exists j :: 0 <= j < |args| && CleanArgs(args)[k] == Trim(args[j])
    decreases |args|
  {
    if args != [] {
      CleanArgsInventsNothing(args[1..]);
      var r := CleanArgs(args);
      var tail := CleanArgs(args[1..]);
      var t := Trim(args[0]);
      var d := if t == [] then 0 else 1;
      assert r == if t == [] then tail else [t] + tail;
      forall k | 0 <= k < |r|
        ensures exists j :: 0 <= j < |args| && r[k] == Trim(args[j])
      {
        if k >= d {
          assert r[k] == tail[k - d];
          var j :| 0 <= j < |args[1..]| && tail[k - d] == Trim(args[1..][j]);
          assert args[1..][j] == args[j + 1];
          assert r[k] == Trim(args[j + 1]);
        } else {
          assert r[k] == Trim(args[0]);
        }
      }
    } else {
      assert CleanArgs(args) == [];
    }
  }

  /** The outcome of parsing a custom `/gradient` argument list. */
  datatype GradientArgs =
    | Usage                                   // fewer than two comma-separated pieces
    | Invalid                                 // colour count or speed out of bounds
    | Custom(colors: seq<string>, speed: int)

  /** The colour/speed rule applied to the cleaned pieces: when the last
      piece parses as an integer it is the speed, otherwise the speed is
      100; then 2..6 colours and a speed in 10..1000 are required. */
  function ColorsAndSpeed(cs: seq<string>): (r: GradientArgs)
    requires forall k :: 0 <= k < |cs| ==> cs[k] != [] && IsTrimmed(cs[k])
    ensures !r.Usage?
    ensures r.Custom? ==> 2 <= |r.colors| <= 6 && 10 <= r.speed <= 1000
    ensures r.Custom? ==> forall k :: 0 <= k < |r.colors| ==> r.colors[k] != [] && IsTrimmed(r.colors[k])
    ensures |cs| > 0 && ParseInt(cs[|cs| - 1]).Some? ==>
      (r.Custom? <==> 2 <= |cs| - 1 <= 6 && 10 <= ParseInt(cs[|cs| - 1]).value <= 1000)
    ensures !(|cs| > 0 && ParseInt(cs[|cs| - 1]).Some?) ==> (r.Custom? <==> 2 <= |cs| <= 6)
    ensures r.Custom? ==>
      if |cs| > 0 && ParseInt(cs[|cs| - 1]).Some?
      then r.colors == cs[..|cs| - 1] && r.speed == ParseInt(cs[|cs| - 1]).value
      else r.colors == cs && r.speed == 100
  {
    var numeric := |cs| > 0 && ParseInt(cs[|cs| - 1]).Some?;
    var speed := if numeric then ParseInt(cs[|cs| - 1]).value else 100;
    var colors := if numeric then cs[..|cs| - 1] else cs;
    if speed < 10 || speed > 1000 || |colors| < 2 || |colors| > 6 then Invalid
    else Custom(colors, speed)
  }

  /** `/gradient c1,c2[,...][,speed]` for the trimmed argument text: split on
      commas (fewer than two pieces is a usage error), trim the pieces and
      drop the empty ones, then apply the colour/speed rule. */
  function ParseGradientArgs(input: string): (r: GradientArgs)
    ensures r.Usage? <==> ',' !in input
    ensures r.Custom? ==> 2 <= |r.colors| <= 6 && 10 <= r.speed <= 1000
    ensures !r.Usage? ==> r == ColorsAndSpeed(CleanArgs(SplitOn(input, ',')))
  {
    SplitOnCount(input, ',');
    var args := SplitOn(input, ',');
    if |args| < 2 then Usage else ColorsAndSpeed(CleanArgs(args))
  }

  predicate IsLowerHexDigit(c: char) { '0' <= c <= '9' || 'a' <= c <= 'f' }

  /** `/^#[0-9a-f]{3,6}$/i` applied to an already lower-cased string. */
  predicate IsHexColor(t: string) {
    4 <= |t| <= 7 && t[0] == '#' && forall k :: 1 <= k < |t| ==> IsLowerHexDigit(t[k])
  }

  /** `parseColor`: trim and lower-case; a hex code is kept; otherwise the
      text is kept when the browser accepts it as a colour (`cssAccepts`
      stands for that test) and replaced by gold `#FFD700` when not. */
  function ParseColor(s: string, cssAccepts: string -> bool): (r: string)
    ensures var t := ToLower(Trim(s)); r == t || (r == "#FFD700" && !IsHexColor(t) && !cssAccepts(t))
    ensures IsHexColor(ToLower(Trim(s))) ==> r == ToLower(Trim(s))
    ensures !IsHexColor(ToLower(Trim(s))) && cssAccepts(ToLower(Trim(s))) ==> r == ToLower(Trim(s))
    ensures !IsHexColor(ToLower(Trim(s))) && !cssAccepts(ToLower(Trim(s))) ==> r == "#FFD700"
  {
    var t := ToLower(Trim(s));
    if IsHexColor(t) then t else if cssAccepts(t) then t else "#FFD700"
  }

  /** `colorStrings.map(parseColor)`. */
  function ParseColors(cs: seq<string>, cssAccepts: string -> bool): (r: seq<string>)
    ensures |r| == |cs|
    ensures forall k :: 0 <= k < |cs| ==> r[k] == ParseColor(cs[k], cssAccepts)
  {
    if cs == [] then [] else [ParseColor(cs[0], cssAccepts)] + ParseColors(cs[1..], cssAccepts)
  }
}
