/** The string primitives the userscript relies on: `trim`, `toLowerCase`,
    `includes`, `split(',')`, `split(/\s+/)`, `join` and a replace-all.
    Strings are sequences of Unicode scalar values. */
module Text {

  /** The characters JavaScript counts as white space or line terminators,
      i.e. those removed by `String.prototype.trim` and matched by `\s`. */
  predicate IsSpace(c: char) {
    var n := c as int;
    (9 <= n <= 13) || n == 32 || n == 0xA0 || n == 0x1680 ||
    (0x2000 <= n <= 0x200A) || n == 0x2028 || n == 0x2029 || n == 0x202F ||
    n == 0x205F || n == 0x3000 || n == 0xFEFF
  }

  /** A string with no white space at either end. */
  predicate IsTrimmed(s: string) {
    s == [] || (!IsSpace(s[0]) && !IsSpace(s[|s| - 1]))
  }

  /** End of the run of white space that starts at `i`. */
  function SpaceRunFrom(s: string, i: nat): (j: nat)
    requires i <= |s|
    ensures i <= j <= |s|
    ensures forall k :: i <= k < j ==> IsSpace(s[k])
    ensures j < |s| ==> !IsSpace(s[j])
    decreases |s| - i
  {
    if i < |s| && IsSpace(s[i]) then SpaceRunFrom(s, i + 1) else i
  }

  /** Start of the run of white space that ends just before `j`. */
  function SpaceRunBefore(s: string, j: nat): (i: nat)
    requires j <= |s|
    ensures i <= j
    ensures forall k :: i <= k < j ==> IsSpace(s[k])
    ensures i > 0 ==> !IsSpace(s[i - 1])
  {
    if j > 0 && IsSpace(s[j - 1]) then SpaceRunBefore(s, j - 1) else j
  }

  /** `r` is `s` with white space, and only white space, removed from its
      two ends. */
  ghost predicate IsInfixWithin(s: string, r: string) {
    exists i, j :: (0 <= i <= j <= |s| && r == s[i..j] &&
      (forall k :: 0 <= k < i ==> IsSpace(s[k])) && (forall k :: j <= k < |s| ==> IsSpace(s[k])))
  }

  /** Drops the leading white space. */
  function TrimStart(s: string): (r: string)
    ensures |r| <= |s| && r == s[|s| - |r|..]
    ensures forall k :: 0 <= k < |s| - |r| ==> IsSpace(s[k])
    ensures r == [] || !IsSpace(r[0])
  {
    s[SpaceRunFrom(s, 0)..]
  }

  /** Drops the trailing white space. */
  function TrimEnd(s: string): (r: string)
    ensures |r| <= |s| && r == s[..|r|]
    ensures forall k :: |r| <= k < |s| ==> IsSpace(s[k])
    ensures r == [] || !IsSpace(r[|r| - 1])
  {
    s[..SpaceRunBefore(s, |s|)]
  }

  /** `String.prototype.trim`: the longest infix of `s` with no white space
      at either end, obtained by dropping white space only. */
  function Trim(s: string): (r: string)
    ensures IsTrimmed(r) && |r| <= |s|
  {
    TrimEnd(TrimStart(s))
  }

  /** `trim` drops white space, and only white space, from the two ends:
      with `IsTrimmed` this makes the result the longest such infix. */
  lemma TrimRemovesOnlySpace(s: string)
    ensures IsInfixWithin(s, Trim(s))
  {
    var a := SpaceRunFrom(s, 0);
    var t := s[a..];
    var b := SpaceRunBefore(t, |t|);
    assert TrimEnd(t) == s[a..a + b];
    assert forall k :: a + b <= k < |s| ==> s[k] == t[k - a];
  }

  /** Trimming a string that has no white space at either end leaves it alone. */
  lemma {:induction false} TrimOfTrimmed(s: string)
    requires IsTrimmed(s)
    ensures Trim(s) == s
  {
  }

  /** `trim` is idempotent. */
  lemma TrimIdempotent(s: string)
    ensures Trim(Trim(s)) == Trim(s)
  {
    TrimOfTrimmed(Trim(s));
  }

  /** ASCII case folding of one character. */
  function LowerChar(c: char): char {
    if 'A' <= c <= 'Z' then (c as int + 32) as char else c
  }

  /** `toLowerCase`, restricted to ASCII letters. */
  function ToLower(s: string): (r: string)
    ensures |r| == |s|
    ensures forall i :: 0 <= i < |s| ==> r[i] == LowerChar(s[i])
  {
    if s == [] then [] else [LowerChar(s[0])] + ToLower(s[1..])
  }

  /** `p` occurs in `s` starting at index `i`. */
  predicate OccursAt(s: string, p: string, i: nat) {
    i + |p| <= |s| && s[i..i + |p|] == p
  }

  /** `String.prototype.includes`. */
  function Contains(s: string, p: string): (b: bool)
    ensures b <==> exists i :: 0 <= i <= |s| && OccursAt(s, p, i)
  {
    if p <= s then
      assert OccursAt(s, p, 0);
      true
    else if s == [] then
      false
    else
      var b := Contains(s[1..], p);
      assert forall i :: 0 <= i < |s| && OccursAt(s[1..], p, i) ==> OccursAt(s, p, i + 1);
      assert forall i :: 1 <= i <= |s| && OccursAt(s, p, i) ==> OccursAt(s[1..], p, i - 1);
      b
  }

  /** Index of the first occurrence of `p` at or after `from`, or `|s|`
      when there is none. */
  function FindFrom(s: string, p: string, from: nat): (i: nat)
    requires |p| > 0 && from <= |s|
    ensures from <= i <= |s|
    ensures i < |s| ==> OccursAt(s, p, i)
    ensures forall k :: from <= k < i ==> !OccursAt(s, p, k)
    decreases |s| - from
  {
    if from == |s| then from
    else if OccursAt(s, p, from) then from
    else FindFrom(s, p, from + 1)
  }

  /** Index of the first occurrence of `p` in `s`, or `|s|` (`indexOf`). */
  function Find(s: string, p: string): (i: nat)
    requires |p| > 0
    ensures i <= |s|
    ensures i < |s| ==> OccursAt(s, p, i)
    ensures forall k :: 0 <= k < i ==> !OccursAt(s, p, k)
    ensures i == |s| <==> !Contains(s, p)
  {
    FindFrom(s, p, 0)
  }

  /** The pieces of `s` between the occurrences of `p`, found left to right
      without overlap (`s.split(p)`). */
  function SplitOnPattern(s: string, p: string): (parts: seq<string>)
    requires |p| > 0
    ensures |parts| >= 1
    ensures forall k :: 0 <= k < |parts| ==> !Contains(parts[k], p)
    decreases |s|
  {
    var i := Find(s, p);
    if i == |s| then [s]
    else
      assert !Contains(s[..i], p) by {
        forall k | 0 <= k <= i && OccursAt(s[..i], p, k)
          ensures OccursAt(s, p, k)
        {
          assert s[..i][k..k + |p|] == s[k..k + |p|];
        }
      }
      [s[..i]] + SplitOnPattern(s[i + |p|..], p)
  }

  lemma ConcatAssoc<T>(a: seq<T>, b: seq<T>, c: seq<T>)
    ensures a + (b + c) == (a + b) + c
  {
  }

  /** Joining a first piece onto a non-empty rest puts one separator between. */
  lemma JoinCons(x: string, tail: seq<string>, sep: string)
    requires |tail| >= 1
    ensures Join([x] + tail, sep) == x + (sep + Join(tail, sep))
  {
    var parts := [x] + tail;
    assert parts[1..] == tail;
    ConcatAssoc(x, sep, Join(tail, sep));
  }

  /** Where the first occurrence starts, the text splits into what comes
      before it, the pattern, and what comes after it. */
  lemma SplitAtOccurrence(s: string, p: string, i: nat)
    requires OccursAt(s, p, i)
    ensures s == s[..i] + (p + s[i + |p|..])
  {
    assert s[i..i + |p|] == p;
    assert s == s[..i] + s[i..i + |p|] + s[i + |p|..];
    ConcatAssoc(s[..i], p, s[i + |p|..]);
  }

  /** When the pattern occurs, the first piece is what precedes its first
      occurrence and the rest is split after it. */
  lemma SplitOnPatternUnfold(s: string, p: string)
    requires |p| > 0 && Find(s, p) < |s|
    ensures SplitOnPattern(s, p) == [s[..Find(s, p)]] + SplitOnPattern(s[Find(s, p) + |p|..], p)
  {
  }

  /** Joining the pieces with the pattern gives back the string. */
  lemma {:induction false} JoinSplitOnPattern(s: string, p: string)
    requires |p| > 0
    ensures Join(SplitOnPattern(s, p), p) == s
    decreases |s|
  {
    var i := Find(s, p);
    if i < |s| {
      var tail := SplitOnPattern(s[i + |p|..], p);
      SplitOnPatternUnfold(s, p);
      JoinSplitOnPattern(s[i + |p|..], p);
      JoinCons(s[..i], tail, p);
      SplitAtOccurrence(s, p, i);
    }
  }

  /** Replaces every non-overlapping occurrence of `p`, scanning from the
      left, by `r` (a global `replace` with a literal pattern): the first
      occurrence is replaced and the scan resumes right after it. */
  function ReplaceAll(s: string, p: string, r: string): string
    requires |p| > 0
    decreases |s|
  {
    var i := Find(s, p);
    if i == |s| then s else s[..i] + (r + ReplaceAll(s[i + |p|..], p, r))
  }

  /** The replace-all is global: it is the text's pieces between the
      occurrences of the pattern, joined by the replacement. */
  lemma {:induction false} ReplaceAllIsJoinOfSplit(s: string, p: string, r: string)
    requires |p| > 0
    ensures ReplaceAll(s, p, r) == Join(SplitOnPattern(s, p), r)
    decreases |s|
  {
    var i := Find(s, p);
    if i < |s| {
      var tail := SplitOnPattern(s[i + |p|..], p);
      SplitOnPatternUnfold(s, p);
      ReplaceAllIsJoinOfSplit(s[i + |p|..], p, r);
      JoinCons(s[..i], tail, r);
    }
  }

  /** Text that does not contain the pattern is left exactly as it is. */
  lemma ReplaceAllWithoutMatch(s: string, p: string, r: string)
    requires |p| > 0 && !Contains(s, p)
    ensures ReplaceAll(s, p, r) == s
  {
  }

  /** Replacing a pattern by itself changes nothing. */
  lemma ReplaceAllBySelf(s: string, p: string)
    requires |p| > 0
    ensures ReplaceAll(s, p, p) == s
  {
    ReplaceAllIsJoinOfSplit(s, p, p);
    JoinSplitOnPattern(s, p);
  }

  /** When the pattern occurs, the replacement text shows up in the result,
      right where the first occurrence was. */
  lemma ReplaceAllInsertsReplacement(s: string, p: string, r: string)
    requires |p| > 0 && Contains(s, p)
    ensures OccursAt(ReplaceAll(s, p, r), r, Find(s, p))
    ensures Contains(ReplaceAll(s, p, r), r)
  {
    var i := Find(s, p);
    var t := ReplaceAll(s, p, r);
    var rest := ReplaceAll(s[i + |p|..], p, r);
    assert t == s[..i] + (r + rest);
    assert |s[..i]| == i;
    assert t[i..i + |r|] == r;
    assert OccursAt(t, r, i);
  }

  /** Index of the first occurrence of `c`, or `|s|` when there is none. */
  function IndexOf(s: string, c: char): (i: nat)
    ensures i <= |s|
    ensures i < |s| ==> s[i] == c
    ensures forall k :: 0 <= k < i ==> s[k] != c
  {
    if s == [] then 0 else if s[0] == c then 0 else 1 + IndexOf(s[1..], c)
  }

  /** `s.split(c)` for a one-character separator. */
  function SplitOn(s: string, c: char): (parts: seq<string>)
    ensures |parts| >= 1
    ensures forall k :: 0 <= k < |parts| ==> c !in parts[k]
    decreases |s|
  {
    var i := IndexOf(s, c);
    if i == |s| then [s] else [s[..i]] + SplitOn(s[i + 1..], c)
  }

  /** `parts.join(sep)`. */
  function Join(parts: seq<string>, sep: string): string {
    if parts == [] then []
    else if |parts| == 1 then parts[0]
    else parts[0] + sep + Join(parts[1..], sep)
  }

  /** Splitting on a character and joining with it gives back the string. */
  lemma {:induction false} JoinSplitOn(s: string, c: char)
    ensures Join(SplitOn(s, c), [c]) == s
    decreases |s|
  {
    var i := IndexOf(s, c);
    if i < |s| {
      var parts := SplitOn(s, c);
      var tail := SplitOn(s[i + 1..], c);
      assert parts == [s[..i]] + tail;
      assert parts[1..] == tail;
      assert Join(parts, [c]) == s[..i] + [c] + Join(tail, [c]);
      JoinSplitOn(s[i + 1..], c);
      assert s == s[..i] + [c] + s[i + 1..];
    }
  }

  /** `split(c)` yields at least two parts exactly when `c` occurs. */
  lemma SplitOnCount(s: string, c: char)
    ensures |SplitOn(s, c)| >= 2 <==> c in s
  {
    var i := IndexOf(s, c);
    if i < |s| {
      assert |SplitOn(s, c)| == 1 + |SplitOn(s[i + 1..], c)|;
    } else {
      assert c !in s;
    }
  }

  /** Index of the first white-space character, or `|s|`. */
  function FirstSpace(s: string): (i: nat)
    ensures i <= |s|
    ensures i < |s| ==> IsSpace(s[i])
    ensures forall k :: 0 <= k < i ==> !IsSpace(s[k])
  {
    if s == [] then 0 else if IsSpace(s[0]) then 0 else 1 + FirstSpace(s[1..])
  }

  /** `s` with every maximal run of white space replaced by one space. */
  function Collapse(s: string): string
    decreases |s|
  {
    if s == [] then []
    else if IsSpace(s[0]) then
      assert |TrimStart(s)| < |s|;
      [' '] + Collapse(TrimStart(s))
    else [s[0]] + Collapse(s[1..])
  }

  /** A word without white space passes through `Collapse` as it is. */
  lemma {:induction false} CollapseWord(w: string, t: string)
    requires forall k :: 0 <= k < |w| ==> !IsSpace(w[k])
    ensures Collapse(w + t) == w + Collapse(t)
    decreases |w|
  {
    if w != [] {
      assert (w + t)[1..] == w[1..] + t;
      CollapseWord(w[1..], t);
      assert w == [w[0]] + w[1..];
    } else {
      assert w + t == t;
    }
  }

  /** `s.split(/\s+/)`: the pieces between maximal runs of white space,
      keeping the empty pieces before a leading run and after a trailing one. */
  function SplitWhitespace(s: string): (parts: seq<string>)
    ensures |parts| >= 1
    ensures forall k :: 0 <= k < |parts| ==> forall j :: 0 <= j < |parts[k]| ==> !IsSpace(parts[k][j])
    decreases |s|
  {
    var i := FirstSpace(s);
    if i == |s| then [s] else [s[..i]] + SplitWhitespace(TrimStart(s[i..]))
  }

  /** The pieces of `split(/\s+/)` joined by single spaces give `s` with
      each white-space run collapsed: they are exactly the words of `s`, in
      order, with nothing dropped or invented. */
  lemma {:induction false} SplitWhitespaceWords(s: string)
    ensures Join(SplitWhitespace(s), " ") == Collapse(s)
    decreases |s|
  {
    var i := FirstSpace(s);
    if i == |s| {
      CollapseWord(s, []);
      assert s + [] == s;
    } else {
      var t := TrimStart(s[i..]);
      SplitWhitespaceWords(t);
      CollapseWord(s[..i], s[i..]);
      assert s[..i] + s[i..] == s;
      assert s[i..][0] == s[i];
      var parts := SplitWhitespace(s);
      assert parts == [s[..i]] + SplitWhitespace(t);
      assert parts[1..] == SplitWhitespace(t);
    }
  }

  /** Splitting a trimmed, non-empty string on white space yields only
      non-empty words. */
  lemma {:induction false} SplitTrimmedWords(s: string)
    requires IsTrimmed(s) && s != []
    ensures forall k :: 0 <= k < |SplitWhitespace(s)| ==> SplitWhitespace(s)[k] != []
    decreases |s|
  {
    var i := FirstSpace(s);
    if i < |s| {
      var rest := TrimStart(s[i..]);
      assert rest != [] && rest == s[|s| - |rest|..];
      assert IsTrimmed(rest);
      SplitTrimmedWords(rest);
    }
  }
}
