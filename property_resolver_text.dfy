/**
 * The string handling of the property resolver: replaceAll (built on
 * indexOf), the bracket-aware dot scanner, and the normalisation that turns
 * "a[0].b" into "a.[0].b" and drops leading dots.
 */
module PropertyResolverText {
  import opened JavaObjects

  /** `t` occurs in `s` at position `i`. */
  predicate MatchAt(s: string, t: string, i: nat)
  {
    i + |t| <= |s| && s[i..i + |t|] == t
  }

  /** String.indexOf(t, pos) for a non-empty t: the least i >= pos where t occurs, else -1. */
  function IndexOf(s: string, t: string, pos: nat): (r: int)
    requires |t| > 0
    ensures r == -1 || (pos <= r && r + |t| <= |s|)
    decreases |s| - pos
  {
    if pos + |t| > |s| then -1
    else if MatchAt(s, t, pos) then pos
    else IndexOf(s, t, pos + 1)
  }

  /** indexOf finds a match, and no earlier one; -1 means there is none at or after pos. */
  lemma {:induction false} IndexOfLeast(s: string, t: string, pos: nat)
    requires |t| > 0
    ensures IndexOf(s, t, pos) != -1 ==> MatchAt(s, t, IndexOf(s, t, pos))
    ensures forall i: nat :: pos <= i && (IndexOf(s, t, pos) == -1 || i < IndexOf(s, t, pos)) ==> !MatchAt(s, t, i)
    decreases |s| - pos
  {
    if pos + |t| <= |s| && !MatchAt(s, t, pos) {
      IndexOfLeast(s, t, pos + 1);
    }
  }

  /**
   * The reference meaning of replaceAll from `pos`: find the next match in the
   * original text, keep the text before it, emit the replacement, and continue
   * after the match, so matches never overlap and are taken left to right.
   */
  function ReplaceFrom(s: string, t: string, r: string, pos: nat): string
    requires |t| > 0 && pos <= |s|
    decreases |s| - pos
  {
    var m := IndexOf(s, t, pos);
    if m == -1 then s[pos..] else s[pos..m] + r + ReplaceFrom(s, t, r, m + |t|)
  }

  /** One match: the text before it, the replacement, and the rest from after it. */
  lemma ReplaceFromStep(s: string, t: string, r: string, pos: nat)
    requires |t| > 0 && pos <= |s| && IndexOf(s, t, pos) != -1
    ensures ReplaceFrom(s, t, r, pos) ==
      s[pos..IndexOf(s, t, pos)] + r + ReplaceFrom(s, t, r, IndexOf(s, t, pos) + |t|)
  {
  }

  /** replaceAll with Java's null conventions (None is null). */
  function ReplaceAll(s: Option<string>, searchFor: Option<string>, replaceWith: Option<string>): (r: Option<string>)
    ensures s.None? ==> r.None?
    ensures s.Some? && (searchFor.None? || searchFor.value == "") ==> r == s
    ensures s.Some? && searchFor.Some? && searchFor.value != "" ==>
      r == Some(ReplaceFrom(s.value, searchFor.value, if replaceWith.None? then "" else replaceWith.value, 0))
  {
    if s.None? then None
    else if searchFor.None? || searchFor.value == "" then s
    else Some(ReplaceFrom(s.value, searchFor.value, if replaceWith.None? then "" else replaceWith.value, 0))
  }

  /** Text without a match is returned unchanged. */
  lemma NoMatchUnchanged(s: string, t: string, r: string)
    requires |t| > 0 && IndexOf(s, t, 0) == -1
    ensures ReplaceAll(Some(s), Some(t), Some(r)) == Some(s)
  {
  }

  /** A null replacement behaves as the empty string. */
  lemma NullReplacementIsEmpty(s: Option<string>, t: Option<string>)
    ensures ReplaceAll(s, t, None) == ReplaceAll(s, t, Some(""))
  {
  }

  /** replaceAll: the StringBuilder loop appending the text before each match and the replacement. */
  method ReplaceAllLoop(s: Option<string>, searchFor: Option<string>, replaceWith: Option<string>) returns (out: Option<string>)
    ensures out == ReplaceAll(s, searchFor, replaceWith)
  {
    if s.None? {
      return None;
    }
    if searchFor.None? || searchFor.value == "" {
      return s;
    }
    var repl := if replaceWith.None? then "" else replaceWith.value;
    var matchIndex := IndexOf(s.value, searchFor.value, 0);
    if matchIndex == -1 {
      return s;
    }
    var buffer := AppendReplacements(s.value, searchFor.value, repl);
    return Some(buffer);
  }

  /** The do-while loop of replaceAll, entered once a first match is known. */
  method AppendReplacements(str: string, t: string, repl: string) returns (buffer: string)
    requires |t| > 0
    ensures buffer == ReplaceFrom(str, t, repl, 0)
  {
    ghost var total := ReplaceFrom(str, t, repl, 0);
    buffer := "";
    var pos: nat := 0;
    var matchIndex := IndexOf(str, t, 0);
    while matchIndex != -1
      invariant pos <= |str|
      invariant matchIndex == IndexOf(str, t, pos)
      invariant buffer + ReplaceFrom(str, t, repl, pos) == total
      decreases |str| - pos
    {
      buffer, pos, matchIndex := AppendOne(str, t, repl, pos, matchIndex, buffer);
    }
    NoMoreReplacements(str, t, repl, pos);
    buffer := buffer + str[pos..];
  }

  /** One pass of the do-while loop: append up to the match and the replacement, then search again after the match. */
  method AppendOne(str: string, t: string, repl: string, pos: nat, matchIndex: int, buffer: string)
    returns (buffer': string, pos': nat, matchIndex': int)
    requires |t| > 0 && pos <= |str| && matchIndex == IndexOf(str, t, pos) && matchIndex != -1
    ensures pos < pos' <= |str| && matchIndex' == IndexOf(str, t, pos')
    ensures buffer' + ReplaceFrom(str, t, repl, pos') == buffer + ReplaceFrom(str, t, repl, pos)
  {
    AppendOneReplacement(str, t, repl, pos, buffer);
    buffer' := buffer + str[pos..matchIndex] + repl;
    pos' := matchIndex + |t|;
    matchIndex' := IndexOf(str, t, pos');
  }

  /** With no further match, what is left is the rest of the text. */
  lemma NoMoreReplacements(str: string, t: string, repl: string, pos: nat)
    requires |t| > 0 && pos <= |str| && IndexOf(str, t, pos) == -1
    ensures ReplaceFrom(str, t, repl, pos) == str[pos..]
  {
  }

  /** Appending the text before one match and the replacement keeps the buffer a prefix of the result. */
  lemma AppendOneReplacement(str: string, t: string, repl: string, pos: nat, buffer: string)
    requires |t| > 0 && pos <= |str| && IndexOf(str, t, pos) != -1
    ensures var m := IndexOf(str, t, pos);
      (buffer + str[pos..m] + repl) + ReplaceFrom(str, t, repl, m + |t|) == buffer + ReplaceFrom(str, t, repl, pos)
  {
    var m := IndexOf(str, t, pos);
    ReplaceFromStep(str, t, repl, pos);
    var rest := ReplaceFrom(str, t, repl, m + |t|);
    assert (buffer + str[pos..m] + repl) + rest == buffer + (str[pos..m] + repl + rest);
  }

  /** Replacing every occurrence of one character, one character at a time. */
  function ReplaceChar(s: string, c: char, r: string): string
  {
    if s == [] then [] else (if s[0] == c then r else [s[0]]) + ReplaceChar(s[1..], c, r)
  }

  lemma {:induction false} ReplaceCharConcat(a: string, b: string, c: char, r: string)
    ensures ReplaceChar(a + b, c, r) == ReplaceChar(a, c, r) + ReplaceChar(b, c, r)
  {
    if a == [] {
      assert a + b == b;
    } else {
      assert (a + b)[0] == a[0];
      assert (a + b)[1..] == a[1..] + b;
      ReplaceCharConcat(a[1..], b, c, r);
    }
  }

  lemma {:induction false} ReplaceCharAbsent(s: string, c: char, r: string)
    requires forall i :: 0 <= i < |s| ==> s[i] != c
    ensures ReplaceChar(s, c, r) == s
  {
    if s != [] {
      ReplaceCharAbsent(s[1..], c, r);
    }
  }

  /** A stretch without a one-character match is left alone. */
  lemma NoCharMatchUnchanged(s: string, c: char, r: string, lo: nat, hi: nat)
    requires lo <= hi <= |s|
    requires forall i: nat :: lo <= i < hi ==> !MatchAt(s, [c], i)
    ensures ReplaceChar(s[lo..hi], c, r) == s[lo..hi]
  {
    forall i | 0 <= i < hi - lo ensures s[lo..hi][i] != c {
      assert !MatchAt(s, [c], lo + i);
      assert s[lo + i..lo + i + 1] == [s[lo + i]];
    }
    ReplaceCharAbsent(s[lo..hi], c, r);
  }

  /** For a one-character search string, replaceAll maps each occurrence of the character to the replacement. */
  lemma {:induction false} ReplaceFromSingleChar(s: string, c: char, r: string, pos: nat)
    requires pos <= |s|
    ensures ReplaceFrom(s, [c], r, pos) == ReplaceChar(s[pos..], c, r)
    decreases |s| - pos
  {
    var m := IndexOf(s, [c], pos);
    IndexOfLeast(s, [c], pos);
    if m == -1 {
      NoCharMatchUnchanged(s, c, r, pos, |s|);
      assert s[pos..|s|] == s[pos..];
    } else {
      NoCharMatchUnchanged(s, c, r, pos, m);
      ReplaceFromSingleCharAt(s, c, r, pos, m);
    }
  }

  lemma {:induction false} ReplaceFromSingleCharAt(s: string, c: char, r: string, pos: nat, m: nat)
    requires pos <= m < |s| && IndexOf(s, [c], pos) == m && MatchAt(s, [c], m)
    requires ReplaceChar(s[pos..m], c, r) == s[pos..m]
    ensures ReplaceFrom(s, [c], r, pos) == ReplaceChar(s[pos..], c, r)
    decreases |s| - pos, 0
  {
    var before, rest := s[pos..m], ReplaceChar(s[m + 1..], c, r);
    assert ReplaceFrom(s, [c], r, m + 1) == rest by {
      ReplaceFromSingleChar(s, c, r, m + 1);
    }
    assert ReplaceFrom(s, [c], r, pos) == before + r + rest by {
      assert |[c]| == 1;
      ReplaceFromAt(s, [c], r, pos, m);
    }
    assert ReplaceChar(s[pos..], c, r) == before + r + rest by {
      ReplaceCharSplitAt(s, c, r, pos, m);
    }
  }

  /** ReplaceFromStep with the match position named. */
  lemma ReplaceFromAt(s: string, t: string, r: string, pos: nat, m: nat)
    requires |t| > 0 && pos <= |s| && IndexOf(s, t, pos) == m
    ensures m + |t| <= |s|
    ensures ReplaceFrom(s, t, r, pos) == s[pos..m] + r + ReplaceFrom(s, t, r, m + |t|)
  {
    ReplaceFromStep(s, t, r, pos);
  }

  /** Splitting the text at a matched character: the part before (unchanged), the replacement, and the rest. */
  lemma ReplaceCharSplitAt(s: string, c: char, r: string, pos: nat, m: nat)
    requires pos <= m < |s| && MatchAt(s, [c], m)
    requires ReplaceChar(s[pos..m], c, r) == s[pos..m]
    ensures ReplaceChar(s[pos..], c, r) == s[pos..m] + r + ReplaceChar(s[m + 1..], c, r)
  {
    var before, at, rest := s[pos..m], s[m..], ReplaceChar(s[m + 1..], c, r);
    assert ReplaceChar(at, c, r) == r + rest by {
      assert s[m..m + 1] == [s[m]];
      assert at[0] == c;
      assert at[1..] == s[m + 1..];
      ReplaceCharHead(at, c, r);
    }
    assert ReplaceChar(s[pos..], c, r) == ReplaceChar(before, c, r) + ReplaceChar(at, c, r) by {
      assert s[pos..] == before + at;
      ReplaceCharConcat(before, at, c, r);
    }
  }

  /** A text starting with the character: the replacement, then the rest. */
  lemma ReplaceCharHead(x: string, c: char, r: string)
    requires |x| > 0 && x[0] == c
    ensures ReplaceChar(x, c, r) == r + ReplaceChar(x[1..], c, r)
  {
  }

  // ---- getNextDotIndex ----

  /** The insideBracket flag after scanning s[start..i]: '[' sets it, ']' clears it, nothing counts depth. */
  function InsideBracket(s: string, start: nat, i: nat): bool
    requires start <= i <= |s|
    decreases i - start
  {
    if i == start then false
    else if s[i - 1] == '[' then true
    else if s[i - 1] == ']' then false
    else InsideBracket(s, start, i - 1)
  }

  /** The '[' at `j` is still open at `i`: no ']' follows it before `i`. */
  predicate OpenAt(s: string, j: nat, i: nat)
    requires j < i <= |s|
  {
    s[j] == '[' && forall k :: j < k < i ==> s[k] != ']'
  }

  /** The flag is set exactly when some '[' since start has no ']' after it. */
  lemma {:induction false} InsideBracketIffUnclosed(s: string, start: nat, i: nat)
    requires start <= i <= |s|
    ensures InsideBracket(s, start, i) <==> exists j: nat :: start <= j < i && OpenAt(s, j, i)
    decreases i - start
  {
    if i > start {
      if s[i - 1] == '[' {
        assert OpenAt(s, i - 1, i);
      } else if s[i - 1] == ']' {
        forall j: nat | start <= j < i ensures !OpenAt(s, j, i) {
          if j < i - 1 {
            assert s[i - 1] == ']';
          }
        }
      } else {
        InsideBracketIffUnclosed(s, start, i - 1);
        if InsideBracket(s, start, i - 1) {
          var j: nat :| start <= j < i - 1 && OpenAt(s, j, i - 1);
          assert OpenAt(s, j, i);
        } else {
          forall j: nat | start <= j < i ensures !OpenAt(s, j, i) {
            if j < i - 1 {
              assert !OpenAt(s, j, i - 1);
            }
          }
        }
      }
    }
  }

  predicate DotOutsideBrackets(s: string, start: nat, i: nat)
    requires start <= i < |s|
  {
    s[i] == '.' && !InsideBracket(s, start, i)
  }

  function NextDotFrom(s: string, start: nat, i: nat): (r: int)
    requires start <= i <= |s|
    ensures r == -1 || (i <= r < |s| && DotOutsideBrackets(s, start, r))
    ensures r == -1 ==> forall j :: i <= j < |s| ==> !DotOutsideBrackets(s, start, j)
    ensures r != -1 ==> forall j :: i <= j < r ==> !DotOutsideBrackets(s, start, j)
    decreases |s| - i
  {
    if i == |s| then -1
    else if DotOutsideBrackets(s, start, i) then i
    else NextDotFrom(s, start, i + 1)
  }

  /** getNextDotIndex: -1, or the least i >= start holding a '.' with no unclosed '[' since start. */
  function NextDot(s: string, start: nat): (r: int)
    requires start <= |s|
    ensures r == -1 || (start <= r < |s| && DotOutsideBrackets(s, start, r))
    ensures r == -1 ==> forall j :: start <= j < |s| ==> !DotOutsideBrackets(s, start, j)
    ensures r != -1 ==> forall j :: start <= j < r ==> !DotOutsideBrackets(s, start, j)
  {
    NextDotFrom(s, start, start)
  }

  /** getNextDotIndex: the scan with the insideBracket flag. */
  method GetNextDotIndex(s: string, start: nat) returns (r: int)
    requires start <= |s|
    ensures r == NextDot(s, start)
  {
    var insideBracket := false;
    var i := start;
    while i < |s|
      invariant start <= i <= |s|
      invariant insideBracket == InsideBracket(s, start, i)
      invariant NextDot(s, start) == NextDotFrom(s, start, i)
    {
      var ch := s[i];
      if ch == '.' && !insideBracket {
        return i;
      } else if ch == '[' {
        insideBracket := true;
      } else if ch == ']' {
        insideBracket := false;
      }
      i := i + 1;
    }
    return -1;
  }

  /** The flag does not count depth: after "[[a]" the next dot is outside again. */
  lemma FlagNotDepth()
    ensures NextDot("[[a].b", 0) == 4
  {
    var s := "[[a].b";
    assert !InsideBracket(s, 0, 4);
    assert InsideBracket(s, 0, 1) && InsideBracket(s, 0, 2) && InsideBracket(s, 0, 3);
    assert NextDotFrom(s, 0, 4) == 4;
  }

  /** A dot at position 0 is found at 0: that is how leading dots are detected. */
  lemma LeadingDotIsFirst(s: string)
    ensures (NextDot(s, 0) == 0) <==> (|s| > 0 && s[0] == '.')
  {
    if |s| > 0 && s[0] == '.' {
      assert DotOutsideBrackets(s, 0, 0);
    }
  }

  // ---- normalisation ----

  function DropLeadingDots(s: string): (r: string)
    ensures |r| == 0 || r[0] != '.'
    ensures |r| <= |s| && r == s[|s| - |r|..]
    ensures forall i :: 0 <= i < |s| - |r| ==> s[i] == '.'
  {
    if |s| > 0 && s[0] == '.' then DropLeadingDots(s[1..]) else s
  }

  /** The expression the walk scans: each '[' becomes ".[", then leading dots go. */
  function Normalise(expression: string): (r: string)
    ensures |r| == 0 || r[0] != '.'
  {
    DropLeadingDots(ReplaceFrom(expression, "[", ".[", 0))
  }

  /** Normalisation inserts one '.' before every '['. */
  lemma NormaliseSeparatesBrackets(expression: string)
    ensures Normalise(expression) == DropLeadingDots(ReplaceChar(expression, '[', ".["))
  {
    ReplaceFromSingleChar(expression, '[', ".[", 0);
  }

  /** The leading-dot loop of getObjectAndGetSetter: strip while the scanner finds a dot at 0. */
  method StripLeadingDots(s: string) returns (r: string)
    ensures r == DropLeadingDots(s)
  {
    r := s;
    var index := GetNextDotIndex(r, 0);
    LeadingDotIsFirst(r);
    while index == 0 && StartsWith(r, ".")
      invariant DropLeadingDots(r) == DropLeadingDots(s)
      invariant index == NextDot(r, 0)
      decreases |r|
    {
      LeadingDotIsFirst(r);
      r := r[1..];
      index := GetNextDotIndex(r, 0);
    }
    LeadingDotIsFirst(r);
  }
}
