/**
 The three functions of Go's `strings` package that the REPL relies on:
 `TrimSpace`, `Split` on a single space and `ToLower`, stated over `seq<char>`.
 */
module GoStrings {

  /** Go's `unicode.IsSpace`: the characters with the Unicode White_Space property. */
  predicate IsSpace(c: char)
  {
    var n := c as int;
    (0x09 <= n <= 0x0D) || n == 0x20 || n == 0x85 || n == 0xA0 || n == 0x1680
    || (0x2000 <= n <= 0x200A) || n == 0x2028 || n == 0x2029 || n == 0x202F
    || n == 0x205F || n == 0x3000
  }

  predicate AllSpace(s: string)
  {
    forall i :: 0 <= i < |s| ==> IsSpace(s[i])
  }

  /** A string with no white space at either end. */
  predicate Trimmed(s: string)
  {
    s == [] || (!IsSpace(s[0]) && !IsSpace(s[|s| - 1]))
  }

  /** The length of the longest all-space prefix. */
  function LeadingSpace(s: string): (k: nat)
    ensures k <= |s|
    ensures AllSpace(s[..k])
    ensures k < |s| ==> !IsSpace(s[k])
  {
    if s != [] && IsSpace(s[0]) then 1 + LeadingSpace(s[1..]) else 0
  }

  /** The length of the longest all-space suffix. */
  function TrailingSpace(s: string): (k: nat)
    ensures k <= |s|
    ensures AllSpace(s[|s| - k..])
    ensures k < |s| ==> !IsSpace(s[|s| - 1 - k])
  {
    if s != [] && IsSpace(s[|s| - 1]) then 1 + TrailingSpace(s[..|s| - 1]) else 0
  }

  /** `strings.TrimSpace`: `s` without its leading and trailing white space. */
  function TrimSpace(s: string): (r: string)
    ensures Trimmed(r)
    ensures r == [] <==> AllSpace(s)
  {
    var t := s[LeadingSpace(s)..];
    t[..|t| - TrailingSpace(t)]
  }

  /** What `TrimSpace` removes is white space at the two ends and nothing else. */
  lemma TrimSpaceMargins(s: string)
    ensures exists i, j :: 0 <= i <= j <= |s| && TrimSpace(s) == s[i..j] && AllSpace(s[..i]) && AllSpace(s[j..])
  {
    var i := LeadingSpace(s);
    var t := s[i..];
    var j := i + |t| - TrailingSpace(t);
    assert t[..|t| - TrailingSpace(t)] == s[i..j];
    assert t[|t| - TrailingSpace(t)..] == s[j..];
  }

  lemma {:induction false} LeadingSpaceAfterSpaces(a: string, t: string)
    requires AllSpace(a)
    ensures LeadingSpace(a + t) == |a| + LeadingSpace(t)
    decreases |a|
  {
    if a != [] {
      assert (a + t)[1..] == a[1..] + t;
      LeadingSpaceAfterSpaces(a[1..], t);
    } else {
      assert a + t == t;
    }
  }

  lemma {:induction false} TrailingSpaceBeforeSpaces(t: string, b: string)
    requires AllSpace(b)
    ensures TrailingSpace(t + b) == TrailingSpace(t) + |b|
    decreases |b|
  {
    if b != [] {
      assert (t + b)[..|t + b| - 1] == t + b[..|b| - 1];
      TrailingSpaceBeforeSpaces(t, b[..|b| - 1]);
    } else {
      assert t + b == t;
    }
  }

  /** `TrimSpace` is determined by its result's shape: whenever `s` is `r` between
      two all-space margins and `r` has no white space at either end, the trim of
      `s` is `r`. */
  lemma TrimSpaceUnique(a: string, r: string, b: string)
    requires AllSpace(a) && AllSpace(b) && Trimmed(r)
    ensures TrimSpace(a + r + b) == r
  {
    var s := a + r + b;
    if r == [] {
      assert s == a + b;
      assert AllSpace(s);
    } else {
      assert s == a + (r + b);
      LeadingSpaceAfterSpaces(a, r + b);
      assert LeadingSpace(r + b) == 0;
      assert s[|a|..] == r + b;
      TrailingSpaceBeforeSpaces(r, b);
      assert TrailingSpace(r) == 0;
      assert s[|a|..|a| + |r|] == r;
    }
  }

  /** A string with no white space at either end is its own trim. */
  lemma TrimSpaceOfTrimmed(r: string)
    requires Trimmed(r)
    ensures TrimSpace(r) == r
  {
    if r != [] {
      assert LeadingSpace(r) == 0;
      assert r[0..] == r;
      assert TrailingSpace(r) == 0;
    }
  }

  /** Trimming twice is trimming once. */
  lemma TrimSpaceIdempotent(s: string)
    ensures TrimSpace(TrimSpace(s)) == TrimSpace(s)
  {
    TrimSpaceOfTrimmed(TrimSpace(s));
  }

  /** `strings.Split(s, " ")`: the pieces of `s` between single spaces, in order.
      There is always at least one piece; consecutive spaces give empty pieces. */
  function Split(s: string): (r: seq<string>)
    ensures |r| >= 1
    ensures forall i :: 0 <= i < |r| ==> ' ' !in r[i]
  {
    if s == [] then [""]
    else
      var rest := Split(s[1..]);
      if s[0] == ' ' then [""] + rest
      else [[s[0]] + rest[0]] + rest[1..]
  }

  /** `strings.Join(parts, " ")`, the inverse of `Split`. */
  function Join(parts: seq<string>): string
    requires |parts| >= 1
  {
    if |parts| == 1 then parts[0] else parts[0] + " " + Join(parts[1..])
  }

  /** Joining the pieces back with spaces gives the original string. */
  lemma {:induction false} JoinSplit(s: string)
    ensures Join(Split(s)) == s
  {
    if s != [] {
      var rest := Split(s[1..]);
      JoinSplit(s[1..]);
      if s[0] == ' ' {
        assert Split(s)[1..] == rest;
      } else if |rest| == 1 {
        assert Split(s) == [[s[0]] + rest[0]];
      } else {
        assert Split(s)[1..] == rest[1..];
        assert Join(rest) == rest[0] + " " + Join(rest[1..]);
      }
    }
  }

  lemma {:induction false} SplitPrefix(w: string, s: string)
    requires ' ' !in w
    ensures Split(w + s) == [w + Split(s)[0]] + Split(s)[1..]
    decreases |w|
  {
    if w == [] {
      assert w + s == s && w + Split(s)[0] == Split(s)[0];
      assert [Split(s)[0]] + Split(s)[1..] == Split(s);
    } else {
      assert (w + s)[1..] == w[1..] + s;
      SplitPrefix(w[1..], s);
      assert [w[0]] + (w[1..] + Split(s)[0]) == w + Split(s)[0];
    }
  }

  /** Splitting pieces that contain no space after joining them gives the pieces
      back, so `Split` and `Join` are inverse bijections. */
  lemma {:induction false} SplitJoin(parts: seq<string>)
    requires |parts| >= 1
    requires forall i :: 0 <= i < |parts| ==> ' ' !in parts[i]
    ensures Split(Join(parts)) == parts
    decreases |parts|
  {
    if |parts| == 1 {
      SplitPrefix(parts[0], "");
      assert parts[0] + "" == parts[0];
    } else {
      var tail := " " + Join(parts[1..]);
      assert Join(parts) == parts[0] + tail;
      SplitPrefix(parts[0], tail);
      SplitJoin(parts[1..]);
      assert tail[1..] == Join(parts[1..]);
      assert Split(tail) == [""] + parts[1..];
      assert parts[0] + "" == parts[0];
    }
  }

  /** Upper-case letters that Go's `unicode.ToLower` maps into ASCII: the ASCII
      capitals, KELVIN SIGN (to 'k') and LATIN CAPITAL LETTER I WITH DOT ABOVE
      (to 'i'). */
  predicate LowersToAscii(c: char)
  {
    'A' <= c <= 'Z' || c == '\U{212A}' || c == '\U{0130}'
  }

  /** The lower-casing of one character, for the letters of `LowersToAscii`. */
  function LowerChar(c: char): char
  {
    if 'A' <= c <= 'Z' then (c as int + 32) as char
    else if c == '\U{212A}' then 'k'
    else if c == '\U{0130}' then 'i'
    else c
  }

  /** `strings.ToLower` for the letters of `LowersToAscii`: each capital becomes
      its small letter and every other character is kept. */
  function ToLower(s: string): (r: string)
    ensures |r| == |s|
    ensures forall i :: 0 <= i < |r| ==> !LowersToAscii(r[i])
    ensures forall i :: 0 <= i < |s| && 'A' <= s[i] <= 'Z' ==>
      r[i] == "abcdefghijklmnopqrstuvwxyz"[s[i] as int - 'A' as int]
    ensures forall i :: 0 <= i < |s| && s[i] == '\U{212A}' ==> r[i] == 'k'
    ensures forall i :: 0 <= i < |s| && s[i] == '\U{0130}' ==> r[i] == 'i'
    ensures forall i :: 0 <= i < |s| && !LowersToAscii(s[i]) ==> r[i] == s[i]
  {
    seq(|s|, i requires 0 <= i < |s| => LowerChar(s[i]))
  }

  /** Lower-casing is idempotent. */
  lemma ToLowerIdempotent(s: string)
    ensures ToLower(ToLower(s)) == ToLower(s)
  {
  }
}
