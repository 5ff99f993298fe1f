/**
 * The string primitives the source uses: `toLowerCase`, `includes`,
 * `startsWith`, `split` with a string separator, `join` and `trim`.
 * Strings are sequences of Unicode scalar values.
 */
module Text {

  // ---------------------------------------------------------------- case

  /** ASCII upper-case letters map to lower case; every other character is kept. */
  function LowerChar(c: char): (d: char)
    ensures 'A' <= c <= 'Z' ==> d as int == c as int + 32
    ensures !('A' <= c <= 'Z') ==> d == c
    ensures !('A' <= d <= 'Z')
  {
    if 'A' <= c <= 'Z' then (c as int + 32) as char else c
  }

  function ToLower(s: string): (r: string)
    ensures |r| == |s|
    ensures forall i :: 0 <= i < |s| ==> r[i] == LowerChar(s[i])
  {
    seq(|s|, i requires 0 <= i < |s| => LowerChar(s[i]))
  }

  /** Lower-casing twice is lower-casing once. */
  lemma ToLowerIdempotent(s: string)
    ensures ToLower(ToLower(s)) == ToLower(s)
  {
    var once := ToLower(s);
    var twice := ToLower(once);
    forall i | 0 <= i < |s| ensures twice[i] == once[i] {
      assert !('A' <= once[i] <= 'Z');
    }
  }

  // ------------------------------------------------------------ substrings

  predicate StartsWith(s: string, w: string) {
    |w| <= |s| && s[..|w|] == w
  }

  predicate OccursAt(s: string, w: string, i: int) {
    0 <= i && i + |w| <= |s| && s[i..i + |w|] == w
  }

  /** `s.includes(w)`: `w` occurs somewhere in `s`. */
  predicate Contains(s: string, w: string)
    decreases |s|
  {
    StartsWith(s, w) || (|s| > 0 && Contains(s[1..], w))
  }

  lemma {:induction false} ContainsIff(s: string, w: string)
    ensures Contains(s, w) <==> exists i :: OccursAt(s, w, i)
    decreases |s|
  {
    if StartsWith(s, w) {
      assert OccursAt(s, w, 0);
    } else if |s| == 0 {
    } else {
      ContainsIff(s[1..], w);
      if exists i :: OccursAt(s, w, i) {
        var i :| OccursAt(s, w, i);
        assert i != 0;
        assert s[1..][i - 1..i - 1 + |w|] == s[i..i + |w|];
        assert OccursAt(s[1..], w, i - 1);
      }
      if exists j :: OccursAt(s[1..], w, j) {
        var j :| OccursAt(s[1..], w, j);
        assert s[1..][j..j + |w|] == s[j + 1..j + 1 + |w|];
        assert OccursAt(s, w, j + 1);
      }
    }
  }

  /** An occurrence found at a known position is an occurrence. */
  lemma ContainsAt(s: string, w: string, i: int)
    requires OccursAt(s, w, i)
    ensures Contains(s, w)
  {
    ContainsIff(s, w);
  }

  /** A word with a character the string lacks does not occur in it. */
  lemma MissingCharNotContained(s: string, w: string, c: char)
    requires c in w && c !in s
    ensures !Contains(s, w)
  {
    ContainsIff(s, w);
    forall i | 0 <= i ensures !OccursAt(s, w, i) {
      if i + |w| <= |s| {
        var k :| 0 <= k < |w| && w[k] == c;
        assert s[i..i + |w|][k] == s[i + k];
      }
    }
  }

  // ------------------------------------------------------------ split/join

  /** `parts.join(sep)`. */
  function Join(parts: seq<string>, sep: string): (r: string)
    requires |parts| > 0
  {
    if |parts| == 1 then parts[0] else parts[0] + sep + Join(parts[1..], sep)
  }

  /**
   * `s.split(sep)` for a non-empty separator: cut at the leftmost occurrence,
   * then split what follows it. The result is never empty; joining it back
   * with `sep` gives `s`, and no piece contains `sep`.
   */
  function Split(s: string, sep: string): (parts: seq<string>)
    requires |sep| > 0
    ensures |parts| > 0
    ensures Join(parts, sep) == s
    ensures IsPrefix(parts[0], s)
    ensures forall k :: 0 <= k < |parts| ==> !Contains(parts[k], sep)
    decreases |s|
  {
    if |s| < |sep| then
      NoRoomNoOccurrence(s, sep);
      [s]
    else if s[..|sep|] == sep then
      var rest := Split(s[|sep|..], sep);
      assert !Contains("", sep);
      [""] + rest
    else
      var rest := Split(s[1..], sep);
      var first := [s[0]] + rest[0];
      assert Join(rest, sep) == s[1..];
      assert first + Join(rest, sep)[|rest[0]|..] == s by {
        assert Join(rest, sep)[..|rest[0]|] == rest[0];
      }
      PieceFreeOfSeparator(s, sep, rest[0]);
      JoinHeadReplaced(rest, first, sep);
      [first] + rest[1..]
  }

  /** A string without the separator splits into itself alone. */
  lemma {:induction false} SplitWithoutSeparator(s: string, sep: string)
    requires |sep| > 0 && !Contains(s, sep)
    ensures Split(s, sep) == [s]
  {
    var parts := Split(s, sep);
    if |parts| > 1 {
      assert Join(parts, sep) == parts[0] + sep + Join(parts[1..], sep);
      assert OccursAt(s, sep, |parts[0]|);
      ContainsAt(s, sep, |parts[0]|);
    }
  }

  predicate IsPrefix(p: string, s: string) {
    |p| <= |s| && s[..|p|] == p
  }

  lemma NoRoomNoOccurrence(s: string, w: string)
    requires |s| < |w|
    ensures !Contains(s, w)
  {
    ContainsIff(s, w);
  }

  /** Joining with a different head piece replaces that piece in the result. */
  lemma JoinHeadReplaced(parts: seq<string>, first: string, sep: string)
    requires |parts| > 0
    ensures Join([first] + parts[1..], sep) == first + Join(parts, sep)[|parts[0]|..]
  {
    var ps := [first] + parts[1..];
    if |parts| == 1 {
      assert |ps| == 1;
    } else {
      assert ps[1..] == parts[1..];
      assert Join(parts, sep) == parts[0] + (sep + Join(parts[1..], sep));
      assert Join(parts, sep)[|parts[0]|..] == sep + Join(parts[1..], sep);
    }
  }

  /**
   * The first piece of a split of `s[1..]`, with `s[0]` put back in front,
   * contains no separator when `s` does not start with one.
   */
  lemma PieceFreeOfSeparator(s: string, sep: string, piece: string)
    requires |sep| > 0 && |s| >= |sep| && s[..|sep|] != sep
    requires IsPrefix(piece, s[1..]) && !Contains(piece, sep)
    ensures !Contains([s[0]] + piece, sep)
  {
    var first := [s[0]] + piece;
    ContainsIff(first, sep);
    ContainsIff(piece, sep);
    forall i | 0 <= i ensures !OccursAt(first, sep, i) {
      if i == 0 {
        if |sep| <= |first| {
          assert first[..|sep|] == s[..|sep|];
        }
      } else if i + |sep| <= |first| {
        assert first[i..i + |sep|] == piece[i - 1..i - 1 + |sep|];
        assert !OccursAt(piece, sep, i - 1);
      }
    }
  }

  // ------------------------------------------------------------------ trim

  /**
   * The ECMAScript WhiteSpace and LineTerminator characters that
   * `String.prototype.trim` removes.
   */
  predicate IsJsWhitespace(c: char) {
    var n := c as int;
    n == 0x09 || n == 0x0A || n == 0x0B || n == 0x0C || n == 0x0D || n == 0x20
    || n == 0xA0 || n == 0x1680 || (0x2000 <= n <= 0x200A) || n == 0x2028
    || n == 0x2029 || n == 0x202F || n == 0x205F || n == 0x3000 || n == 0xFEFF
  }

  /** The end of the run of whitespace that starts at `i`. */
  function LeadEnd(s: string, i: nat): (e: nat)
    requires i <= |s|
    ensures i <= e <= |s|
    ensures forall k :: i <= k < e ==> IsJsWhitespace(s[k])
    ensures e < |s| ==> !IsJsWhitespace(s[e])
    decreases |s| - i
  {
    if i < |s| && IsJsWhitespace(s[i]) then LeadEnd(s, i + 1) else i
  }

  /** The start of the run of whitespace that ends at `j`, not going below `lo`. */
  function TrailStart(s: string, lo: nat, j: nat): (b: nat)
    requires lo <= j <= |s|
    ensures lo <= b <= j
    ensures forall k :: b <= k < j ==> IsJsWhitespace(s[k])
    ensures b > lo ==> !IsJsWhitespace(s[b - 1])
    decreases j
  {
    if j > lo && IsJsWhitespace(s[j - 1]) then TrailStart(s, lo, j - 1) else j
  }

  /** `s.trim()`: the part between the leading and the trailing whitespace. */
  function Trim(s: string): string {
    var i := LeadEnd(s, 0);
    s[i..TrailStart(s, i, |s|)]
  }

  predicate IsTrimmed(s: string) {
    s == [] || (!IsJsWhitespace(s[0]) && !IsJsWhitespace(s[|s| - 1]))
  }

  /**
   * `Trim(s)` is the slice of `s` left after removing whitespace from both
   * ends: it has none at either end, and everything removed was whitespace.
   */
  lemma TrimSpec(s: string)
    ensures exists i, j ::
              && 0 <= i <= j <= |s| && Trim(s) == s[i..j]
              && (forall k :: 0 <= k < i ==> IsJsWhitespace(s[k]))
              && (forall k :: j <= k < |s| ==> IsJsWhitespace(s[k]))
    ensures IsTrimmed(Trim(s))
    ensures Trim(s) == [] <==> forall k :: 0 <= k < |s| ==> IsJsWhitespace(s[k])
  {
    var i := LeadEnd(s, 0);
    var j := TrailStart(s, i, |s|);
    var r := Trim(s);
    assert r == s[i..j];
    if r != [] {
      assert r[0] == s[i] && r[|r| - 1] == s[j - 1];
    } else {
      assert i == j;
    }
  }

  /** Trimming a trimmed string changes nothing. */
  lemma TrimIdempotent(s: string)
    ensures Trim(Trim(s)) == Trim(s)
  {
    var r := Trim(s);
    TrimSpec(s);
    assert LeadEnd(r, 0) == 0;
    assert TrailStart(r, 0, |r|) == |r|;
    assert r[0..|r|] == r;
  }
}
