/**
 * The JavaScript string operations the dashboard uses on department names
 * and numbers: `toLowerCase`, `indexOf`, `replace` with a string pattern
 * (which replaces the FIRST occurrence only) and the decimal rendering of a
 * non-negative integer; and which lower-case keys a plain-object lookup
 * resolves to an inherited member.
 */
module Text {
  import opened Wrappers

  predicate IsUpper(c: char) {
    'A' <= c <= 'Z'
  }

  /** Lower-cases one character; only the ASCII letters A to Z are mapped. */
  function LowerChar(c: char): (r: char)
    ensures !IsUpper(r)
    ensures IsUpper(c) ==> r as int == c as int + 32
    ensures !IsUpper(c) ==> r == c
  {
    if IsUpper(c) then (c as int + 32) as char else c
  }

  /** `s.toLowerCase()`, character by character. */
  function ToLower(s: string): (r: string)
    ensures |r| == |s|
    ensures forall i :: 0 <= i < |s| ==> r[i] == LowerChar(s[i])
    ensures forall c :: c in r ==> !IsUpper(c)
  {
    seq(|s|, i requires 0 <= i < |s| => LowerChar(s[i]))
  }

  /** `pat` occurs in `s` starting at index `i`. */
  predicate OccursAt(s: string, pat: string, i: nat) {
    i + |pat| <= |s| && s[i..i + |pat|] == pat
  }

  /** The first index at or after `from` where `pat` occurs, scanning left to right. */
  function IndexOfFrom(s: string, pat: string, from: nat): (r: Option<nat>)
    requires from <= |s|
    ensures r.Some? ==> from <= r.value && OccursAt(s, pat, r.value)
    ensures r.Some? ==> forall j: nat :: from <= j < r.value ==> !OccursAt(s, pat, j)
    ensures r.None? ==> forall j: nat :: from <= j ==> !OccursAt(s, pat, j)
    decreases |s| - from
  {
    if OccursAt(s, pat, from) then Some(from)
    else if from == |s| then None
    else IndexOfFrom(s, pat, from + 1)
  }

  /** `s.indexOf(pat)`, with `None` for JavaScript's -1. */
  function IndexOf(s: string, pat: string): (r: Option<nat>)
    ensures r.Some? ==> OccursAt(s, pat, r.value) && forall j: nat :: j < r.value ==> !OccursAt(s, pat, j)
    ensures r.None? <==> forall j: nat :: !OccursAt(s, pat, j)
  {
    IndexOfFrom(s, pat, 0)
  }

  /**
   * `s.replace(pat, rep)` with a string pattern: the first occurrence of
   * `pat` is replaced by `rep`; without an occurrence, `s` is returned.
   */
  function ReplaceFirst(s: string, pat: string, rep: string): (r: string)
    ensures forall c :: c in r ==> c in s || c in rep
  {
    match IndexOf(s, pat)
    case None => s
    case Some(i) =>
      assert forall c :: c in s[..i] + s[i + |pat|..] ==> c in s by {
        assert s == s[..i] + s[i..i + |pat|] + s[i + |pat|..];
      }
      s[..i] + rep + s[i + |pat|..]
  }

  /** Without an occurrence of the pattern, nothing is replaced. */
  lemma {:induction false} ReplaceFirstAbsent(s: string, pat: string, rep: string)
    requires forall j: nat :: !OccursAt(s, pat, j)
    ensures ReplaceFirst(s, pat, rep) == s
  {
  }

  /** Otherwise exactly the first occurrence is replaced. */
  lemma {:induction false} ReplaceFirstAt(s: string, pat: string, rep: string, i: nat)
    requires OccursAt(s, pat, i)
    requires forall j: nat :: j < i ==> !OccursAt(s, pat, j)
    ensures ReplaceFirst(s, pat, rep) == s[..i] + rep + s[i + |pat|..]
  {
  }

  /** A one-character pattern occurs exactly where that character stands. */
  lemma {:induction false} OccursAtChar(s: string, c: char, j: nat)
    ensures OccursAt(s, [c], j) <==> j < |s| && s[j] == c
  {
    if j < |s| && s[j] == c {
      assert s[j..j + 1] == [c];
    }
  }

  /** Replacing a character replaces its first occurrence. */
  lemma {:induction false} ReplaceFirstCharAt(s: string, c: char, rep: string, i: nat)
    requires i < |s| && s[i] == c
    requires forall j :: 0 <= j < i ==> s[j] != c
    ensures ReplaceFirst(s, [c], rep) == s[..i] + rep + s[i + 1..]
  {
    OccursAtChar(s, c, i);
    forall j: nat | j < i ensures !OccursAt(s, [c], j) {
      OccursAtChar(s, c, j);
    }
    ReplaceFirstAt(s, [c], rep, i);
  }

  /** A pattern holding a character the string lacks does not occur, so nothing is replaced. */
  lemma {:induction false} ReplaceFirstMissingChar(s: string, pat: string, rep: string, c: char)
    requires c in pat && c !in s
    ensures ReplaceFirst(s, pat, rep) == s
  {
    var k :| 0 <= k < |pat| && pat[k] == c;
    forall j: nat ensures !OccursAt(s, pat, j) {
      if j + |pat| <= |s| {
        assert s[j..j + |pat|][k] == s[j + k];
      }
    }
    ReplaceFirstAbsent(s, pat, rep);
  }

  /** Deleting the first occurrence of a character that occurs at most once leaves none. */
  lemma {:induction false} DeleteOnlyChar(s: string, c: char)
    requires forall j, k :: 0 <= j < k < |s| && s[j] == c ==> s[k] != c
    ensures c !in ReplaceFirst(s, [c], "")
  {
    if c in s {
      var i :| 0 <= i < |s| && s[i] == c;
      ReplaceFirstCharAt(s, c, "", i);
      var r := s[..i] + "" + s[i + 1..];
      forall m | 0 <= m < |r| ensures r[m] != c {
        if m < i {
          assert r[m] == s[m];
        } else {
          assert r[m] == s[m + 1];
        }
      }
    } else {
      ReplaceFirstMissingChar(s, [c], "", c);
    }
  }

  /**
   * The property names every JavaScript object inherits that contain no
   * upper-case letter. A lookup of a lower-cased key on a plain object finds
   * an inherited, truthy member exactly for these.
   */
  predicate IsInheritedKey(key: string) {
    key == "constructor" || key == "__proto__"
  }

  /** The decimal digit character for `d`. */
  function DigitChar(d: nat): (c: char)
    requires d < 10
    ensures '0' <= c <= '9'
  {
    ('0' as int + d) as char
  }

  /** The value of a decimal digit character. */
  function DigitValue(c: char): (d: nat)
    requires '0' <= c <= '9'
    ensures d < 10
  {
    c as int - '0' as int
  }

  /** `String(n)` for a non-negative integer: its decimal digits, with no leading zero. */
  function DecimalString(n: nat): (r: string)
    ensures |r| >= 1
    ensures forall i :: 0 <= i < |r| ==> '0' <= r[i] <= '9'
    ensures |r| > 1 ==> r[0] != '0'
    decreases n
  {
    if n < 10 then [DigitChar(n)] else DecimalString(n / 10) + [DigitChar(n % 10)]
  }

  /** Reads a string of decimal digits back as a number. */
  function ParseDecimal(s: string): nat
    requires forall i :: 0 <= i < |s| ==> '0' <= s[i] <= '9'
    decreases |s|
  {
    if s == [] then 0
    else ParseDecimal(s[..|s| - 1]) * 10 + DigitValue(s[|s| - 1])
  }

  /** Rendering a number in decimal and reading it back gives the number. */
  lemma {:induction false} DecimalRoundTrip(n: nat)
    ensures ParseDecimal(DecimalString(n)) == n
    decreases n
  {
    var s := DecimalString(n);
    if n < 10 {
      assert s[..|s| - 1] == [];
    } else {
      DecimalRoundTrip(n / 10);
      assert s[..|s| - 1] == DecimalString(n / 10);
    }
  }
}
