/**
 * The reporting-period scanner of the upload panel. A file name is searched
 * for the first substring of the shape `<word> <day>, <year> - <word> <day>, <year>`,
 * i.e. the JavaScript regular expression
 *   \w+\s+\d+,\s+\d+\s+-\s+\w+\s+\d+,\s+\d+
 * and that substring, or "Unknown period", is the period label.
 *
 * The pattern is written as a list of tokens. `Matches` is its meaning as a
 * regular language (which slices of a string it accepts); `Greedy` is the
 * position-by-position matcher that takes the longest run for every `+`.
 * Because in this pattern every `+` run is followed by a token whose
 * characters it cannot contain, the greedy run is the only viable one, so
 * `Greedy` finds a match exactly where one exists and ends it as late as
 * possible, which is what the JavaScript engine returns.
 */
module TimePeriod {
  import opened Wrappers

  /** The JavaScript character classes `\w`, `\d` and `\s`. */
  datatype CharClass = Word | Digit | Space

  /** JavaScript's white space and line terminators, the members of `\s`. */
  predicate IsJsWhitespace(c: char) {
    c == '\t' || c == '\n' || c == '\U{B}' || c == '\U{C}' || c == '\r' || c == ' ' ||
    c == '\U{A0}' || c == '\U{1680}' || '\U{2000}' <= c <= '\U{200A}' ||
    c == '\U{2028}' || c == '\U{2029}' || c == '\U{202F}' || c == '\U{205F}' ||
    c == '\U{3000}' || c == '\U{FEFF}'
  }

  predicate InClass(c: char, cls: CharClass) {
    match cls
    case Word => 'a' <= c <= 'z' || 'A' <= c <= 'Z' || '0' <= c <= '9' || c == '_'
    case Digit => '0' <= c <= '9'
    case Space => IsJsWhitespace(c)
  }

  /** One step of the pattern: a class repeated one or more times, or a literal character. */
  datatype Token = Plus(cls: CharClass) | Lit(c: char)

  const PeriodPattern: seq<Token> := [
    Plus(Word), Plus(Space), Plus(Digit), Lit(','), Plus(Space), Plus(Digit),
    Plus(Space), Lit('-'), Plus(Space),
    Plus(Word), Plus(Space), Plus(Digit), Lit(','), Plus(Space), Plus(Digit)
  ]

  const UnknownPeriod := "Unknown period"

  /** Every character of `s[i..k]` belongs to `cls`. */
  predicate AllIn(s: string, i: nat, k: nat, cls: CharClass)
    requires i <= k <= |s|
  {
    forall m :: i <= m < k ==> InClass(s[m], cls)
  }

  /** The slice `s[i..j]` belongs to the language of `toks`. */
  ghost predicate Matches(s: string, i: nat, j: nat, toks: seq<Token>)
    decreases toks
  {
    i <= j <= |s| &&
    if toks == [] then i == j
    else match toks[0]
      case Lit(c) => i < j && s[i] == c && Matches(s, i + 1, j, toks[1..])
      case Plus(cls) => exists k: nat :: i < k <= j && AllIn(s, i, k, cls) && Matches(s, k, j, toks[1..])
  }

  /** The first character a token can consume. */
  predicate Accepts(t: Token, c: char) {
    match t
    case Lit(d) => c == d
    case Plus(cls) => InClass(c, cls)
  }

  /** No character of class `a` can start `next`. */
  predicate Separated(a: CharClass, next: Token) {
    match next
    case Lit(c) => !InClass(c, a)
    case Plus(b) => (a == Space && b != Space) || (b == Space && a != Space)
  }

  /** Every `+` run is followed by a token that starts outside its class. */
  predicate WellFormed(toks: seq<Token>) {
    forall n :: 0 <= n < |toks| - 1 && toks[n].Plus? ==> Separated(toks[n].cls, toks[n + 1])
  }

  /** The index just past the longest run of `cls` characters starting at `i`. */
  function RunEnd(s: string, i: nat, cls: CharClass): (j: nat)
    requires i <= |s|
    ensures i <= j <= |s|
    ensures AllIn(s, i, j, cls)
    ensures j < |s| ==> !InClass(s[j], cls)
    decreases |s| - i
  {
    if i < |s| && InClass(s[i], cls) then RunEnd(s, i + 1, cls) else i
  }

  /** Matches `toks` from `i`, each `+` taking its longest run; the end of the match, if any. */
  function Greedy(s: string, i: nat, toks: seq<Token>): (r: Option<nat>)
    requires i <= |s|
    ensures r.Some? ==> i <= r.value <= |s|
    decreases toks
  {
    if toks == [] then Some(i)
    else match toks[0]
      case Lit(c) => if i < |s| && s[i] == c then Greedy(s, i + 1, toks[1..]) else None
      case Plus(cls) =>
        var k := RunEnd(s, i, cls);
        if k > i then Greedy(s, k, toks[1..]) else None
  }

  /** What the greedy matcher finds is a match. */
  lemma {:induction false} GreedySound(s: string, i: nat, toks: seq<Token>)
    requires i <= |s|
    requires Greedy(s, i, toks).Some?
    ensures Matches(s, i, Greedy(s, i, toks).value, toks)
    decreases toks
  {
    if toks != [] {
      var j := Greedy(s, i, toks).value;
      match toks[0]
      case Lit(c) =>
        GreedySound(s, i + 1, toks[1..]);
      case Plus(cls) =>
        var k := RunEnd(s, i, cls);
        GreedySound(s, k, toks[1..]);
        assert i < k <= j && AllIn(s, i, k, cls) && Matches(s, k, j, toks[1..]);
    }
  }

  /** A non-empty pattern consumes at least one character, which its first token accepts. */
  lemma {:induction false} MatchStartsWithFirstToken(s: string, i: nat, j: nat, toks: seq<Token>)
    requires toks != [] && Matches(s, i, j, toks)
    ensures i < j && Accepts(toks[0], s[i])
  {
    match toks[0]
    case Lit(c) =>
    case Plus(cls) =>
      var k: nat :| i < k <= j && AllIn(s, i, k, cls) && Matches(s, k, j, toks[1..]);
  }

  /**
   * On a well-formed pattern the greedy matcher succeeds wherever some match
   * starts, and ends no earlier than any match from the same position.
   */
  lemma {:induction false} GreedyComplete(s: string, i: nat, j: nat, toks: seq<Token>)
    requires WellFormed(toks) && Matches(s, i, j, toks)
    ensures Greedy(s, i, toks).Some? && j <= Greedy(s, i, toks).value
    decreases toks
  {
    if toks != [] {
      assert WellFormed(toks[1..]) by {
        forall n | 0 <= n < |toks[1..]| - 1 && toks[1..][n].Plus?
          ensures Separated(toks[1..][n].cls, toks[1..][n + 1])
        {
          assert toks[1..][n] == toks[n + 1] && toks[1..][n + 1] == toks[n + 2];
        }
      }
      match toks[0]
      case Lit(c) =>
        GreedyComplete(s, i + 1, j, toks[1..]);
      case Plus(cls) =>
        var k: nat :| i < k <= j && AllIn(s, i, k, cls) && Matches(s, k, j, toks[1..]);
        var e := RunEnd(s, i, cls);
        if toks[1..] == [] {
          assert Greedy(s, i, toks) == Greedy(s, e, []);
        } else {
          MatchStartsWithFirstToken(s, k, j, toks[1..]);
          assert Separated(cls, toks[1]);
          assert !InClass(s[k], cls);
          GreedyComplete(s, k, j, toks[1..]);
        }
    }
  }

  /** Every literal of the pattern appears inside any match of it. */
  lemma {:induction false} MatchContainsLiteral(s: string, i: nat, j: nat, toks: seq<Token>, c: char)
    requires Matches(s, i, j, toks) && Lit(c) in toks
    ensures exists m :: i <= m < j && s[m] == c
    decreases toks
  {
    if toks[0] == Lit(c) {
      assert s[i] == c;
    } else {
      assert Lit(c) in toks[1..] by {
        assert toks == [toks[0]] + toks[1..];
      }
      match toks[0]
      case Lit(d) =>
        MatchContainsLiteral(s, i + 1, j, toks[1..], c);
      case Plus(cls) =>
        var k: nat :| i < k <= j && AllIn(s, i, k, cls) && Matches(s, k, j, toks[1..]);
        MatchContainsLiteral(s, k, j, toks[1..], c);
    }
  }

  lemma {:induction false} PeriodPatternWellFormed()
    ensures WellFormed(PeriodPattern)
  {
  }

  /** The leftmost start at or after `i` where the pattern matches, with the greedy end. */
  function FindFrom(s: string, i: nat, toks: seq<Token>): (r: Option<(nat, nat)>)
    requires i <= |s|
    ensures r.Some? ==> i <= r.value.0 <= r.value.1 <= |s|
    decreases |s| - i
  {
    match Greedy(s, i, toks)
    case Some(j) => Some((i, j))
    case None => if i == |s| then None else FindFrom(s, i + 1, toks)
  }

  /**
   * The scan finds the leftmost match and, at that start, the longest one;
   * when it finds nothing, no slice from `i` on matches.
   */
  lemma {:induction false} FindFromLeftmostLongest(s: string, i: nat, toks: seq<Token>)
    requires i <= |s| && WellFormed(toks)
    ensures FindFrom(s, i, toks).Some? ==>
              var (a, b) := FindFrom(s, i, toks).value;
              && Matches(s, a, b, toks)
              && (forall a': nat, b': nat :: i <= a' < a ==> !Matches(s, a', b', toks))
              && (forall b': nat :: Matches(s, a, b', toks) ==> b' <= b)
    ensures FindFrom(s, i, toks).None? ==> forall a': nat, b': nat :: i <= a' ==> !Matches(s, a', b', toks)
    decreases |s| - i
  {
    forall b': nat | Matches(s, i, b', toks)
      ensures Greedy(s, i, toks).Some? && b' <= Greedy(s, i, toks).value
    {
      GreedyComplete(s, i, b', toks);
    }
    match Greedy(s, i, toks)
    case Some(j) =>
      GreedySound(s, i, toks);
    case None =>
      if i < |s| {
        FindFromLeftmostLongest(s, i + 1, toks);
      }
  }

  /** The start and end of the period in a file name, if it has one. */
  function PeriodMatch(fileName: string): (r: Option<(nat, nat)>)
    ensures r.Some? ==> r.value.0 <= r.value.1 <= |fileName|
  {
    FindFrom(fileName, 0, PeriodPattern)
  }

  /** `extractTimePeriod`: the matched slice of the file name, or "Unknown period". */
  function ExtractTimePeriod(fileName: string): string {
    match PeriodMatch(fileName)
    case Some((a, b)) => fileName[a..b]
    case None => UnknownPeriod
  }

  /**
   * The period is the leftmost matching slice of the file name, ending as
   * late as a match from that start can.
   */
  lemma {:induction false} ExtractTimePeriodLeftmostLongest(fileName: string)
    requires PeriodMatch(fileName).Some?
    ensures var (a, b) := PeriodMatch(fileName).value;
            && ExtractTimePeriod(fileName) == fileName[a..b]
            && Matches(fileName, a, b, PeriodPattern)
            && (forall a': nat, b': nat :: a' < a ==> !Matches(fileName, a', b', PeriodPattern))
            && (forall b': nat :: Matches(fileName, a, b', PeriodPattern) ==> b' <= b)
  {
    PeriodPatternWellFormed();
    FindFromLeftmostLongest(fileName, 0, PeriodPattern);
  }

  /** A slice that matches a pattern with the literal `c` differs from any text without `c`. */
  lemma {:induction false} MatchIsNotText(s: string, a: nat, b: nat, toks: seq<Token>, c: char, text: string)
    requires Matches(s, a, b, toks) && Lit(c) in toks && c !in text
    ensures s[a..b] != text
  {
    MatchContainsLiteral(s, a, b, toks, c);
    var m :| a <= m < b && s[m] == c;
    assert s[a..b][m - a] == c;
  }

  lemma {:induction false} CommaInPattern()
    ensures Lit(',') in PeriodPattern
  {
    assert PeriodPattern[3] == Lit(',');
  }

  /** When the scan finds nothing, no slice of the name matches. */
  lemma {:induction false} NoPeriodMeansNoMatch(fileName: string)
    requires PeriodMatch(fileName).None?
    ensures forall a: nat, b: nat :: !Matches(fileName, a, b, PeriodPattern)
  {
    PeriodPatternWellFormed();
    FindFromLeftmostLongest(fileName, 0, PeriodPattern);
  }

  /** When the scan finds a period, it is a match and differs from the fallback label. */
  lemma {:induction false} PeriodIsNotFallback(fileName: string)
    requires PeriodMatch(fileName).Some?
    ensures Matches(fileName, PeriodMatch(fileName).value.0, PeriodMatch(fileName).value.1, PeriodPattern)
    ensures ExtractTimePeriod(fileName) != UnknownPeriod
  {
    var (a, b) := PeriodMatch(fileName).value;
    ExtractTimePeriodLeftmostLongest(fileName);
    CommaInPattern();
    MatchIsNotText(fileName, a, b, PeriodPattern, ',', UnknownPeriod);
  }

  /** The fallback label is returned exactly when no slice of the name matches. */
  lemma {:induction false} ExtractTimePeriodUnknown(fileName: string)
    ensures ExtractTimePeriod(fileName) == UnknownPeriod ==>
              forall a: nat, b: nat :: !Matches(fileName, a, b, PeriodPattern)
    ensures (forall a: nat, b: nat :: !Matches(fileName, a, b, PeriodPattern)) ==>
              ExtractTimePeriod(fileName) == UnknownPeriod
  {
    if PeriodMatch(fileName).Some? {
      PeriodIsNotFallback(fileName);
    } else {
      NoPeriodMeansNoMatch(fileName);
    }
  }

  /** A name without a comma has no period: every match contains the literal ','. */
  lemma {:induction false} NameWithoutCommaHasNoPeriod(fileName: string)
    requires ',' !in fileName
    ensures ExtractTimePeriod(fileName) == UnknownPeriod
  {
    CommaInPattern();
    forall a: nat, b: nat | Matches(fileName, a, b, PeriodPattern)
      ensures false
    {
      MatchContainsLiteral(fileName, a, b, PeriodPattern, ',');
    }
    ExtractTimePeriodUnknown(fileName);
  }

  /** Runs and matches found inside `b` are found at the same place in `a + b`, shifted by |a|. */
  lemma {:induction false} RunEndShift(a: string, b: string, i: nat, cls: CharClass)
    requires i <= |b|
    ensures RunEnd(a + b, |a| + i, cls) == |a| + RunEnd(b, i, cls)
    decreases |b| - i
  {
    if i < |b| && InClass(b[i], cls) {
      RunEndShift(a, b, i + 1, cls);
    }
  }

  lemma {:induction false} GreedyShift(a: string, b: string, i: nat, toks: seq<Token>)
    requires i <= |b|
    ensures Greedy(a + b, |a| + i, toks) ==
              if Greedy(b, i, toks).Some? then Some(|a| + Greedy(b, i, toks).value) else None
    decreases toks
  {
    if toks != [] {
      match toks[0]
      case Lit(c) =>
        if i < |b| && b[i] == c {
          GreedyShift(a, b, i + 1, toks[1..]);
        }
      case Plus(cls) =>
        RunEndShift(a, b, i, cls);
        var k := RunEnd(b, i, cls);
        if k > i {
          GreedyShift(a, b, k, toks[1..]);
        }
    }
  }

  /** `piece` is what `t` consumes: its literal, or a non-empty run of its class. */
  predicate Fits(piece: string, t: Token) {
    match t
    case Lit(c) => piece == [c]
    case Plus(cls) => |piece| > 0 && forall c :: c in piece ==> InClass(c, cls)
  }

  function Concat(pieces: seq<string>): string {
    if pieces == [] then [] else pieces[0] + Concat(pieces[1..])
  }

  lemma {:induction false} WellFormedTail(toks: seq<Token>)
    requires toks != [] && WellFormed(toks)
    ensures WellFormed(toks[1..])
  {
    forall n | 0 <= n < |toks[1..]| - 1 && toks[1..][n].Plus?
      ensures Separated(toks[1..][n].cls, toks[1..][n + 1])
    {
      assert toks[1..][n] == toks[n + 1] && toks[1..][n + 1] == toks[n + 2];
    }
  }

  lemma {:induction false} FitsTail(pieces: seq<string>, toks: seq<Token>)
    requires |pieces| == |toks| && toks != []
    requires forall n :: 0 <= n < |toks| ==> Fits(pieces[n], toks[n])
    ensures forall n :: 0 <= n < |toks[1..]| ==> Fits(pieces[1..][n], toks[1..][n])
  {
    forall n | 0 <= n < |toks[1..]| ensures Fits(pieces[1..][n], toks[1..][n]) {
      assert pieces[1..][n] == pieces[n + 1] && toks[1..][n] == toks[n + 1];
    }
  }

  /** A fitting piece is not empty, and the token accepts its first character. */
  lemma {:induction false} FitsAccepts(piece: string, t: Token)
    requires Fits(piece, t)
    ensures piece != [] && Accepts(t, piece[0])
  {
    if t.Plus? {
      assert piece[0] in piece;
    }
  }

  /** A `+` run over a fitting piece stops at its end when the next character is outside the class. */
  lemma {:induction false} RunOverPiece(head: string, u: string, cls: CharClass)
    requires Fits(head, Plus(cls))
    requires u != [] ==> !InClass(u[0], cls)
    ensures RunEnd(head + u, 0, cls) == |head|
  {
    var s := head + u;
    assert AllIn(s, 0, |head|, cls) by {
      forall m | 0 <= m < |head| ensures InClass(s[m], cls) {
        assert s[m] == head[m] && head[m] in head;
      }
    }
    RunEndAfterRun(s, 0, |head|, cls);
  }

  lemma {:induction false} RunEndAfterRun(s: string, i: nat, k: nat, cls: CharClass)
    requires i <= k <= |s| && AllIn(s, i, k, cls)
    requires k < |s| ==> !InClass(s[k], cls)
    ensures RunEnd(s, i, cls) == k
    decreases k - i
  {
    if i < k {
      RunEndAfterRun(s, i + 1, k, cls);
    }
  }

  /** One piece that fits the first token, followed by a text the remaining tokens match. */
  lemma {:induction false} GreedyStep(head: string, u: string, toks: seq<Token>, n: nat)
    requires toks != [] && Fits(head, toks[0])
    requires n <= |u| && Greedy(u, 0, toks[1..]) == Some(n)
    requires toks[0].Plus? && u != [] ==> !InClass(u[0], toks[0].cls)
    ensures Greedy(head + u, 0, toks) == Some(|head| + n)
  {
    var s := head + u;
    var more := toks[1..];
    GreedyShiftStart(head, u, more, n);
    match toks[0]
    case Lit(c) =>
      assert head == [c] && s[0] == c;
      assert Greedy(s, 0, toks) == Greedy(s, 1, more);
    case Plus(cls) =>
      RunOverPiece(head, u, cls);
      assert Greedy(s, 0, toks) == Greedy(s, |head|, more);
  }

  lemma {:induction false} GreedyShiftStart(a: string, b: string, toks: seq<Token>, n: nat)
    requires Greedy(b, 0, toks) == Some(n)
    ensures Greedy(a + b, |a|, toks) == Some(|a| + n)
  {
    GreedyShift(a, b, 0, toks);
  }

  /**
   * A text made of one fitting piece per token is matched in full by a
   * well-formed pattern, whatever follows it, provided a final `+` run
   * cannot continue into what follows.
   */
  lemma {:induction false} GreedyMatchesPieces(pieces: seq<string>, toks: seq<Token>, rest: string)
    requires |pieces| == |toks| && WellFormed(toks)
    requires forall n :: 0 <= n < |toks| ==> Fits(pieces[n], toks[n])
    requires toks != [] && toks[|toks| - 1].Plus? && rest != [] ==> !InClass(rest[0], toks[|toks| - 1].cls)
    ensures Greedy(Concat(pieces) + rest, 0, toks) == Some(|Concat(pieces)|)
    decreases toks
  {
    if toks == [] {
      assert Concat(pieces) + rest == rest;
    } else {
      var head, tail := pieces[0], Concat(pieces[1..]);
      var u := tail + rest;
      assert Concat(pieces) + rest == head + u;
      WellFormedTail(toks);
      FitsTail(pieces, toks);
      GreedyMatchesPieces(pieces[1..], toks[1..], rest);
      if toks[0].Plus? && u != [] {
        if |toks| > 1 {
          FitsAccepts(pieces[1..][0], toks[1..][0]);
          assert u[0] == pieces[1..][0][0];
          assert Separated(toks[0].cls, toks[1]);
        } else {
          assert u == rest;
        }
      }
      assert Fits(head, toks[0]);
      GreedyStep(head, u, toks, |tail|);
    }
  }

  /** A run of `cls` stops at the first character outside `cls`. */
  lemma {:induction false} RunStopsAt(s: string, i: nat, j: nat, cls: CharClass)
    requires i <= j < |s| && !InClass(s[j], cls)
    ensures RunEnd(s, i, cls) <= j
  {
  }

  /**
   * No match of a pattern that opens with `\w+\s+\d+` starts inside a
   * digit-free prefix that ends outside a word, when what follows the prefix
   * starts with neither white space nor a digit: the `\d+` would have to
   * begin inside the prefix or on that first character.
   */
  lemma {:induction false} NoMatchStartsInPrefix(p: string, u: string, k: nat, toks: seq<Token>)
    requires |toks| >= 3 && toks[0] == Plus(Word) && toks[1] == Plus(Space) && toks[2] == Plus(Digit)
    requires forall c :: c in p ==> !InClass(c, Digit)
    requires p != [] ==> !InClass(p[|p| - 1], Word)
    requires u != [] ==> !InClass(u[0], Space) && !InClass(u[0], Digit)
    requires k < |p|
    ensures Greedy(p + u, k, toks) == None
  {
    var s := p + u;
    var t1 := toks[1..];
    var t2 := t1[1..];
    assert t1[0] == Plus(Space) && t2[0] == Plus(Digit);
    var e1 := RunEnd(s, k, Word);
    assert Greedy(s, k, toks) == if e1 > k then Greedy(s, e1, t1) else None;
    if e1 > k {
      assert s[|p| - 1] == p[|p| - 1];
      RunStopsAt(s, k, |p| - 1, Word);
      var e2 := RunEnd(s, e1, Space);
      assert Greedy(s, e1, t1) == if e2 > e1 then Greedy(s, e2, t2) else None;
      if e2 > e1 {
        if u != [] {
          assert s[|p|] == u[0];
          RunStopsAt(s, e1, |p|, Space);
        }
        if e2 < |p| {
          assert s[e2] == p[e2] && p[e2] in p;
        }
        assert RunEnd(s, e2, Digit) == e2;
        assert Greedy(s, e2, t2) == None;
      }
    }
  }

  /** Positions where the pattern does not start are skipped by the scan. */
  lemma {:induction false} FindFromSkips(s: string, i: nat, j: nat, toks: seq<Token>)
    requires i <= j <= |s|
    requires forall k :: i <= k < j ==> Greedy(s, k, toks) == None
    ensures FindFrom(s, i, toks) == FindFrom(s, j, toks)
    decreases j - i
  {
    if i < j {
      FindFromSkips(s, i + 1, j, toks);
    }
  }

  /**
   * After a prefix in which no match can start, the scan finds the match
   * that begins right after the prefix.
   */
  lemma {:induction false} MatchFoundAfterPrefix(prefix: string, u: string, n: nat, toks: seq<Token>)
    requires |toks| >= 3 && toks[0] == Plus(Word) && toks[1] == Plus(Space) && toks[2] == Plus(Digit)
    requires forall c :: c in prefix ==> !InClass(c, Digit)
    requires prefix != [] ==> !InClass(prefix[|prefix| - 1], Word)
    requires u != [] && !InClass(u[0], Space) && !InClass(u[0], Digit)
    requires Greedy(u, 0, toks) == Some(n)
    ensures FindFrom(prefix + u, 0, toks) == Some((|prefix|, |prefix| + n))
  {
    var s := prefix + u;
    GreedyShift(prefix, u, 0, toks);
    assert Greedy(s, |prefix|, toks) == Some(|prefix| + n);
    assert FindFrom(s, |prefix|, toks) == Some((|prefix|, |prefix| + n));
    forall k | 0 <= k < |prefix| ensures Greedy(s, k, toks) == None {
      NoMatchStartsInPrefix(prefix, u, k, toks);
    }
    FindFromSkips(s, 0, |prefix|, toks);
  }

  /**
   * A text made of a digit-free prefix that ends outside a word, one fitting
   * piece per token, and a remainder that does not continue the final run,
   * is matched by the scan exactly on the pieces.
   */
  lemma {:induction false} FindAfterPrefix(prefix: string, pieces: seq<string>, rest: string, toks: seq<Token>)
    requires |toks| >= 3 && toks[0] == Plus(Word) && toks[1] == Plus(Space) && toks[2] == Plus(Digit)
    requires |pieces| == |toks| && WellFormed(toks)
    requires forall n :: 0 <= n < |toks| ==> Fits(pieces[n], toks[n])
    requires toks[|toks| - 1].Plus? && rest != [] ==> !InClass(rest[0], toks[|toks| - 1].cls)
    requires pieces[0] != [] && !InClass(pieces[0][0], Digit)
    requires forall c :: c in prefix ==> !InClass(c, Digit)
    requires prefix != [] ==> !InClass(prefix[|prefix| - 1], Word)
    ensures FindFrom(prefix + Concat(pieces) + rest, 0, toks) == Some((|prefix|, |prefix| + |Concat(pieces)|))
  {
    var t := Concat(pieces);
    var u := t + rest;
    GreedyMatchesPieces(pieces, toks, rest);
    assert Fits(pieces[0], toks[0]);
    assert t == pieces[0] + Concat(pieces[1..]);
    assert u[0] == pieces[0][0] && pieces[0][0] in pieces[0];
    MatchFoundAfterPrefix(prefix, u, |t|, toks);
    assert prefix + t + rest == prefix + u;
  }

  /**
   * A name made of a digit-free prefix that ends outside a word, a period
   * written as one fitting piece per token, and a remainder that does not
   * continue the final number, yields exactly the period.
   */
  lemma {:induction false} ExtractFromDecoratedName(prefix: string, pieces: seq<string>, rest: string)
    requires |pieces| == |PeriodPattern|
    requires forall n :: 0 <= n < |PeriodPattern| ==> Fits(pieces[n], PeriodPattern[n])
    requires rest != [] ==> !InClass(rest[0], Digit)
    requires pieces[0] != [] && !InClass(pieces[0][0], Digit)
    requires forall c :: c in prefix ==> !InClass(c, Digit)
    requires prefix != [] ==> !InClass(prefix[|prefix| - 1], Word)
    ensures ExtractTimePeriod(prefix + Concat(pieces) + rest) == Concat(pieces)
  {
    var t := Concat(pieces);
    var name := prefix + t + rest;
    PeriodPatternWellFormed();
    PeriodPatternOpening();
    FindAfterPrefix(prefix, pieces, rest, PeriodPattern);
    assert name[|prefix|..|prefix| + |t|] == t;
  }

  lemma {:induction false} PeriodPatternOpening()
    ensures |PeriodPattern| >= 3 && PeriodPattern[0] == Plus(Word)
    ensures PeriodPattern[1] == Plus(Space) && PeriodPattern[2] == Plus(Digit)
    ensures PeriodPattern[|PeriodPattern| - 1] == Plus(Digit)
  {
  }

  /**
   * A period written `<m1> <d1>, <y1> - <m2> <d2>, <y2>`, with words that do
   * not start with a digit, numbers of digits and single spaces, is found
   * after a digit-free prefix that ends outside a word.
   */
  lemma {:induction false} ExtractDates(prefix: string, m1: string, d1: string, y1: string,
                     m2: string, d2: string, y2: string, rest: string)
    requires m1 != [] && !InClass(m1[0], Digit) && forall c :: c in m1 ==> InClass(c, Word)
    requires m2 != [] && forall c :: c in m2 ==> InClass(c, Word)
    requires d1 != [] && y1 != [] && d2 != [] && y2 != []
    requires forall c :: c in d1 + y1 + d2 + y2 ==> InClass(c, Digit)
    requires rest != [] ==> !InClass(rest[0], Digit)
    requires forall c :: c in prefix ==> !InClass(c, Digit)
    requires prefix != [] ==> !InClass(prefix[|prefix| - 1], Word)
    ensures var period := m1 + " " + d1 + ", " + y1 + " - " + m2 + " " + d2 + ", " + y2;
            ExtractTimePeriod(prefix + period + rest) == period
  {
    var pieces := PeriodPieces(m1, d1, y1, m2, d2, y2);
    PeriodPiecesFit(m1, d1, y1, m2, d2, y2);
    PeriodPiecesConcat(m1, d1, y1, m2, d2, y2);
    ExtractFromDecoratedName(prefix, pieces, rest);
  }

  /** A period written out as one piece per token. */
  function PeriodPieces(m1: string, d1: string, y1: string, m2: string, d2: string, y2: string): (p: seq<string>)
    ensures |p| == |PeriodPattern|
  {
    [m1, " ", d1, ",", " ", y1, " ", "-", " ", m2, " ", d2, ",", " ", y2]
  }

  lemma {:induction false} PeriodPiecesFit(m1: string, d1: string, y1: string, m2: string, d2: string, y2: string)
    requires m1 != [] && forall c :: c in m1 ==> InClass(c, Word)
    requires m2 != [] && forall c :: c in m2 ==> InClass(c, Word)
    requires d1 != [] && y1 != [] && d2 != [] && y2 != []
    requires forall c :: c in d1 + y1 + d2 + y2 ==> InClass(c, Digit)
    ensures var p := PeriodPieces(m1, d1, y1, m2, d2, y2);
            forall n :: 0 <= n < |PeriodPattern| ==> Fits(p[n], PeriodPattern[n])
  {
    forall c | c in d1 || c in y1 || c in d2 || c in y2 ensures InClass(c, Digit) {
      assert c in d1 + y1 + d2 + y2;
    }
  }

  lemma {:induction false} PeriodPiecesConcat(m1: string, d1: string, y1: string, m2: string, d2: string, y2: string)
    ensures Concat(PeriodPieces(m1, d1, y1, m2, d2, y2)) ==
              m1 + " " + d1 + ", " + y1 + " - " + m2 + " " + d2 + ", " + y2
  {
    var p := PeriodPieces(m1, d1, y1, m2, d2, y2);
    ConcatPieces(p);
  }

  lemma {:induction false} ConcatSnoc(pieces: seq<string>, x: string)
    ensures Concat(pieces + [x]) == Concat(pieces) + x
  {
    if pieces == [] {
      assert [] + [x] == [x];
    } else {
      assert (pieces + [x])[1..] == pieces[1..] + [x];
      ConcatSnoc(pieces[1..], x);
    }
  }

  lemma {:induction false} ConcatPrefixStep(p: seq<string>, k: nat)
    requires k < |p|
    ensures Concat(p[..k + 1]) == Concat(p[..k]) + p[k]
  {
    assert p[..k + 1] == p[..k] + [p[k]];
    ConcatSnoc(p[..k], p[k]);
  }

  lemma {:induction false} ConcatFiveMore(p: seq<string>, k: nat)
    requires k + 5 <= |p|
    ensures Concat(p[..k + 5]) == Concat(p[..k]) + p[k] + p[k + 1] + p[k + 2] + p[k + 3] + p[k + 4]
  {
    ConcatPrefixStep(p, k);
    ConcatPrefixStep(p, k + 1);
    ConcatPrefixStep(p, k + 2);
    ConcatPrefixStep(p, k + 3);
    ConcatPrefixStep(p, k + 4);
  }

  /** The fifteen pieces of a period, concatenated. */
  lemma {:induction false} ConcatPieces(p: seq<string>)
    requires |p| == 15
    ensures Concat(p) == p[0] + p[1] + p[2] + p[3] + p[4] + p[5] + p[6] + p[7] + p[8] + p[9] + p[10] + p[11] + p[12] + p[13] + p[14]
  {
    ConcatFirstFive(p);
    ConcatFiveMore(p, 5);
    ConcatFiveMore(p, 10);
    assert p[..15] == p;
  }

  lemma {:induction false} ConcatFirstFive(p: seq<string>)
    requires |p| >= 5
    ensures Concat(p[..5]) == p[0] + p[1] + p[2] + p[3] + p[4]
  {
    assert p[..1] == [p[0]];
    assert Concat([p[0]]) == p[0] + Concat([]);
    ConcatPrefixStep(p, 1);
    ConcatPrefixStep(p, 2);
    ConcatPrefixStep(p, 3);
    ConcatPrefixStep(p, 4);
  }

  /** The example the upload panel shows its users. */
  lemma {:induction false} ExtractFromExampleName(name: string)
    requires name == "[COMPANY LIGHTS] June 14, 2025 - June 20, 2025"
    ensures ExtractTimePeriod(name) == "June 14, 2025 - June 20, 2025"
  {
    var prefix := "[COMPANY LIGHTS] ";
    ExampleDates();
    ExamplePrefix(prefix);
    ExamplePeriodSpelledOut();
    assert name == prefix + "June 14, 2025 - June 20, 2025" + "";
    ExtractDates(prefix, "June", "14", "2025", "June", "20", "2025", "");
  }

  /** With a file extension, the final `\d+` stops before the dot. */
  lemma {:induction false} ExtractFromNameWithExtension(name: string)
    requires name == "[X] June 14, 2025 - June 20, 2025.pdf"
    ensures ExtractTimePeriod(name) == "June 14, 2025 - June 20, 2025"
  {
    var prefix := "[X] ";
    ExampleDates();
    ExamplePrefix(prefix);
    assert ".pdf"[0] == '.';
    ExamplePeriodSpelledOut();
    assert name == prefix + "June 14, 2025 - June 20, 2025" + ".pdf";
    ExtractDates(prefix, "June", "14", "2025", "June", "20", "2025", ".pdf");
  }

  /** The words and numbers of the example period have the classes the pattern asks for. */
  lemma {:induction false} ExampleDates()
    ensures "June" != [] && !InClass("June"[0], Digit) && forall c :: c in "June" ==> InClass(c, Word)
    ensures forall c :: c in "14" + "2025" + "20" + "2025" ==> InClass(c, Digit)
  {
  }

  lemma {:induction false} ExamplePrefix(prefix: string)
    requires prefix in {"[COMPANY LIGHTS] ", "[X] "}
    ensures forall c :: c in prefix ==> !InClass(c, Digit)
    ensures prefix != [] && !InClass(prefix[|prefix| - 1], Word)
  {
  }

  lemma {:induction false} ExamplePeriodSpelledOut()
    ensures "June 14, 2025 - June 20, 2025" == "June" + " " + "14" + ", " + "2025" + " - " + "June" + " " + "20" + ", " + "2025"
  {
  }

  lemma {:induction false} ExtractFromNameWithoutPeriod(name: string)
    requires name == "report.pdf"
    ensures ExtractTimePeriod(name) == UnknownPeriod
  {
    NameWithoutCommaHasNoPeriod(name);
  }
}
