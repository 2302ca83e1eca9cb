/**
 * The free-text attendance line of the bot (`parseDavomat`):
 *   <sinf> <jami>/<kelgan> <names> kelmadi
 * where <sinf> is a class label (digits, an optional hyphen, an optional letter),
 * <jami> the number of pupils, <kelgan> the number present, and <names> the absent
 * pupils separated by commas or by the word "va" ("and"). Matching ignores case.
 */
module AttendanceLine {
  import opened Wrappers
  import opened Text

  /** A parsed report: class label, total, present, absent names in the order written. */
  datatype Parsed = Parsed(sinf: string, jami: nat, kelgan: nat, kelmaganlar: seq<string>)

  /**
   * The pieces of a line matched by `^(\d+[-]?[a-z]?)\s+(\d+)\/(\d+)\s+(.+?)\s+kelmadi$` (flag i):
   * the four capture groups and the text the pattern consumes around them.
   */
  datatype LineMatch = LineMatch(
    sinf: string, gap1: string, jami: string, kelgan: string,
    gap2: string, names: string, gap3: string, keyword: string)

  /** `\d+[-]?[a-z]?` matched by the whole of `g`. */
  predicate IsGroupToken(g: string) {
    var n := |g|;
    n >= 1 && IsDigit(g[0]) &&
    (|| AllDigits(g)
     || (n >= 2 && AllDigits(g[..n - 1]) && (g[n - 1] == '-' || IsLetter(g[n - 1])))
     || (n >= 3 && AllDigits(g[..n - 2]) && g[n - 2] == '-' && IsLetter(g[n - 1])))
  }

  predicate NoLineTerminator(s: string) {
    forall i :: 0 <= i < |s| ==> !IsLineTerminator(s[i])
  }

  /** Every piece has the shape its part of the pattern prescribes. */
  predicate WellShaped(m: LineMatch) {
    && IsGroupToken(m.sinf)
    && |m.gap1| > 0 && AllSpace(m.gap1)
    && |m.jami| > 0 && AllDigits(m.jami)
    && |m.kelgan| > 0 && AllDigits(m.kelgan)
    && |m.gap2| > 0 && AllSpace(m.gap2)
    && |m.names| > 0 && NoLineTerminator(m.names)
    && |m.gap3| > 0 && AllSpace(m.gap3)
    && EqualsIgnoreCase(m.keyword, "kelmadi")
  }

  function Glue(m: LineMatch): string {
    m.sinf + m.gap1 + m.jami + "/" + m.kelgan + m.gap2 + m.names + m.gap3 + m.keyword
  }

  /** End of the longest prefix matching `\d+[-]?[a-z]?` after its digits (0 when `t` has no leading digit). */
  function GroupTokenEnd(t: string): (r: nat)
    ensures r <= |t|
    ensures DigitRun(t, 0) > 0 ==> IsGroupToken(t[..r])
  {
    var d := DigitRun(t, 0);
    if d == 0 then 0
    else
      var h := if d < |t| && t[d] == '-' then d + 1 else d;
      var r := if h < |t| && IsLetter(t[h]) then h + 1 else h;
      assert t[..r][..d] == t[..d];
      assert r - 1 >= 1 ==> t[..r][..r - 1] == t[..r - 1];
      assert r - 2 >= 1 ==> t[..r][..r - 2] == t[..r - 2];
      r
  }

  /** The text between the counts and the keyword, cut into leading white space, core and trailing white space. */
  function SplitMiddle(mid: string): (r: (string, string, string))
    ensures r.0 + r.1 + r.2 == mid
    ensures AllSpace(r.0) && AllSpace(r.2)
    ensures r.1 == Trim(mid)
  {
    var ts := TrimStart(mid);
    var names := TrimEnd(ts);
    var lead := mid[..|mid| - |ts|];
    var trail := ts[|names|..];
    assert AllSpace(lead) && AllSpace(trail);
    ThreePieces(mid, ts, names);
    (lead, names, trail)
  }

  lemma ThreePieces(mid: string, ts: string, names: string)
    requires |ts| <= |mid| && ts == mid[|mid| - |ts|..]
    requires |names| <= |ts| && names == ts[..|names|]
    ensures mid[..|mid| - |ts|] + names + ts[|names|..] == mid
  {
    var k := |mid| - |ts|;
    assert names + ts[|names|..] == ts;
    assert mid[..k] + mid[k..] == mid;
  }

  lemma GlueSlices(t: string, i1: nat, i2: nat, i3: nat, i4: nat, k: nat, gap2: string, names: string, gap3: string)
    requires i1 <= i2 <= i3 < i4 <= k <= |t| && t[i3] == '/' && t[i4..k] == gap2 + names + gap3
    ensures Glue(LineMatch(t[..i1], t[i1..i2], t[i2..i3], t[i3 + 1..i4], gap2, names, gap3, t[k..])) == t
  {
    var a := t[..i1] + t[i1..i2] + t[i2..i3] + "/" + t[i3 + 1..i4];
    assert a == t[..i4];
    calc {
      Glue(LineMatch(t[..i1], t[i1..i2], t[i2..i3], t[i3 + 1..i4], gap2, names, gap3, t[k..]));
      a + gap2 + names + gap3 + t[k..];
      t[..i4] + (gap2 + names + gap3) + t[k..];
      t[..i4] + t[i4..k] + t[k..];
      t;
    }
  }

  /** Ends of the class label, of the white space after it, of the total and of the present count. */
  datatype Cuts = Cuts(labelEnd: nat, gapEnd: nat, jamiEnd: nat, kelganEnd: nat)

  predicate CutsFit(t: string, c: Cuts) {
    && c.labelEnd < c.gapEnd < c.jamiEnd && c.jamiEnd + 1 < c.kelganEnd <= |t| && t[c.jamiEnd] == '/'
    && IsGroupToken(t[..c.labelEnd]) && AllSpace(t[c.labelEnd..c.gapEnd])
    && AllDigits(t[c.gapEnd..c.jamiEnd]) && AllDigits(t[c.jamiEnd + 1..c.kelganEnd])
  }

  /**
   * The part of the pattern before the names: `(\d+[-]?[a-z]?)\s+(\d+)\/(\d+)`, giving the ends
   * of the class label, of the white space after it, of the total and of the present count.
   * Every one of these groups is forced: each is followed by a character it cannot contain.
   */
  function MatchCounts(t: string): (r: Option<Cuts>)
    ensures r.Some? ==> CutsFit(t, r.value)
  {
    if DigitRun(t, 0) == 0 then None
    else
      var i1 := GroupTokenEnd(t);
      var i2 := SpaceRun(t, i1);
      if i2 == i1 then None
      else
        var i3 := DigitRun(t, i2);
        if i3 == i2 || i3 == |t| || t[i3] != '/' then None
        else
          var i4 := DigitRun(t, i3 + 1);
          if i4 == i3 + 1 then None else Some(Cuts(i1, i2, i3, i4))
  }

  /**
   * The regular-expression match of a trimmed line. The lazy names group is the text between
   * the counts and the keyword without its outer white space. When that text is white space
   * only, the pattern can still match a single blank as names, but such names never survive
   * the split below, so the line is refused either way; this function refuses it here.
   */
  function MatchLine(t: string): (r: Option<LineMatch>)
    ensures r.Some? ==> WellShaped(r.value) && Glue(r.value) == t
  {
    match MatchCounts(t)
    case None => None
    case Some(c) => MatchTail(t, c)
  }

  /** The match made of the cuts of the counts part and the three pieces of the rest. */
  function Assemble(t: string, c: Cuts, gap2: string, names: string, gap3: string): LineMatch
    requires c.labelEnd <= c.gapEnd <= c.jamiEnd < c.kelganEnd <= |t| - 7
  {
    LineMatch(t[..c.labelEnd], t[c.labelEnd..c.gapEnd], t[c.gapEnd..c.jamiEnd],
              t[c.jamiEnd + 1..c.kelganEnd], gap2, names, gap3, t[|t| - 7..])
  }

  lemma TailFits(t: string, c: Cuts, gap2: string, names: string, gap3: string)
    requires CutsFit(t, c) && c.kelganEnd <= |t| - 7
    requires EqualsIgnoreCase(t[|t| - 7..], "kelmadi")
    requires t[c.kelganEnd..|t| - 7] == gap2 + names + gap3
    requires AllSpace(gap2) && AllSpace(gap3) && gap2 != [] && gap3 != [] && names != [] && NoLineTerminator(names)
    ensures WellShaped(Assemble(t, c, gap2, names, gap3)) && Glue(Assemble(t, c, gap2, names, gap3)) == t
  {
    AssembleShaped(t, c, gap2, names, gap3);
    GlueSlices(t, c.labelEnd, c.gapEnd, c.jamiEnd, c.kelganEnd, |t| - 7, gap2, names, gap3);
  }

  lemma AssembleShaped(t: string, c: Cuts, gap2: string, names: string, gap3: string)
    requires CutsFit(t, c) && c.kelganEnd <= |t| - 7
    requires EqualsIgnoreCase(t[|t| - 7..], "kelmadi")
    requires AllSpace(gap2) && AllSpace(gap3) && gap2 != [] && gap3 != [] && names != [] && NoLineTerminator(names)
    ensures WellShaped(Assemble(t, c, gap2, names, gap3))
  {
  }

  /** The part of the pattern after the counts: `\s+(.+?)\s+kelmadi$`. */
  function MatchTail(t: string, c: Cuts): (r: Option<LineMatch>)
    requires CutsFit(t, c)
    ensures r.Some? ==> WellShaped(r.value) && Glue(r.value) == t
  {
    if |t| < c.kelganEnd + 7 then None
    else
      var k := |t| - 7;
      if !EqualsIgnoreCase(t[k..], "kelmadi") then None
      else
        var parts := SplitMiddle(t[c.kelganEnd..k]);
        if parts.0 == [] || parts.2 == [] || parts.1 == [] || !NoLineTerminator(parts.1) then None
        else
          TailFits(t, c, parts.0, parts.1, parts.2);
          Some(Assemble(t, c, parts.0, parts.1, parts.2))
  }

  // ---------------------------------------------------------------- the match is the only one

  /** Where each piece of a glued line sits. */
  lemma GlueLayout(m: LineMatch)
    ensures var t := Glue(m);
      var a1 := |m.sinf|;
      var a2 := a1 + |m.gap1|;
      var a3 := a2 + |m.jami|;
      var a4 := a3 + 1 + |m.kelgan|;
      var k := a4 + |m.gap2| + |m.names| + |m.gap3|;
      && |t| == k + |m.keyword|
      && t[..a1] == m.sinf && t[a1..a2] == m.gap1 && t[a2..a3] == m.jami && t[a3] == '/'
      && t[a3 + 1..a4] == m.kelgan && t[a4..k] == m.gap2 + m.names + m.gap3 && t[k..] == m.keyword
  {
    var p1 := m.sinf + m.gap1;
    var p2 := p1 + m.jami;
    var p3 := p2 + "/";
    var p4 := p3 + m.kelgan;
    var p5 := p4 + m.gap2 + m.names + m.gap3;
    assert Glue(m) == p5 + m.keyword;
    assert p5 == p4 + (m.gap2 + m.names + m.gap3);
  }

  /** A class label followed by white space is taken whole by the pattern's first group. */
  lemma GroupTokenEndAt(t: string, g: string, rest: string)
    requires IsGroupToken(g) && t == g + rest && rest != [] && IsSpace(rest[0])
    ensures DigitRun(t, 0) > 0 && GroupTokenEnd(t) == |g|
  {
    var n := |g|;
    assert t[..n] == g && t[n] == rest[0];
    if AllDigits(g) {
      DigitRunAt(t, 0, n);
    } else if n >= 2 && AllDigits(g[..n - 1]) && (g[n - 1] == '-' || IsLetter(g[n - 1])) {
      assert t[..n - 1] == g[..n - 1];
      DigitRunAt(t, 0, n - 1);
    } else {
      assert t[..n - 2] == g[..n - 2];
      DigitRunAt(t, 0, n - 2);
    }
  }

  /** `MatchCounts` in terms of the runs it measures. */
  lemma MatchCountsOfRuns(t: string, c: Cuts)
    requires c.labelEnd < c.gapEnd < c.jamiEnd && c.jamiEnd + 1 < c.kelganEnd <= |t| && t[c.jamiEnd] == '/'
    requires DigitRun(t, 0) > 0 && GroupTokenEnd(t) == c.labelEnd && SpaceRun(t, c.labelEnd) == c.gapEnd
    requires DigitRun(t, c.gapEnd) == c.jamiEnd && DigitRun(t, c.jamiEnd + 1) == c.kelganEnd
    ensures MatchCounts(t) == Some(c)
  {
  }

  /** The counts part is matched at the cuts that fit it, when the present count is not followed by a digit. */
  lemma MatchCountsAt(t: string, c: Cuts)
    requires CutsFit(t, c) && (c.kelganEnd == |t| || !IsDigit(t[c.kelganEnd]))
    ensures MatchCounts(t) == Some(c)
  {
    LabelRunsAt(t, c);
    CountRunsAt(t, c);
    MatchCountsOfRuns(t, c);
  }

  /** The class label and the white space after it end at the cuts. */
  lemma LabelRunsAt(t: string, c: Cuts)
    requires CutsFit(t, c)
    ensures DigitRun(t, 0) > 0 && GroupTokenEnd(t) == c.labelEnd && SpaceRun(t, c.labelEnd) == c.gapEnd
  {
    var g := t[..c.labelEnd];
    assert t == g + t[c.labelEnd..];
    assert IsSpace(t[c.labelEnd..c.gapEnd][0]);
    GroupTokenEndAt(t, g, t[c.labelEnd..]);
    assert IsDigit(t[c.gapEnd..c.jamiEnd][0]);
    SpaceRunAt(t, c.labelEnd, c.gapEnd);
  }

  /** The two counts end at the cuts when the present count is not followed by a digit. */
  lemma CountRunsAt(t: string, c: Cuts)
    requires CutsFit(t, c) && (c.kelganEnd == |t| || !IsDigit(t[c.kelganEnd]))
    ensures DigitRun(t, c.gapEnd) == c.jamiEnd && DigitRun(t, c.jamiEnd + 1) == c.kelganEnd
  {
    DigitRunAt(t, c.gapEnd, c.jamiEnd);
    DigitRunAt(t, c.jamiEnd + 1, c.kelganEnd);
  }

  /** Where the pieces of a glued line end. */
  function CutsOf(m: LineMatch): Cuts {
    var a2 := |m.sinf| + |m.gap1|;
    Cuts(|m.sinf|, a2, a2 + |m.jami|, a2 + |m.jami| + 1 + |m.kelgan|)
  }

  lemma MatchCountsComplete(m: LineMatch)
    requires WellShaped(m)
    ensures MatchCounts(Glue(m)) == Some(CutsOf(m))
  {
    CutsOfFit(m);
    MatchCountsAt(Glue(m), CutsOf(m));
  }

  /** The cuts of a well-shaped match fit its glued line, and white space follows the present count. */
  lemma CutsOfFit(m: LineMatch)
    requires WellShaped(m)
    ensures CutsFit(Glue(m), CutsOf(m))
    ensures CutsOf(m).kelganEnd < |Glue(m)| && IsSpace(Glue(m)[CutsOf(m).kelganEnd])
  {
    var t := Glue(m);
    var c := CutsOf(m);
    GlueLayout(m);
    assert t[..c.labelEnd] == m.sinf && t[c.labelEnd..c.gapEnd] == m.gap1;
    assert t[c.gapEnd..c.jamiEnd] == m.jami && t[c.jamiEnd + 1..c.kelganEnd] == m.kelgan;
    var k := c.kelganEnd + |m.gap2| + |m.names| + |m.gap3|;
    assert t[c.kelganEnd..k] == m.gap2 + m.names + m.gap3;
    assert t[c.kelganEnd] == t[c.kelganEnd..k][0] == m.gap2[0];
  }

  lemma SplitMiddleComplete(gap2: string, names: string, gap3: string)
    requires AllSpace(gap2) && AllSpace(gap3) && names != [] && !IsSpace(names[0]) && !IsSpace(names[|names| - 1])
    ensures SplitMiddle(gap2 + names + gap3) == (gap2, names, gap3)
  {
    var mid := gap2 + names + gap3;
    var rest := names + gap3;
    assert mid == gap2 + rest && rest[0] == names[0];
    TrimStartSpaces(gap2, rest);
    TrimEndSpaces(names, gap3);
    assert mid[..|mid| - |rest|] == gap2 && rest[|names|..] == gap3;
  }

  lemma MatchTailAt(t: string, c: Cuts, gap2: string, names: string, gap3: string)
    requires CutsFit(t, c)
    requires AllSpace(gap2) && AllSpace(gap3) && gap2 != [] && gap3 != []
    requires names != [] && !IsSpace(names[0]) && !IsSpace(names[|names| - 1]) && NoLineTerminator(names)
    requires |t| == c.kelganEnd + |gap2 + names + gap3| + 7
    requires t[c.kelganEnd..|t| - 7] == gap2 + names + gap3
    requires EqualsIgnoreCase(t[|t| - 7..], "kelmadi")
    ensures MatchTail(t, c) == Some(Assemble(t, c, gap2, names, gap3))
  {
    var mid := t[c.kelganEnd..|t| - 7];
    SplitMiddleComplete(gap2, names, gap3);
    assert SplitMiddle(mid) == (gap2, names, gap3);
  }

  /** Cutting a glued line at its own cuts gives back its pieces. */
  lemma AssembleGlue(m: LineMatch)
    requires |m.keyword| == 7
    ensures var t := Glue(m);
      var c := CutsOf(m);
      && c.labelEnd <= c.gapEnd <= c.jamiEnd < c.kelganEnd <= |t| - 7
      && Assemble(t, c, m.gap2, m.names, m.gap3) == m
  {
    GlueLayout(m);
  }

  /** The rest of a glued line, after its counts, is matched as its own pieces. */
  lemma MatchTailComplete(m: LineMatch)
    requires WellShaped(m) && !IsSpace(m.names[0]) && !IsSpace(m.names[|m.names| - 1])
    requires CutsFit(Glue(m), CutsOf(m))
    ensures MatchTail(Glue(m), CutsOf(m)) == Some(m)
  {
    var t := Glue(m);
    var c := CutsOf(m);
    GlueLayout(m);
    MatchTailAt(t, c, m.gap2, m.names, m.gap3);
    AssembleGlue(m);
  }

  /**
   * Completeness of the match: every line built from well-shaped pieces whose names have no
   * outer white space is matched, and cut back into exactly those pieces.
   */
  lemma MatchLineComplete(m: LineMatch)
    requires WellShaped(m) && !IsSpace(m.names[0]) && !IsSpace(m.names[|m.names| - 1])
    ensures MatchLine(Glue(m)) == Some(m)
  {
    MatchCountsComplete(m);
    MatchTailComplete(m);
  }

  // ---------------------------------------------------------------- names

  /**
   * End of a match of `\s*,\s*|\s+va\s+` (flag i) starting at `q`: the alternatives are tried
   * in order, and each greedy `\s*` / `\s+` takes the whole run of white space.
   */
  function SeparatorEnd(s: string, q: nat): (r: Option<nat>)
    requires q <= |s|
    ensures r.Some? ==> q < r.value <= |s|
  {
    var e := SpaceRun(s, q);
    if e < |s| && s[e] == ',' then Some(SpaceRun(s, e + 1))
    else if e > q && e + 2 < |s| && LowerAscii(s[e]) == 'v' && LowerAscii(s[e + 1]) == 'a' && IsSpace(s[e + 2])
    then Some(SpaceRun(s, e + 3))
    else None
  }

  /**
   * `s.split(/\s*,\s*|\s+va\s+/i)`: `p` is where the current piece starts and `q` the next
   * position tried for a separator; the separator never matches the empty text.
   */
  function SplitNamesFrom(s: string, p: nat, q: nat): (r: seq<string>)
    requires p <= q <= |s|
    ensures |r| >= 1
    decreases |s| - q
  {
    if q == |s| then [s[p..]]
    else match SeparatorEnd(s, q)
      case Some(e) => [s[p..q]] + SplitNamesFrom(s, e, e)
      case None => SplitNamesFrom(s, p, q + 1)
  }

  /** `s.split(...)` always yields at least one piece, the empty text included. */
  function SplitNames(s: string): (r: seq<string>)
    ensures r != []
  {
    SplitNamesFrom(s, 0, 0)
  }

  /** `.map((s) => s.trim()).filter(Boolean)`. */
  function CleanNames(parts: seq<string>): (r: seq<string>)
    ensures |r| <= |parts|
    ensures forall t :: t in r ==> Trimmed(t)
  {
    if parts == [] then []
    else
      var t := Trim(parts[0]);
      (if t == [] then [] else [t]) + CleanNames(parts[1..])
  }

  // ---------------------------------------------------------------- the parser

  /**
   * `parseDavomat`: the whole report or nothing. A line is refused when the pattern does not
   * match, when more pupils are present than enrolled, or when no name is left after splitting.
   */
  function ParseDavomat(text: string): (r: Option<Parsed>)
    ensures r.Some? ==>
      && r.value.kelgan <= r.value.jami
      && |r.value.kelmaganlar| > 0
      && (forall i :: 0 <= i < |r.value.kelmaganlar| ==> Trimmed(r.value.kelmaganlar[i]))
      && IsGroupToken(r.value.sinf)
  {
    match MatchLine(Trim(text))
    case None => None
    case Some(m) => ReportOf(m)
  }

  /** The report read from a matched line: the counts as numbers, then the checks on them and on the names. */
  function ReportOf(m: LineMatch): (r: Option<Parsed>)
    requires WellShaped(m)
    ensures r.Some? ==>
      && r.value.kelgan <= r.value.jami
      && |r.value.kelmaganlar| > 0
      && (forall i :: 0 <= i < |r.value.kelmaganlar| ==> Trimmed(r.value.kelmaganlar[i]))
      && r.value.sinf == m.sinf
    ensures r.None? <==> DigitsValue(m.kelgan) > DigitsValue(m.jami) || CleanNames(SplitNames(m.names)) == []
    ensures r.Some? ==>
      && r.value.jami == DigitsValue(m.jami) && r.value.kelgan == DigitsValue(m.kelgan)
      && r.value.kelmaganlar == CleanNames(SplitNames(m.names))
  {
    var jami := DigitsValue(m.jami);
    var kelgan := DigitsValue(m.kelgan);
    if jami < kelgan then None
    else
      var names := CleanNames(SplitNames(m.names));
      if names == [] then None else Some(Parsed(m.sinf, jami, kelgan, names))
  }

  // ---------------------------------------------------------------- splitting written names

  /**
   * A name as the bot's users write it, "bobur" or "Ali Valiyev": no comma and no line break,
   * no white space at either end, and no word "va" (in any case) standing after white space
   * at the end of a word, so that no separator starts inside it.
   */
  predicate WrittenName(n: string) {
    Trimmed(n) && forall i :: 0 <= i < |n| ==> NameCharOk(n, i)
  }

  /**
   * The character at `i` is no comma and no line break, and a "va" starting there after white
   * space runs on into a longer word.
   */
  predicate NameCharOk(n: string, i: nat)
    requires i < |n|
  {
    && n[i] != ',' && !IsLineTerminator(n[i])
    && (0 < i < |n| - 1 && IsSpace(n[i - 1]) && LowerAscii(n[i]) == 'v' && LowerAscii(n[i + 1]) == 'a' ==>
          i + 2 < |n| && !IsSpace(n[i + 2]))
  }

  /** A one-word name, such as "bobur", is a written name. */
  lemma OneWordName(n: string)
    requires n != [] && forall i :: 0 <= i < |n| ==> !IsSpace(n[i]) && n[i] != ','
    ensures WrittenName(n)
  {
    forall i | 0 <= i < |n|
      ensures NameCharOk(n, i)
    {
      assert !IsSpace(n[i]);
    }
  }

  /**
   * A whole match of `\s*,\s*|\s+va\s+` (flag i): a comma with any white space around it, or
   * the word "va" in any case with white space on both sides, as in ", ", " ,  " or "\tVA ".
   */
  predicate IsSeparator(w: string) {
    var e := SpaceRun(w, 0);
    || (e < |w| && w[e] == ',' && AllSpace(w[e + 1..]))
    || (0 < e && e + 2 < |w| && LowerAscii(w[e]) == 'v' && LowerAscii(w[e + 1]) == 'a' && AllSpace(w[e + 2..]))
  }

  /** A separator inside one line: `.` in the line pattern matches no line terminator. */
  predicate InlineSeparator(w: string) {
    IsSeparator(w) && NoLineTerminator(w)
  }

  /** A separator starts with its comma or with white space. */
  lemma SeparatorStart(w: string)
    requires IsSeparator(w)
    ensures w != [] && (w[0] == ',' || IsSpace(w[0]))
  {
    var e := SpaceRun(w, 0);
    if 0 < e {
      assert w[0] == w[0..e][0];
    }
  }

  /** Names written one after the other, `seps[i]` between `ns[i]` and `ns[i + 1]`. */
  function Interleave(ns: seq<string>, seps: seq<string>): string
    requires |ns| >= 1 && |seps| == |ns| - 1
  {
    if |ns| == 1 then ns[0] else ns[0] + seps[0] + Interleave(ns[1..], seps[1..])
  }

  /**
   * No separator starts inside a written name that is followed by the end of the text or by
   * a separator (whose first character is ',' or white space).
   */
  lemma NoSeparatorInName(s: string, p: nat, w: string, q: nat)
    requires WrittenName(w) && p + |w| <= |s| && s[p..p + |w|] == w
    requires p + |w| < |s| ==> s[p + |w|] == ',' || IsSpace(s[p + |w|])
    requires p <= q < p + |w|
    ensures SeparatorEnd(s, q) == None
  {
    var last := p + |w| - 1;
    assert s[last] == w[|w| - 1];
    SpaceRunStops(s, q, last);
    var e := SpaceRun(s, q);
    assert s[e] == w[e - p] && NameCharOk(w, e - p);
    if e > q {
      assert s[e - 1] == s[q..e][e - 1 - q];
      var i := e - p;
      assert w[i - 1] == s[e - 1];
      if e + 1 < p + |w| {
        assert w[i + 1] == s[e + 1];
        if LowerAscii(s[e]) == 'v' && LowerAscii(s[e + 1]) == 'a' {
          assert w[i + 2] == s[e + 2];
        }
      }
    }
  }

  /** A run of white space stops at the first visible character. */
  lemma {:induction false} SpaceRunStops(s: string, q: nat, j: nat)
    requires q <= j < |s| && !IsSpace(s[j])
    ensures SpaceRun(s, q) <= j
    decreases j - q
  {
    if q < j && IsSpace(s[q]) {
      SpaceRunStops(s, q + 1, j);
    }
  }

  /** Scanning over a written name finds no separator in it. */
  lemma {:induction false} SplitSkipsName(s: string, p0: nat, p: nat, w: string, q: nat)
    requires WrittenName(w) && p + |w| <= |s| && s[p..p + |w|] == w
    requires p + |w| < |s| ==> s[p + |w|] == ',' || IsSpace(s[p + |w|])
    requires p0 <= p <= q <= p + |w|
    ensures SplitNamesFrom(s, p0, q) == SplitNamesFrom(s, p0, p + |w|)
    decreases p + |w| - q
  {
    if q < p + |w| {
      NoSeparatorInName(s, p, w, q);
      SplitSkipsName(s, p0, p, w, q + 1);
    }
  }

  /** A separator followed by a name ends the current piece; the match takes the whole separator. */
  lemma SplitAtSeparator(s: string, p: nat, j: nat, w: string)
    requires IsSeparator(w) && p <= j && j + |w| < |s| && s[j..j + |w|] == w && !IsSpace(s[j + |w|])
    ensures SplitNamesFrom(s, p, j) == [s[p..j]] + SplitNamesFrom(s, j + |w|, j + |w|)
  {
    assert SeparatorEnd(s, j) == Some(j + |w|) by {
      SeparatorMatch(s, j, w);
    }
  }

  /** `SeparatorEnd` finds exactly a separator written at `j` and followed by a visible character. */
  lemma SeparatorMatch(s: string, j: nat, w: string)
    requires IsSeparator(w) && j + |w| < |s| && s[j..j + |w|] == w && !IsSpace(s[j + |w|])
    ensures SeparatorEnd(s, j) == Some(j + |w|)
  {
    var e := SpaceRun(w, 0);
    LeadRun(s, j, w);
    if e < |w| && w[e] == ',' {
      CommaRest(s, j, w, e);
    } else {
      VaRest(s, j, w, e);
    }
  }

  /** The white space a separator starts with is the run `SeparatorEnd` skips first. */
  lemma LeadRun(s: string, j: nat, w: string)
    requires j + |w| < |s| && s[j..j + |w|] == w && !IsSpace(s[j + |w|])
    ensures var e := SpaceRun(w, 0); SpaceRun(s, j) == j + e && (e < |w| ==> s[j + e] == w[e])
  {
    var e := SpaceRun(w, 0);
    assert s[j..j + e] == w[..e];
    assert e < |w| ==> s[j + e] == w[e];
    SpaceRunAt(s, j, j + e);
  }

  /** A comma separator: the rest after the comma is white space up to the next name. */
  lemma CommaRest(s: string, j: nat, w: string, e: nat)
    requires e < |w| && w[e] == ',' && AllSpace(w[e + 1..])
    requires j + |w| < |s| && s[j..j + |w|] == w && !IsSpace(s[j + |w|])
    requires SpaceRun(s, j) == j + e && s[j + e] == w[e]
    ensures SeparatorEnd(s, j) == Some(j + |w|)
  {
    assert s[j + e + 1..j + |w|] == w[e + 1..];
    SpaceRunAt(s, j + e + 1, j + |w|);
  }

  /** A "va" separator: the rest after "va" is white space up to the next name. */
  lemma VaRest(s: string, j: nat, w: string, e: nat)
    requires 0 < e && e + 2 < |w| && LowerAscii(w[e]) == 'v' && LowerAscii(w[e + 1]) == 'a' && AllSpace(w[e + 2..])
    requires j + |w| < |s| && s[j..j + |w|] == w && !IsSpace(s[j + |w|])
    requires SpaceRun(s, j) == j + e && s[j + e] == w[e]
    ensures SeparatorEnd(s, j) == Some(j + |w|)
  {
    assert s[j + e + 1] == w[e + 1] && s[j + e + 2] == w[e + 2];
    assert IsSpace(w[e + 2..][0]);
    assert s[j + e] != ',';
    assert s[j + e + 3..j + |w|] == w[e + 3..] == w[e + 2..][1..];
    SpaceRunAt(s, j + e + 3, j + |w|);
  }

  /** Where the first name, the first separator and the rest of the names sit. */
  lemma InterleaveLayout(s: string, p: nat, ns: seq<string>, seps: seq<string>)
    requires |ns| >= 2 && |seps| == |ns| - 1 && WrittenName(ns[1])
    requires p <= |s| && s[p..] == Interleave(ns, seps)
    ensures var j := p + |ns[0]|; var w := seps[0];
      && j + |w| < |s| && s[p..j] == ns[0] && s[j..j + |w|] == w
      && s[j + |w|..] == Interleave(ns[1..], seps[1..]) && s[j + |w|] == ns[1][0]
  {
    var rest := Interleave(ns[1..], seps[1..]);
    assert s[p..] == ns[0] + seps[0] + rest;
    assert rest[0] == ns[1][0];
  }

  /** The first name and the separator after it, then whatever the rest splits into. */
  lemma SplitFirstName(s: string, p: nat, n: string, w: string, tail: seq<string>)
    requires WrittenName(n) && IsSeparator(w)
    requires p + |n| + |w| < |s| && s[p..p + |n|] == n && s[p + |n|..p + |n| + |w|] == w
    requires !IsSpace(s[p + |n| + |w|])
    requires SplitNamesFrom(s, p + |n| + |w|, p + |n| + |w|) == tail
    ensures SplitNamesFrom(s, p, p) == [n] + tail
  {
    SeparatorStart(w);
    assert s[p + |n|] == w[0];
    SplitSkipsName(s, p, p, n, p);
    SplitAtSeparator(s, p, p + |n|, w);
  }

  /** The last name runs to the end of the text and is the last piece. */
  lemma SplitLastName(s: string, p: nat, n: string)
    requires WrittenName(n) && p <= |s| && s[p..] == n
    ensures SplitNamesFrom(s, p, p) == [n]
  {
    assert p + |n| == |s| && s[p..p + |n|] == n;
    SplitSkipsName(s, p, p, n, p);
  }

  lemma {:induction false} SplitInterleaveFrom(s: string, p: nat, ns: seq<string>, seps: seq<string>)
    requires |ns| >= 1 && |seps| == |ns| - 1
    requires forall i :: 0 <= i < |ns| ==> WrittenName(ns[i])
    requires forall i :: 0 <= i < |seps| ==> IsSeparator(seps[i])
    requires p <= |s| && s[p..] == Interleave(ns, seps)
    ensures SplitNamesFrom(s, p, p) == ns
    decreases |ns|, 1
  {
    if |ns| == 1 {
      assert WrittenName(ns[0]);
      SplitLastName(s, p, ns[0]);
    } else {
      SplitInterleaveCons(s, p, ns, seps);
    }
  }

  /** The inductive step of `SplitInterleaveFrom`: at least two names. */
  lemma {:induction false} SplitInterleaveCons(s: string, p: nat, ns: seq<string>, seps: seq<string>)
    requires |ns| >= 2 && |seps| == |ns| - 1
    requires forall i :: 0 <= i < |ns| ==> WrittenName(ns[i])
    requires forall i :: 0 <= i < |seps| ==> IsSeparator(seps[i])
    requires p <= |s| && s[p..] == Interleave(ns, seps)
    ensures SplitNamesFrom(s, p, p) == ns
    decreases |ns|, 0
  {
    var n, w := ns[0], seps[0];
    var e := p + |n| + |w|;
    assert WrittenName(n) && IsSeparator(w);
    assert e < |s| && s[p..p + |n|] == n && s[p + |n|..e] == w && !IsSpace(s[e])
        && s[e..] == Interleave(ns[1..], seps[1..]) by {
      assert WrittenName(ns[1]);
      InterleaveLayout(s, p, ns, seps);
    }
    assert SplitNamesFrom(s, e, e) == ns[1..] by {
      SplitInterleaveFrom(s, e, ns[1..], seps[1..]);
    }
    SplitInterleaveStep(s, p, ns, w);
  }

  lemma FirstAndRest(ns: seq<string>)
    requires ns != []
    ensures [ns[0]] + ns[1..] == ns
  {
  }

  /** The first name, then the pieces the rest splits into. */
  lemma SplitInterleaveStep(s: string, p: nat, ns: seq<string>, w: string)
    requires |ns| >= 2 && WrittenName(ns[0]) && IsSeparator(w)
    requires p + |ns[0]| + |w| < |s| && s[p..p + |ns[0]|] == ns[0]
    requires s[p + |ns[0]|..p + |ns[0]| + |w|] == w && !IsSpace(s[p + |ns[0]| + |w|])
    requires SplitNamesFrom(s, p + |ns[0]| + |w|, p + |ns[0]| + |w|) == ns[1..]
    ensures SplitNamesFrom(s, p, p) == ns
  {
    SplitFirstName(s, p, ns[0], w, ns[1..]);
    FirstAndRest(ns);
  }

  /** Splitting gives back the names written with commas and "va" between them. */
  lemma SplitInterleave(ns: seq<string>, seps: seq<string>)
    requires |ns| >= 1 && |seps| == |ns| - 1
    requires forall i :: 0 <= i < |ns| ==> WrittenName(ns[i])
    requires forall i :: 0 <= i < |seps| ==> IsSeparator(seps[i])
    ensures SplitNames(Interleave(ns, seps)) == ns
  {
    var s := Interleave(ns, seps);
    assert s[0..] == s;
    SplitInterleaveFrom(s, 0, ns, seps);
  }

  /** Trimming and dropping empty pieces keeps written names as they are. */
  lemma {:induction false} CleanWrittenNames(ns: seq<string>)
    requires forall i :: 0 <= i < |ns| ==> WrittenName(ns[i])
    ensures CleanNames(ns) == ns
  {
    if ns != [] {
      assert WrittenName(ns[0]);
      TrimNoop(ns[0]);
      CleanWrittenNames(ns[1..]);
    }
  }

  /** A written name holds no line terminator. */
  lemma WrittenNameOneLine(n: string)
    requires WrittenName(n)
    ensures NoLineTerminator(n)
  {
    forall i | 0 <= i < |n| ensures !IsLineTerminator(n[i]) {
      assert NameCharOk(n, i);
    }
  }

  lemma {:induction false} InterleaveShape(ns: seq<string>, seps: seq<string>)
    requires |ns| >= 1 && |seps| == |ns| - 1
    requires forall i :: 0 <= i < |ns| ==> WrittenName(ns[i])
    requires forall i :: 0 <= i < |seps| ==> InlineSeparator(seps[i])
    ensures var s := Interleave(ns, seps);
      && |ns[0]| >= 1 && |ns[|ns| - 1]| >= 1
      && |s| >= 1 && s[0] == ns[0][0] && s[|s| - 1] == ns[|ns| - 1][|ns[|ns| - 1]| - 1]
      && NoLineTerminator(s)
  {
    assert WrittenName(ns[0]);
    WrittenNameOneLine(ns[0]);
    if |ns| > 1 {
      InterleaveShape(ns[1..], seps[1..]);
      var w := seps[0];
      var rest := Interleave(ns[1..], seps[1..]);
      var s := ns[0] + w + rest;
      forall i | 0 <= i < |s| ensures !IsLineTerminator(s[i]) {
        if i < |ns[0]| {
          assert s[i] == ns[0][i];
        } else if i < |ns[0]| + |w| {
          assert s[i] == w[i - |ns[0]|];
        } else {
          assert s[i] == rest[i - |ns[0]| - |w|];
        }
      }
    }
  }

  // ---------------------------------------------------------------- round trip

  /** The line a teacher writes for a report, with the given separators between the names. */
  function Line(p: Parsed, seps: seq<string>): string
    requires |p.kelmaganlar| >= 1 && |seps| == |p.kelmaganlar| - 1
  {
    p.sinf + " " + NatToString(p.jami) + "/" + NatToString(p.kelgan) + " "
      + Interleave(p.kelmaganlar, seps) + " kelmadi"
  }

  /** The pieces the pattern cuts a written line into. */
  function LineMatchOf(p: Parsed, seps: seq<string>): LineMatch
    requires |p.kelmaganlar| >= 1 && |seps| == |p.kelmaganlar| - 1
  {
    LineMatch(p.sinf, " ", NatToString(p.jami), NatToString(p.kelgan), " ",
              Interleave(p.kelmaganlar, seps), " ", "kelmadi")
  }

  lemma LineMatchOfShape(p: Parsed, seps: seq<string>)
    requires IsGroupToken(p.sinf)
    requires |p.kelmaganlar| >= 1 && |seps| == |p.kelmaganlar| - 1
    requires forall i :: 0 <= i < |p.kelmaganlar| ==> WrittenName(p.kelmaganlar[i])
    requires forall i :: 0 <= i < |seps| ==> InlineSeparator(seps[i])
    ensures var m := LineMatchOf(p, seps);
      WellShaped(m) && !IsSpace(m.names[0]) && !IsSpace(m.names[|m.names| - 1]) && Glue(m) == Line(p, seps)
  {
    InterleaveShape(p.kelmaganlar, seps);
    assert WrittenName(p.kelmaganlar[0]);
    assert WrittenName(p.kelmaganlar[|p.kelmaganlar| - 1]);
    assert EqualsIgnoreCase("kelmadi", "kelmadi");
  }

  /**
   * Round trip: a line written from a class label, counts with at most as many present as
   * enrolled, and one or more names separated by commas or "va" parses back to that report.
   */
  lemma ParseLine(p: Parsed, seps: seq<string>)
    requires IsGroupToken(p.sinf) && p.kelgan <= p.jami
    requires |p.kelmaganlar| >= 1 && |seps| == |p.kelmaganlar| - 1
    requires forall i :: 0 <= i < |p.kelmaganlar| ==> WrittenName(p.kelmaganlar[i])
    requires forall i :: 0 <= i < |seps| ==> InlineSeparator(seps[i])
    ensures ParseDavomat(Line(p, seps)) == Some(p)
  {
    LineMatches(p, seps);
    var m := LineMatchOf(p, seps);
    SplitInterleave(p.kelmaganlar, seps);
    CleanWrittenNames(p.kelmaganlar);
    assert ReportOf(m) == Some(p);
  }

  /** A line that is well formed except that more pupils are present than enrolled is refused. */
  lemma RefuseMorePresent(p: Parsed, seps: seq<string>)
    requires IsGroupToken(p.sinf) && p.kelgan > p.jami
    requires |p.kelmaganlar| >= 1 && |seps| == |p.kelmaganlar| - 1
    requires forall i :: 0 <= i < |p.kelmaganlar| ==> WrittenName(p.kelmaganlar[i])
    requires forall i :: 0 <= i < |seps| ==> InlineSeparator(seps[i])
    ensures ParseDavomat(Line(p, seps)) == None
  {
    LineMatches(p, seps);
    assert ReportOf(LineMatchOf(p, seps)) == None;
  }

  /** A written line is its own trimmed form, and the pattern cuts it into the pieces it was written from. */
  lemma LineMatches(p: Parsed, seps: seq<string>)
    requires IsGroupToken(p.sinf)
    requires |p.kelmaganlar| >= 1 && |seps| == |p.kelmaganlar| - 1
    requires forall i :: 0 <= i < |p.kelmaganlar| ==> WrittenName(p.kelmaganlar[i])
    requires forall i :: 0 <= i < |seps| ==> InlineSeparator(seps[i])
    ensures WellShaped(LineMatchOf(p, seps))
    ensures MatchLine(Trim(Line(p, seps))) == Some(LineMatchOf(p, seps))
  {
    LineMatchOfShape(p, seps);
    LineTrimmed(p, seps);
    MatchLineComplete(LineMatchOf(p, seps));
  }

  /** A written line starts with its class label and ends with "kelmadi", so trimming keeps it. */
  lemma LineTrimmed(p: Parsed, seps: seq<string>)
    requires IsGroupToken(p.sinf)
    requires |p.kelmaganlar| >= 1 && |seps| == |p.kelmaganlar| - 1
    ensures Trim(Line(p, seps)) == Line(p, seps)
  {
    var t := Line(p, seps);
    assert t[0] == p.sinf[0] && t[|t| - 1] == 'i';
    TrimNoop(t);
  }
}
