/**
 * String helpers with the semantics of the ECMAScript built-ins the bot relies on:
 * the `\s` character class (which is also what `String.prototype.trim` removes),
 * `\d`, `[a-z]` under the `i` flag, `String.prototype.split(/\s+/)`, `Array.prototype.join`,
 * decimal `parseInt` and number-to-string, and `length` in UTF-16 code units.
 */
module Text {

  /** `\s`: WhiteSpace and LineTerminator code points of ECMAScript. */
  predicate IsSpace(c: char) {
    var n := c as int;
    n == 0x09 || n == 0x0A || n == 0x0B || n == 0x0C || n == 0x0D || n == 0x20 ||
    n == 0xA0 || n == 0x1680 || (0x2000 <= n <= 0x200A) || n == 0x2028 || n == 0x2029 ||
    n == 0x202F || n == 0x205F || n == 0x3000 || n == 0xFEFF
  }

  /** What `.` refuses to match: the LineTerminator code points. */
  predicate IsLineTerminator(c: char) {
    c == '\n' || c == '\r' || c as int == 0x2028 || c as int == 0x2029
  }

  predicate IsDigit(c: char) { '0' <= c <= '9' }

  /** `[a-z]` under the `i` flag (non-Unicode mode folds ASCII letters only). */
  predicate IsLetter(c: char) { 'a' <= c <= 'z' || 'A' <= c <= 'Z' }

  function LowerAscii(c: char): char {
    if 'A' <= c <= 'Z' then (c as int + 32) as char else c
  }

  /** Case-insensitive equality of a text against an ASCII lower-case word, as `/word/i` matches. */
  predicate EqualsIgnoreCase(s: string, word: string) {
    |s| == |word| && forall i :: 0 <= i < |s| ==> LowerAscii(s[i]) == word[i]
  }

  /** A word in ASCII lower case, as the bot's command names are. */
  predicate LowerWord(w: string) {
    forall i :: 0 <= i < |w| ==> LowerAscii(w[i]) == w[i]
  }

  predicate AllDigits(s: string) { forall i :: 0 <= i < |s| ==> IsDigit(s[i]) }

  predicate AllSpace(s: string) { forall i :: 0 <= i < |s| ==> IsSpace(s[i]) }

  /** `s.startsWith(p)`. */
  predicate StartsWith(s: string, p: string) {
    |p| <= |s| && s[..|p|] == p
  }

  /** A text as `trim()` leaves it, and not empty: a stored name, a rendered report line. */
  predicate Trimmed(s: string) {
    s != [] && !IsSpace(s[0]) && !IsSpace(s[|s| - 1])
  }

  // ---------------------------------------------------------------- trimming

  function TrimStart(s: string): (r: string)
    ensures |r| <= |s| && r == s[|s| - |r|..]
    ensures r == [] || !IsSpace(r[0])
    ensures AllSpace(s[..|s| - |r|])
  {
    if |s| > 0 && IsSpace(s[0]) then TrimStart(s[1..]) else s
  }

  function TrimEnd(s: string): (r: string)
    ensures |r| <= |s| && r == s[..|r|]
    ensures r == [] || !IsSpace(r[|r| - 1])
    ensures AllSpace(s[|r|..])
  {
    if |s| > 0 && IsSpace(s[|s| - 1]) then TrimEnd(s[..|s| - 1]) else s
  }

  /** `String.prototype.trim`. */
  function Trim(s: string): (r: string)
    ensures |r| <= |s|
    ensures r == [] || (!IsSpace(r[0]) && !IsSpace(r[|r| - 1]))
  {
    TrimEnd(TrimStart(s))
  }

  lemma TrimStartNoop(s: string)
    requires s == [] || !IsSpace(s[0])
    ensures TrimStart(s) == s
  {
  }

  lemma TrimEndNoop(s: string)
    requires s == [] || !IsSpace(s[|s| - 1])
    ensures TrimEnd(s) == s
  {
  }

  /** Trimming leaves a text without outer white space as it is. */
  lemma TrimNoop(s: string)
    requires s == [] || (!IsSpace(s[0]) && !IsSpace(s[|s| - 1]))
    ensures Trim(s) == s
  {
    TrimStartNoop(s);
    TrimEndNoop(s);
  }

  /** Trimming a text that ends in white space only removes that white space. */
  lemma {:induction false} TrimEndSpaces(s: string, w: string)
    requires AllSpace(w)
    requires s == [] || !IsSpace(s[|s| - 1])
    ensures TrimEnd(s + w) == s
    decreases |w|
  {
    if w == [] {
      assert s + w == s;
      TrimEndNoop(s);
    } else {
      assert (s + w)[..|s + w| - 1] == s + w[..|w| - 1];
      TrimEndSpaces(s, w[..|w| - 1]);
    }
  }

  // ---------------------------------------------------------------- runs

  /** End of the run of digits that starts at `i` (what a greedy `\d+` / `\d*` consumes). */
  function DigitRun(s: string, i: nat): (r: nat)
    requires i <= |s|
    ensures i <= r <= |s|
    ensures AllDigits(s[i..r])
    ensures r == |s| || !IsDigit(s[r])
    decreases |s| - i
  {
    if i < |s| && IsDigit(s[i]) then DigitRun(s, i + 1) else i
  }

  /** End of the run of white space that starts at `i` (what a greedy `\s*` consumes). */
  function SpaceRun(s: string, i: nat): (r: nat)
    requires i <= |s|
    ensures i <= r <= |s|
    ensures AllSpace(s[i..r])
    ensures r == |s| || !IsSpace(s[r])
    decreases |s| - i
  {
    if i < |s| && IsSpace(s[i]) then SpaceRun(s, i + 1) else i
  }

  /** A run of digits that stops where the text does, or at a non-digit, is the one `DigitRun` finds. */
  lemma {:induction false} DigitRunAt(s: string, i: nat, j: nat)
    requires i <= j <= |s| && AllDigits(s[i..j]) && (j == |s| || !IsDigit(s[j]))
    ensures DigitRun(s, i) == j
    decreases j - i
  {
    if i < j {
      assert IsDigit(s[i..j][0]);
      assert s[i + 1..j] == s[i..j][1..];
      DigitRunAt(s, i + 1, j);
    }
  }

  lemma {:induction false} SpaceRunAt(s: string, i: nat, j: nat)
    requires i <= j <= |s| && AllSpace(s[i..j]) && (j == |s| || !IsSpace(s[j]))
    ensures SpaceRun(s, i) == j
    decreases j - i
  {
    if i < j {
      assert IsSpace(s[i..j][0]);
      assert s[i + 1..j] == s[i..j][1..];
      SpaceRunAt(s, i + 1, j);
    }
  }

  /** Trimming the start of white space followed by a text that starts with no white space. */
  lemma {:induction false} TrimStartSpaces(w: string, s: string)
    requires AllSpace(w)
    requires s == [] || !IsSpace(s[0])
    ensures TrimStart(w + s) == s
    decreases |w|
  {
    if w == [] {
      assert w + s == s;
      TrimStartNoop(s);
    } else {
      assert (w + s)[0] == w[0] && (w + s)[1..] == w[1..] + s;
      TrimStartSpaces(w[1..], s);
    }
  }

  // ---------------------------------------------------------------- numbers

  function DigitValue(c: char): nat requires IsDigit(c) { c as int - '0' as int }

  /** `parseInt(s, 10)` of a string of decimal digits, in unbounded integers. */
  function DigitsValue(s: string): nat
    requires AllDigits(s)
  {
    if s == [] then 0 else DigitsValue(s[..|s| - 1]) * 10 + DigitValue(s[|s| - 1])
  }

  function DigitChar(d: nat): (c: char)
    requires d < 10
    ensures IsDigit(c) && DigitValue(c) == d
  {
    ('0' as int + d) as char
  }

  /** Decimal rendering of a non-negative number, as a template literal prints it. */
  function NatToString(n: nat): (r: string)
    ensures |r| >= 1 && AllDigits(r) && DigitsValue(r) == n
    ensures r[0] == '0' ==> n == 0 && |r| == 1
  {
    if n < 10 then [DigitChar(n)]
    else
      var p := NatToString(n / 10);
      var r := p + [DigitChar(n % 10)];
      assert r[..|r| - 1] == p;
      r
  }

  // ---------------------------------------------------------------- lengths

  /** `String.prototype.length`: code points above U+FFFF take two UTF-16 code units. */
  function Utf16Len(s: string): nat {
    if s == [] then 0 else (if s[0] as int > 0xFFFF then 2 else 1) + Utf16Len(s[1..])
  }

  /** Every character takes one or two code units. */
  lemma {:induction false} Utf16LenBounds(s: string)
    ensures |s| <= Utf16Len(s) <= 2 * |s|
  {
    if s != [] { Utf16LenBounds(s[1..]); }
  }

  lemma {:induction false} Utf16LenAppend(a: string, b: string)
    ensures Utf16Len(a + b) == Utf16Len(a) + Utf16Len(b)
  {
    if a == [] {
      assert a + b == b;
    } else {
      assert (a + b)[0] == a[0] && (a + b)[1..] == a[1..] + b;
      Utf16LenAppend(a[1..], b);
    }
  }

  // ---------------------------------------------------------------- join and split

  predicate NoSpace(w: string) { forall i :: 0 <= i < |w| ==> !IsSpace(w[i]) }

  /** `Array.prototype.join(sep)`. */
  function Join(parts: seq<string>, sep: string): string {
    if parts == [] then []
    else if |parts| == 1 then parts[0]
    else parts[0] + sep + Join(parts[1..], sep)
  }

  lemma JoinFirst(parts: seq<string>, sep: string)
    requires parts != [] && parts[0] != []
    ensures var j := Join(parts, sep); j != [] && j[0] == parts[0][0]
  {
  }

  lemma {:induction false} JoinLast(parts: seq<string>, sep: string)
    requires parts != [] && parts[|parts| - 1] != []
    ensures var j := Join(parts, sep);
      j != [] && j[|j| - 1] == parts[|parts| - 1][|parts[|parts| - 1]| - 1]
  {
    if |parts| > 1 {
      JoinLast(parts[1..], sep);
    }
  }

  /** The ends of a join of trimmed parts are visible characters. */
  lemma JoinTrimmed(parts: seq<string>, sep: string)
    requires parts != [] && Trimmed(parts[0]) && Trimmed(parts[|parts| - 1])
    ensures Trimmed(Join(parts, sep))
  {
    JoinFirst(parts, sep);
    JoinLast(parts, sep);
  }

  /**
   * `s.split(/\s+/)`: scanning from the end `p` of the last separator, the first
   * position `q` holding white space starts the next separator, which runs to the
   * end of that white space.
   */
  function SplitSpacesFrom(s: string, p: nat, q: nat): (r: seq<string>)
    requires p <= q <= |s| && NoSpace(s[p..q])
    ensures |r| >= 1
    ensures forall i :: 0 <= i < |r| ==> NoSpace(r[i])
    decreases |s| - q
  {
    if q == |s| then [s[p..]]
    else if IsSpace(s[q]) then
      var e := SpaceRun(s, q);
      [s[p..q]] + SplitSpacesFrom(s, e, e)
    else
      assert s[p..q + 1] == s[p..q] + [s[q]];
      SplitSpacesFrom(s, p, q + 1)
  }

  /** The pieces of `s.split(/\s+/)`: never empty as a list, and no piece holds white space. */
  function SplitSpaces(s: string): (r: seq<string>)
    ensures |r| >= 1
    ensures forall i :: 0 <= i < |r| ==> NoSpace(r[i])
  {
    SplitSpacesFrom(s, 0, 0)
  }

  /**
   * A scan inside a word that ends at `e` (at white space or at the end of the text) makes
   * the word one piece and resumes after the white space that follows it.
   */
  lemma {:induction false} ScanWord(s: string, p: nat, q: nat, e: nat)
    requires p <= q <= e <= |s| && NoSpace(s[p..e]) && (e == |s| || IsSpace(s[e]))
    ensures NoSpace(s[p..q])
    ensures SplitSpacesFrom(s, p, q)
      == if e == |s| then [s[p..]] else [s[p..e]] + SplitSpacesFrom(s, SpaceRun(s, e), SpaceRun(s, e))
    decreases e - q
  {
    assert forall i :: 0 <= i < q - p ==> s[p..q][i] == s[p..e][i];
    if q < e {
      assert s[q] == s[p..e][q - p];
      ScanWord(s, p, q + 1, e);
    }
  }

  /** The words of `s[p..]`, written with single spaces between them, are the pieces found from `p`. */
  lemma {:induction false} SplitJoinFrom(s: string, p: nat, ws: seq<string>)
    requires p <= |s| && s[p..] == Join(ws, " ")
    requires ws != [] && forall i :: 0 <= i < |ws| ==> ws[i] != [] && NoSpace(ws[i])
    ensures SplitSpacesFrom(s, p, p) == ws
    decreases |ws|
  {
    var e := p + |ws[0]|;
    if |ws| == 1 {
      assert s[p..e] == ws[0];
      ScanWord(s, p, p, e);
    } else {
      var rest := Join(ws[1..], " ");
      assert s[p..] == ws[0] + " " + rest;
      assert s[p..e] == ws[0];
      assert s[e..e + 1] == " ";
      assert s[e + 1..] == rest;
      JoinFirst(ws[1..], " ");
      SpaceRunAt(s, e, e + 1);
      ScanWord(s, p, p, e);
      SplitJoinFrom(s, e + 1, ws[1..]);
    }
  }

  /** `split(/\s+/)` undoes `join(' ')` on words without white space. */
  lemma SplitSpacesJoin(ws: seq<string>)
    requires ws != [] && forall i :: 0 <= i < |ws| ==> ws[i] != [] && NoSpace(ws[i])
    ensures SplitSpaces(Join(ws, " ")) == ws
  {
    var s := Join(ws, " ");
    assert s[0..] == s;
    SplitJoinFrom(s, 0, ws);
  }

  // ---------------------------------------------------------------- ordering

  /** Code-point lexicographic order on texts (the order `/guruhlar` lists groups in). */
  predicate Before(a: string, b: string) {
    if a == [] then b != []
    else if b == [] then false
    else if a[0] != b[0] then a[0] < b[0]
    else Before(a[1..], b[1..])
  }

  lemma {:induction false} BeforeIrreflexive(a: string)
    ensures !Before(a, a)
  {
    if a != [] { BeforeIrreflexive(a[1..]); }
  }

  lemma {:induction false} BeforeTransitive(a: string, b: string, c: string)
    requires Before(a, b) && Before(b, c)
    ensures Before(a, c)
  {
    if a != [] && b != [] && c != [] && a[0] == b[0] && b[0] == c[0] {
      BeforeTransitive(a[1..], b[1..], c[1..]);
    }
  }

  lemma {:induction false} BeforeTotal(a: string, b: string)
    requires a != b
    ensures Before(a, b) || Before(b, a)
  {
    if a != [] && b != [] && a[0] == b[0] {
      assert a == [a[0]] + a[1..] && b == [b[0]] + b[1..];
      BeforeTotal(a[1..], b[1..]);
    }
  }
}
