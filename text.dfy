/**
 * The JavaScript string built-ins the application relies on, restricted to
 * what the model needs: whitespace is the ASCII class only (space, tab, line
 * feed, vertical tab, form feed, carriage return), and case folding is ASCII
 * only. Each function names the built-in it stands for.
 */
module Text {
  import opened Wrappers

  // ---------------------------------------------------------------------
  // Whitespace, `trim`, `split(/\s+/)`
  // ---------------------------------------------------------------------

  /** The `\s` character class, restricted to ASCII. */
  predicate IsSpace(c: char) {
    c == ' ' || c == '\t' || c == '\n' || c == '\r' || c == '\U{0B}' || c == '\U{0C}'
  }

  predicate NoSpace(s: string) {
    forall k :: 0 <= k < |s| ==> !IsSpace(s[k])
  }

  /** `s.trimStart()`: the suffix left once the leading whitespace is gone. */
  function TrimStart(s: string): (r: string)
    ensures |r| <= |s| && r == s[|s| - |r|..]
    ensures forall k :: 0 <= k < |s| - |r| ==> IsSpace(s[k])
    ensures r == [] || !IsSpace(r[0])
  {
    if s != [] && IsSpace(s[0]) then TrimStart(s[1..]) else s
  }

  /** `s.trimEnd()`: the prefix left once the trailing whitespace is gone. */
  function TrimEnd(s: string): (r: string)
    ensures |r| <= |s| && r == s[..|r|]
    ensures forall k :: |r| <= k < |s| ==> IsSpace(s[k])
    ensures r == [] || !IsSpace(r[|r| - 1])
  {
    if s != [] && IsSpace(s[|s| - 1]) then TrimEnd(s[..|s| - 1]) else s
  }

  /** `s.trim()`. */
  function Trim(s: string): (r: string)
    ensures r == [] || (!IsSpace(r[0]) && !IsSpace(r[|r| - 1]))
  {
    TrimEnd(TrimStart(s))
  }

  /** Trimming twice is trimming once. */
  lemma TrimIdempotent(s: string)
    ensures Trim(Trim(s)) == Trim(s)
  {
    var t := Trim(s);
    assert TrimStart(t) == t;
    assert TrimEnd(t) == t;
  }

  /** The index of the first whitespace character, or `|s|` when there is none. */
  function FirstSpace(s: string): (i: nat)
    ensures i <= |s| && NoSpace(s[..i])
    ensures i < |s| ==> IsSpace(s[i])
  {
    if s == [] || IsSpace(s[0]) then 0
    else
      var j := FirstSpace(s[1..]);
      assert s[..1 + j] == [s[0]] + s[1..][..j];
      1 + j
  }

  /** The words `ws` laid out as text, each word `ws[k]` followed by the run `gaps[k]`. */
  function Layout(ws: seq<string>, gaps: seq<string>): string
    requires |gaps| == |ws|
  {
    if ws == [] then [] else ws[0] + gaps[0] + Layout(ws[1..], gaps[1..])
  }

  /** Gaps that keep words apart: whitespace only, and non-empty between two words. */
  predicate Separates(gaps: seq<string>) {
    forall k :: 0 <= k < |gaps| ==> AllSpace(gaps[k]) && (k < |gaps| - 1 ==> gaps[k] != [])
  }

  predicate AllWords(ws: seq<string>) {
    forall k :: 0 <= k < |ws| ==> ws[k] != [] && NoSpace(ws[k])
  }

  /**
   * `s.split(/\s+/)`: the pieces between maximal runs of whitespace. As in
   * JavaScript, a leading or trailing run yields an empty piece, and the
   * empty string yields one empty piece.
   */
  function SplitOnSpaceRuns(s: string): (r: seq<string>)
    ensures |r| >= 1
    ensures forall k :: 0 <= k < |r| ==> NoSpace(r[k])
    decreases |s|
  {
    var i := FirstSpace(s);
    if i == |s| then [s]
    else
      var rest := TrimStart(s[i + 1..]);
      [s[..i]] + SplitOnSpaceRuns(rest)
  }

  /** `ws.filter(w => w.length > 0)`. */
  function NonEmptyOnly(ws: seq<string>): (r: seq<string>)
    ensures |r| <= |ws|
    ensures forall k :: 0 <= k < |r| ==> r[k] != [] && r[k] in ws
  {
    if ws == [] then []
    else if ws[0] == [] then NonEmptyOnly(ws[1..])
    else [ws[0]] + NonEmptyOnly(ws[1..])
  }

  /** The whitespace-separated tokens of `s`, as `split(/\s+/)` then dropping empty pieces. */
  function Tokens(s: string): (r: seq<string>)
    ensures forall k :: 0 <= k < |r| ==> r[k] != [] && NoSpace(r[k])
  {
    NonEmptyOnly(SplitOnSpaceRuns(s))
  }

  function Concat(ws: seq<string>): string {
    if ws == [] then [] else ws[0] + Concat(ws[1..])
  }

  /** The characters of `s` that are not whitespace, in order. */
  function RemoveSpaces(s: string): string {
    if s == [] then []
    else (if IsSpace(s[0]) then [] else [s[0]]) + RemoveSpaces(s[1..])
  }

  lemma {:induction false} RemoveSpacesAppend(a: string, b: string)
    ensures RemoveSpaces(a + b) == RemoveSpaces(a) + RemoveSpaces(b)
  {
    if a == [] {
      assert a + b == b;
    } else {
      var head := if IsSpace(a[0]) then [] else [a[0]];
      assert (a + b)[0] == a[0];
      assert (a + b)[1..] == a[1..] + b;
      RemoveSpacesAppend(a[1..], b);
      calc {
        RemoveSpaces(a + b);
        head + RemoveSpaces(a[1..] + b);
        head + (RemoveSpaces(a[1..]) + RemoveSpaces(b));
        (head + RemoveSpaces(a[1..])) + RemoveSpaces(b);
      }
    }
  }

  lemma {:induction false} RemoveSpacesOfNoSpace(a: string)
    requires NoSpace(a)
    ensures RemoveSpaces(a) == a
  {
    if a != [] {
      RemoveSpacesOfNoSpace(a[1..]);
    }
  }

  lemma {:induction false} RemoveSpacesTrimStart(s: string)
    ensures RemoveSpaces(TrimStart(s)) == RemoveSpaces(s)
  {
    if s != [] && IsSpace(s[0]) {
      RemoveSpacesTrimStart(s[1..]);
    }
  }

  lemma {:induction false} ConcatNonEmptyOnly(ws: seq<string>)
    ensures Concat(NonEmptyOnly(ws)) == Concat(ws)
  {
    if ws != [] {
      ConcatNonEmptyOnly(ws[1..]);
    }
  }

  /** Cutting `s` at a whitespace character `s[i]` preceded by none. */
  lemma RemoveSpacesAtFirstSpace(s: string, i: nat)
    requires i < |s| && NoSpace(s[..i]) && IsSpace(s[i])
    ensures RemoveSpaces(s) == s[..i] + RemoveSpaces(s[i + 1..])
  {
    assert s == (s[..i] + [s[i]]) + s[i + 1..];
    RemoveSpacesAppend(s[..i] + [s[i]], s[i + 1..]);
    RemoveSpacesAppend(s[..i], [s[i]]);
    RemoveSpacesOfNoSpace(s[..i]);
    assert RemoveSpaces([s[i]]) == [];
  }

  lemma {:induction false} ConcatSplit(s: string)
    ensures Concat(SplitOnSpaceRuns(s)) == RemoveSpaces(s)
    decreases |s|
  {
    var i := FirstSpace(s);
    if i == |s| {
      assert s[..i] == s;
      RemoveSpacesOfNoSpace(s);
    } else {
      var rest := TrimStart(s[i + 1..]);
      var pieces := SplitOnSpaceRuns(rest);
      calc {
        Concat(SplitOnSpaceRuns(s));
        Concat([s[..i]] + pieces);
        { assert ([s[..i]] + pieces)[1..] == pieces; }
        s[..i] + Concat(pieces);
        { ConcatSplit(rest); }
        s[..i] + RemoveSpaces(rest);
        { RemoveSpacesTrimStart(s[i + 1..]); }
        s[..i] + RemoveSpaces(s[i + 1..]);
        { RemoveSpacesAtFirstSpace(s, i); }
        RemoveSpaces(s);
      }
    }
  }

  /** The first whitespace of `a + b` is where `b` starts, when `a` has none and `b` starts with one. */
  lemma {:induction false} FirstSpaceAfter(a: string, b: string)
    requires NoSpace(a) && b != [] && IsSpace(b[0])
    ensures FirstSpace(a + b) == |a|
  {
    assert (a + b)[|a|] == b[0];
    assert forall k :: 0 <= k < |a| ==> (a + b)[k] == a[k];
  }

  /** A laid-out list of words starts with the first word's first letter. */
  lemma LayoutStartsWithWord(ws: seq<string>, gaps: seq<string>)
    requires |ws| >= 1 && |gaps| == |ws| && AllWords(ws)
    ensures Layout(ws, gaps) != [] && Layout(ws, gaps)[0] == ws[0][0]
  {
    assert Layout(ws, gaps) == ws[0] + (gaps[0] + Layout(ws[1..], gaps[1..]));
  }

  /** A word, then a run of whitespace, then text that starts with no whitespace: the word is the first piece. */
  lemma SplitAfterWord(w: string, gap: string, tail: string)
    requires NoSpace(w) && gap != [] && AllSpace(gap) && (tail == [] || !IsSpace(tail[0]))
    ensures SplitOnSpaceRuns(w + gap + tail) == [w] + SplitOnSpaceRuns(tail)
  {
    var rest := gap + tail;
    var s := w + rest;
    assert w + gap + tail == s;
    assert rest[0] == gap[0];
    FirstSpaceAfter(w, rest);
    assert s[..|w|] == w;
    assert s[|w| + 1..] == gap[1..] + tail;
    assert AllSpace(gap[1..]);
    TrimStartOfSpaces(gap[1..], tail);
    assert SplitOnSpaceRuns(s) == [s[..|w|]] + SplitOnSpaceRuns(TrimStart(s[|w| + 1..]));
  }

  /** Splitting laid-out words, then dropping empty pieces, gives the words back. */
  lemma {:induction false} SplitLayout(ws: seq<string>, gaps: seq<string>)
    requires |ws| >= 1 && |gaps| == |ws| && AllWords(ws) && Separates(gaps)
    ensures NonEmptyOnly(SplitOnSpaceRuns(Layout(ws, gaps))) == ws
    decreases |ws|
  {
    var tail := Layout(ws[1..], gaps[1..]);
    assert Layout(ws, gaps) == ws[0] + gaps[0] + tail;
    if gaps[0] == [] {
      assert |ws| == 1 && tail == [];
      assert Layout(ws, gaps) == ws[0];
      assert SplitOnSpaceRuns(ws[0]) == [ws[0]];
      assert NonEmptyOnly([ws[0]]) == [ws[0]] + NonEmptyOnly([]);
    } else if |ws| == 1 {
      SplitAfterWord(ws[0], gaps[0], tail);
      assert SplitOnSpaceRuns([]) == [[]];
      assert NonEmptyOnly([ws[0]] + [[]]) == [ws[0]] + NonEmptyOnly([[]]);
      assert NonEmptyOnly([[]]) == NonEmptyOnly([]);
    } else {
      LayoutStartsWithWord(ws[1..], gaps[1..]);
      SplitAfterWord(ws[0], gaps[0], tail);
      SplitLayout(ws[1..], gaps[1..]);
      var rest := SplitOnSpaceRuns(tail);
      assert ([ws[0]] + rest)[1..] == rest;
      assert [ws[0]] + ws[1..] == ws;
    }
  }

  /** Whitespace in front of a word, or of nothing, adds no token. */
  lemma TokensAfterSpaces(lead: string, s: string)
    requires AllSpace(lead) && (s == [] || !IsSpace(s[0]))
    ensures Tokens(lead + s) == Tokens(s)
  {
    if lead != [] {
      assert (lead + s)[0] == lead[0];
      assert FirstSpace(lead + s) == 0;
      TrimStartOfSpaces(lead[1..], s);
      assert (lead + s)[1..] == lead[1..] + s;
      var pieces := SplitOnSpaceRuns(lead + s);
      assert pieces == [[]] + SplitOnSpaceRuns(s);
      assert pieces[1..] == SplitOnSpaceRuns(s);
    } else {
      assert lead + s == s;
    }
  }

  /**
   * Tokenizing is the inverse of laying words out with whitespace: non-empty
   * words without whitespace, separated by runs of any whitespace and with
   * optional whitespace at both ends, come back as written, so the split
   * falls exactly at the whitespace between words.
   */
  lemma TokensOfLayout(lead: string, ws: seq<string>, gaps: seq<string>)
    requires AllSpace(lead) && AllWords(ws) && |gaps| == |ws| && Separates(gaps)
    ensures Tokens(lead + Layout(ws, gaps)) == ws
  {
    if ws == [] {
      TokensAfterSpaces(lead, []);
      assert FirstSpace([]) == 0;
      assert SplitOnSpaceRuns([]) == [[]];
      assert NonEmptyOnly([[]]) == NonEmptyOnly([]);
    } else {
      LayoutStartsWithWord(ws, gaps);
      TokensAfterSpaces(lead, Layout(ws, gaps));
      SplitLayout(ws, gaps);
    }
  }

  /** Tokenizing loses only whitespace: the tokens, glued together, are the non-space characters of `s`. */
  lemma TokensPreserveText(s: string)
    ensures Concat(Tokens(s)) == RemoveSpaces(s)
  {
    ConcatNonEmptyOnly(SplitOnSpaceRuns(s));
    ConcatSplit(s);
  }

  // ---------------------------------------------------------------------
  // Prefixes, `includes`, `toLowerCase`
  // ---------------------------------------------------------------------

  predicate IsPrefix(p: string, s: string) {
    |p| <= |s| && s[..|p|] == p
  }

  /** `needle` occurs in `hay` starting at position `i`. */
  predicate OccursAt(hay: string, needle: string, i: int) {
    0 <= i <= |hay| - |needle| && hay[i..i + |needle|] == needle
  }

  /** `hay.includes(needle)`: `needle` occurs at some position of `hay`. */
  function Contains(hay: string, needle: string): (r: bool)
    ensures r <==> exists i :: OccursAt(hay, needle, i)
  {
    if IsPrefix(needle, hay) then
      assert OccursAt(hay, needle, 0);
      true
    else if hay == [] then false
    else
      var r := Contains(hay[1..], needle);
      assert forall i :: OccursAt(hay[1..], needle, i) <==> OccursAt(hay, needle, i + 1);
      assert !OccursAt(hay, needle, 0);
      assert forall i :: OccursAt(hay, needle, i) ==> OccursAt(hay[1..], needle, i - 1);
      r
  }

  /** `c.toLowerCase()` on ASCII letters; every other character is kept. */
  function LowerChar(c: char): char {
    if 'A' <= c <= 'Z' then (c as int - 'A' as int + 'a' as int) as char else c
  }

  /** `s.toLowerCase()`, restricted to ASCII letters. */
  function AsciiLower(s: string): (r: string)
    ensures |r| == |s|
    ensures forall k :: 0 <= k < |s| ==> r[k] == LowerChar(s[k])
  {
    seq(|s|, k requires 0 <= k < |s| => LowerChar(s[k]))
  }

  predicate IsUpper(c: char) {
    'A' <= c <= 'Z'
  }

  /** Lower-cased text holds no upper-case letter, and lower-casing it again changes nothing. */
  lemma AsciiLowerNormalizes(s: string)
    ensures forall k :: 0 <= k < |s| ==> !IsUpper(AsciiLower(s)[k])
    ensures AsciiLower(AsciiLower(s)) == AsciiLower(s)
  {
  }

  /** Lower-casing changes only upper-case letters, each to its lower-case partner. */
  lemma AsciiLowerChanges(s: string, k: nat)
    requires k < |s|
    ensures AsciiLower(s)[k] != s[k] <==> IsUpper(s[k])
    ensures IsUpper(s[k]) ==> AsciiLower(s)[k] as int == s[k] as int + 32
  {
  }

  // ---------------------------------------------------------------------
  // Numbers as text: `String(n)`, `padStart`, `parseInt`
  // ---------------------------------------------------------------------

  predicate IsDigit(c: char) {
    '0' <= c <= '9'
  }

  predicate AllDigits(s: string) {
    forall k :: 0 <= k < |s| ==> IsDigit(s[k])
  }

  function DigitChar(d: nat): (c: char)
    requires d < 10
    ensures IsDigit(c) && c as int - '0' as int == d
  {
    ('0' as int + d) as char
  }

  /** The value of a string of decimal digits, read most significant first. */
  function DigitsValue(s: string): nat
    requires AllDigits(s)
  {
    if s == [] then 0 else DigitsValue(s[..|s| - 1]) * 10 + (s[|s| - 1] as int - '0' as int)
  }

  /** `String(n)` for a non-negative integer: its decimal digits, no leading zero. */
  function Decimal(n: nat): (s: string)
    ensures |s| >= 1 && AllDigits(s)
    ensures |s| > 1 ==> s[0] != '0'
    ensures n < 10 <==> |s| == 1
  {
    if n < 10 then [DigitChar(n)] else Decimal(n / 10) + [DigitChar(n % 10)]
  }

  /** Reading back the digits `String(n)` writes gives `n`. */
  lemma {:induction false} DecimalRoundTrip(n: nat)
    ensures DigitsValue(Decimal(n)) == n
  {
    if n >= 10 {
      var s := Decimal(n);
      assert s[..|s| - 1] == Decimal(n / 10);
      DecimalRoundTrip(n / 10);
    }
  }

  lemma DecimalInjective(m: nat, n: nat)
    requires Decimal(m) == Decimal(n)
    ensures m == n
  {
    DecimalRoundTrip(m);
    DecimalRoundTrip(n);
  }

  lemma DecimalBelowThousand(n: nat)
    requires n < 1000
    ensures |Decimal(n)| <= 3
  {
    if n >= 10 {
      assert |Decimal(n / 10)| <= 2 by {
        if n / 10 >= 10 {
          assert Decimal(n / 10) == Decimal(n / 100) + [DigitChar(n / 10 % 10)];
        }
      }
    }
  }

  /** `String(i)` for any integer: a minus sign before the digits of a negative number. */
  function IntToString(i: int): (s: string)
    ensures |s| >= 1
    ensures i < 0 <==> s[0] == '-'
  {
    if i < 0 then "-" + Decimal(-i) else Decimal(i)
  }

  /** `s.padStart(len, [c])`: `s` unchanged when long enough, else `c` repeated in front up to `len`. */
  function PadStart(s: string, len: nat, c: char): (r: string)
    ensures |r| == if |s| >= len then |s| else len
    ensures r[|r| - |s|..] == s
    ensures forall k :: 0 <= k < |r| - |s| ==> r[k] == c
  {
    if |s| >= len then s else seq(len - |s|, _ => c) + s
  }

  lemma {:induction false} ZerosValue(z: string)
    requires forall k :: 0 <= k < |z| ==> z[k] == '0'
    ensures AllDigits(z) && DigitsValue(z) == 0
  {
    if z != [] {
      ZerosValue(z[..|z| - 1]);
    }
  }

  /** Leading zeros do not change the value of a digit string. */
  lemma {:induction false} LeadingZeros(z: string, s: string)
    requires forall k :: 0 <= k < |z| ==> z[k] == '0'
    requires AllDigits(s)
    ensures AllDigits(z + s) && DigitsValue(z + s) == DigitsValue(s)
  {
    if s == [] {
      assert z + s == z;
      ZerosValue(z);
    } else {
      assert (z + s)[..|z + s| - 1] == z + s[..|s| - 1];
      LeadingZeros(z, s[..|s| - 1]);
    }
  }

  /** `String(n).padStart(3, '0')`. */
  function Padded3(n: int): (r: string)
    ensures |r| >= 3 && |r| >= |IntToString(n)|
    ensures r[|r| - |IntToString(n)|..] == IntToString(n)
    ensures forall k :: 0 <= k < |r| - |IntToString(n)| ==> r[k] == '0'
  {
    PadStart(IntToString(n), 3, '0')
  }

  /** Below 1000 the padded form has exactly three digits and reads back as `n`. */
  lemma Padded3RoundTrip(n: int)
    requires 0 <= n < 1000
    ensures |Padded3(n)| == 3 && AllDigits(Padded3(n)) && DigitsValue(Padded3(n)) == n
  {
    var d := Decimal(n);
    DecimalBelowThousand(n);
    var p := Padded3(n);
    var z := p[..3 - |d|];
    assert p == z + d;
    LeadingZeros(z, d);
    DecimalRoundTrip(n);
  }

  /** The longest prefix of `s` made of decimal digits. */
  function DecimalPrefix(s: string): (r: string)
    ensures IsPrefix(r, s) && AllDigits(r)
    ensures |r| < |s| ==> !IsDigit(s[|r|])
  {
    if s != [] && IsDigit(s[0]) then [s[0]] + DecimalPrefix(s[1..]) else []
  }

  predicate IsHexDigit(c: char) {
    IsDigit(c) || 'a' <= c <= 'f' || 'A' <= c <= 'F'
  }

  predicate AllHex(h: string) {
    forall k :: 0 <= k < |h| ==> IsHexDigit(h[k])
  }

  function HexDigitValue(c: char): nat
    requires IsHexDigit(c)
  {
    if IsDigit(c) then c as int - '0' as int
    else if 'a' <= c <= 'f' then c as int - 'a' as int + 10
    else c as int - 'A' as int + 10
  }

  /** The longest prefix of `s` made of hexadecimal digits. */
  function HexPrefix(s: string): (r: string)
    ensures IsPrefix(r, s)
    ensures forall k :: 0 <= k < |r| ==> IsHexDigit(r[k])
    ensures |r| < |s| ==> !IsHexDigit(s[|r|])
  {
    if s != [] && IsHexDigit(s[0]) then [s[0]] + HexPrefix(s[1..]) else []
  }

  function HexValue(s: string): nat
    requires forall k :: 0 <= k < |s| ==> IsHexDigit(s[k])
  {
    if s == [] then 0 else HexValue(s[..|s| - 1]) * 16 + HexDigitValue(s[|s| - 1])
  }

  /** The unsigned part of `parseInt`: a `0x`/`0X` hexadecimal run, else a decimal run; `None` without digits. */
  function ParseUnsigned(u: string): (r: Option<nat>)
  {
    if |u| >= 2 && u[0] == '0' && (u[1] == 'x' || u[1] == 'X') then
      var digits := HexPrefix(u[2..]);
      if digits == [] then None else Some(HexValue(digits))
    else
      var digits := DecimalPrefix(u);
      if digits == [] then None else Some(DigitsValue(digits))
  }

  /** The text after one leading `-` or `+`, if any. */
  function Unsigned(t: string): string {
    if t != [] && (t[0] == '-' || t[0] == '+') then t[1..] else t
  }

  /**
   * `parseInt(s)` with no radix: leading whitespace is skipped, one sign is
   * accepted, a `0x`/`0X` prefix switches to base 16, and the longest run of
   * digits that follows is read. No digit at all gives `NaN`, here `None`.
   */
  function ParseInt(s: string): (r: Option<int>)
    ensures TrimStart(s) == [] ==> r.None?
    ensures r.Some? && r.value < 0 ==> TrimStart(s)[0] == '-'
  {
    ParseTrimmed(TrimStart(s))
  }

  /** `parseInt` once the leading whitespace is gone. */
  function ParseTrimmed(t: string): Option<int> {
    var negative := t != [] && t[0] == '-';
    match ParseUnsigned(Unsigned(t))
    case None => None
    case Some(v) => Some(if negative then -(v as int) else v)
  }

  predicate AllSpace(w: string) {
    forall k :: 0 <= k < |w| ==> IsSpace(w[k])
  }

  /** Leading whitespace before a non-space character is exactly what `trimStart` drops. */
  lemma {:induction false} TrimStartOfSpaces(w: string, x: string)
    requires AllSpace(w) && (x == [] || !IsSpace(x[0]))
    ensures TrimStart(w + x) == x
  {
    if w == [] {
      assert w + x == x;
    } else {
      assert (w + x)[1..] == w[1..] + x;
      TrimStartOfSpaces(w[1..], x);
    }
  }

  /** The digit prefix of digits followed by a non-digit is those digits. */
  lemma {:induction false} DecimalPrefixOf(d: string, rest: string)
    requires AllDigits(d) && (rest == [] || !IsDigit(rest[0]))
    ensures DecimalPrefix(d + rest) == d
  {
    if d == [] {
      assert d + rest == rest;
    } else {
      assert (d + rest)[1..] == d[1..] + rest;
      DecimalPrefixOf(d[1..], rest);
    }
  }

  /** The hexadecimal prefix of hex digits followed by a non-hex character is those digits. */
  lemma {:induction false} HexPrefixOf(h: string, rest: string)
    requires forall k :: 0 <= k < |h| ==> IsHexDigit(h[k])
    requires rest == [] || !IsHexDigit(rest[0])
    ensures HexPrefix(h + rest) == h
  {
    if h == [] {
      assert h + rest == rest;
    } else {
      assert (h + rest)[1..] == h[1..] + rest;
      HexPrefixOf(h[1..], rest);
    }
  }

  predicate IsSign(sign: string) {
    sign == "" || sign == "-" || sign == "+"
  }

  /** Signed value: `v`, negated after a minus sign. */
  function Signed(sign: string, v: nat): int {
    if sign == "-" then -(v as int) else v
  }

  /** `Unsigned` drops exactly the sign. */
  lemma UnsignedOf(sign: string, u: string)
    requires IsSign(sign) && u != [] && u[0] != '-' && u[0] != '+'
    ensures Unsigned(sign + u) == u
  {
    if sign == "" {
      assert sign + u == u;
    } else {
      assert (sign + u)[1..] == u;
    }
  }

  /** Whitespace and a sign in front of unsigned text are what `parseInt` skips and applies. */
  lemma ParseIntSigned(w: string, sign: string, u: string)
    requires AllSpace(w) && IsSign(sign)
    requires u != [] && !IsSpace(u[0]) && u[0] != '-' && u[0] != '+'
    ensures ParseUnsigned(u).None? ==> ParseInt(w + sign + u).None?
    ensures ParseUnsigned(u).Some? ==> ParseInt(w + sign + u) == Some(Signed(sign, ParseUnsigned(u).value))
  {
    var x := sign + u;
    assert w + sign + u == w + x;
    assert x[0] == if sign == "" then u[0] else sign[0];
    TrimStartOfSpaces(w, x);
    ParseTrimmedSigned(sign, u);
  }

  lemma ParseTrimmedSigned(sign: string, u: string)
    requires IsSign(sign) && u != [] && u[0] != '-' && u[0] != '+'
    ensures ParseUnsigned(u).None? ==> ParseTrimmed(sign + u).None?
    ensures ParseUnsigned(u).Some? ==> ParseTrimmed(sign + u) == Some(Signed(sign, ParseUnsigned(u).value))
  {
    var x := sign + u;
    UnsignedOf(sign, u);
    assert x[0] == if sign == "" then u[0] else sign[0];
    assert (x != [] && x[0] == '-') == (sign == "-");
  }

  lemma ParseUnsignedDecimal(d: string, rest: string)
    requires d != [] && AllDigits(d)
    requires rest == [] || !IsDigit(rest[0])
    requires !(d == "0" && rest != [] && (rest[0] == 'x' || rest[0] == 'X'))
    ensures ParseUnsigned(d + rest) == Some(DigitsValue(d))
  {
    var u := d + rest;
    assert u[0] == d[0];
    assert |d| >= 2 ==> u[1] == d[1];
    assert |d| == 1 && rest != [] ==> u[1] == rest[0];
    DecimalPrefixOf(d, rest);
  }

  lemma ParseUnsignedHex(x: char, h: string, rest: string)
    requires x == 'x' || x == 'X'
    requires h != [] && AllHex(h)
    requires rest == [] || !IsHexDigit(rest[0])
    ensures ParseUnsigned(['0', x] + h + rest) == Some(HexValue(h))
  {
    var u := ['0', x] + h + rest;
    assert u[2..] == h + rest;
    HexPrefixOf(h, rest);
  }

  /**
   * `parseInt` on decimal text: leading whitespace, an optional sign, a run
   * of digits and anything that does not continue the run give the run's
   * value, negated after a minus sign. A lone `0` followed by `x` or `X` is
   * the start of a hexadecimal number instead.
   */
  lemma ParseIntDecimalForm(w: string, sign: string, d: string, rest: string)
    requires AllSpace(w) && IsSign(sign)
    requires d != [] && AllDigits(d)
    requires rest == [] || !IsDigit(rest[0])
    requires !(d == "0" && rest != [] && (rest[0] == 'x' || rest[0] == 'X'))
    ensures ParseInt(w + sign + d + rest) == Some(Signed(sign, DigitsValue(d)))
  {
    var u := d + rest;
    assert w + sign + d + rest == w + sign + u;
    assert u[0] == d[0];
    ParseUnsignedDecimal(d, rest);
    ParseIntSigned(w, sign, u);
  }

  /**
   * `parseInt` on hexadecimal text: leading whitespace, an optional sign,
   * `0x` or `0X`, a run of hex digits and anything that does not continue
   * the run give the run's value in base 16, negated after a minus sign.
   */
  lemma ParseIntHexForm(w: string, sign: string, x: char, h: string, rest: string)
    requires AllSpace(w) && IsSign(sign) && (x == 'x' || x == 'X')
    requires h != [] && AllHex(h)
    requires rest == [] || !IsHexDigit(rest[0])
    ensures ParseInt(w + sign + ['0', x] + h + rest) == Some(Signed(sign, HexValue(h)))
  {
    var u := ['0', x] + h + rest;
    assert w + sign + ['0', x] + h + rest == w + sign + u;
    assert u[0] == '0';
    ParseUnsignedHex(x, h, rest);
    ParseIntSigned(w, sign, u);
  }

  /** `parseInt(String(n)) == n`: a number written into a route reads back unchanged. */
  lemma ParseIntOfDecimal(n: nat)
    ensures ParseInt(Decimal(n)) == Some(n)
  {
    var d := Decimal(n);
    assert "" + "" + d + "" == d;
    ParseIntDecimalForm("", "", d, "");
    DecimalRoundTrip(n);
  }

  /** `parseInt` of text with no digit where the number should start is `NaN`. */
  lemma ParseIntNoDigits(s: string)
    requires TrimStart(s) != [] && !IsDigit(TrimStart(s)[0])
    requires TrimStart(s)[0] != '-' && TrimStart(s)[0] != '+'
    ensures ParseInt(s) == None
  {
  }
}
