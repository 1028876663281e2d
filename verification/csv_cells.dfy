/** CSV cells: stripping control characters and neutralizing formulas. */
module CsvCells {
  import opened GoInts

  type Controls = char -> bool

  // ----- Decimal numbers

  predicate IsSignChar(c: char) { c == '+' || c == '-' }

  predicate IsSign(t: string) { t == "" || (|t| == 1 && IsSignChar(t[0])) }

  /** Digits with an optional fraction, or a fraction alone. */
  predicate IsMantissa(t: string) {
    || (exists k | 0 < k <= |t| :: AllDigits(t[..k]) && (k == |t| || (t[k] == '.' && AllDigits(t[k + 1..]))))
    || (|t| > 1 && t[0] == '.' && AllDigits(t[1..]))
  }

  predicate IsExponent(t: string) {
    t == "" || (|t| > 1 && (t[0] == 'e' || t[0] == 'E') &&
      (AllDigits(t[1..]) || (|t| > 2 && IsSignChar(t[1]) && AllDigits(t[2..]))))
  }

  /** The grammar of decimalNumberRE: sign, mantissa, exponent. */
  predicate IsDecimal(s: string) {
    exists a, b | 0 <= a <= b <= |s| :: IsSign(s[..a]) && IsMantissa(s[a..b]) && IsExponent(s[b..])
  }

  /** The end of the run of digits that starts at `i`. */
  function SkipDigits(s: string, i: nat): (j: nat)
    requires i <= |s|
    ensures i <= j <= |s| && AllDigits(s[i..j]) && (j < |s| ==> !IsDigit(s[j]))
    decreases |s| - i
  {
    if i < |s| && IsDigit(s[i]) then
      var j := SkipDigits(s, i + 1);
      assert s[i..j] == [s[i]] + s[i + 1..j];
      j
    else i
  }

  function AfterSign(s: string): (i: nat)
    ensures i <= |s|
  {
    if s != "" && IsSignChar(s[0]) then 1 else 0
  }

  /** The end of the mantissa that starts at `i`; `i` itself if there is none. */
  function AfterMantissa(s: string, i: nat): (k: nat)
    requires i <= |s|
    ensures i <= k <= |s|
  {
    var j := SkipDigits(s, i);
    if j < |s| && s[j] == '.' then
      var k := SkipDigits(s, j + 1);
      if j > i || k > j + 1 then k else i
    else j
  }

  predicate ExponentAt(s: string, k: nat)
    requires k <= |s|
  {
    k == |s| || ((s[k] == 'e' || s[k] == 'E') &&
      var m := if k + 1 < |s| && IsSignChar(s[k + 1]) then k + 2 else k + 1;
      m < |s| && SkipDigits(s, m) == |s|)
  }

  /** isNumeric as one scan from left to right. */
  predicate IsNumeric(s: string) {
    var i := AfterSign(s);
    var k := AfterMantissa(s, i);
    k > i && ExponentAt(s, k)
  }

  lemma DigitsEnd(s: string, i: nat, j: nat)
    requires i <= j <= |s| && AllDigits(s[i..j]) && (j < |s| ==> !IsDigit(s[j]))
    ensures SkipDigits(s, i) == j
  {
    var e := SkipDigits(s, i);
    assert forall k | i <= k < j :: s[k] == s[i..j][k - i];
    assert forall k | i <= k < e :: s[k] == s[i..e][k - i];
  }

  lemma SuffixOfSuffix(s: string, k: nat, d: nat)
    requires k + d <= |s|
    ensures s[k..][d..] == s[k + d..|s|]
  {
  }

  lemma ExponentIsScanned(s: string, k: nat)
    requires k <= |s|
    ensures IsExponent(s[k..]) <==> ExponentAt(s, k)
  {
    var t := s[k..];
    if k < |s| {
      var m := if k + 1 < |s| && IsSignChar(s[k + 1]) then k + 2 else k + 1;
      if k + 1 < |s| {
        SuffixOfSuffix(s, k, 1);
        if AllDigits(t[1..]) {
          assert t[1] == s[k + 1] && IsDigit(t[1..][0]);
          DigitsEnd(s, k + 1, |s|);
        }
      }
      if k + 2 < |s| {
        SuffixOfSuffix(s, k, 2);
        if AllDigits(t[2..]) { DigitsEnd(s, k + 2, |s|); }
      }
      if m < |s| && SkipDigits(s, m) == |s| {
        assert AllDigits(s[m..|s|]);
      }
    }
  }

  lemma DigitsAreScanned(s: string, a: nat, j: nat, b: nat)
    requires a < j <= b <= |s| && AllDigits(s[a..j])
    requires j == b || (s[j] == '.' && AllDigits(s[j + 1..b]))
    requires b < |s| ==> !IsDigit(s[b]) && s[b] != '.'
    ensures AfterMantissa(s, a) == b
  {
    DigitsEnd(s, a, j);
    if j < b { DigitsEnd(s, j + 1, b); }
  }

  lemma FractionIsScanned(s: string, a: nat, b: nat)
    requires a + 1 < b <= |s| && s[a] == '.' && AllDigits(s[a + 1..b]) && (b < |s| ==> !IsDigit(s[b]))
    ensures AfterMantissa(s, a) == b
  {
    DigitsEnd(s, a, a);
    DigitsEnd(s, a + 1, b);
  }

  lemma SliceOfSlice(s: string, a: nat, b: nat, k: nat)
    requires a <= b <= |s| && k <= b - a
    ensures s[a..b][..k] == s[a..a + k]
    ensures k < b - a ==> s[a..b][k] == s[a + k] && s[a..b][k + 1..] == s[a + k + 1..b]
  {
  }

  lemma ExponentStops(t: string)
    requires t != "" && IsExponent(t)
    ensures !IsDigit(t[0]) && t[0] != '.'
  {
  }

  /** A mantissa followed by an exponent is the one the scan finds. */
  lemma MantissaIsScanned(s: string, a: nat, b: nat)
    requires a <= b <= |s| && IsMantissa(s[a..b]) && IsExponent(s[b..])
    ensures AfterMantissa(s, a) == b && b > a
  {
    var t := s[a..b];
    if b < |s| { ExponentStops(s[b..]); }
    if |t| > 1 && t[0] == '.' && AllDigits(t[1..]) {
      assert t[0] == s[a] && t[1..] == s[a + 1..b];
      FractionIsScanned(s, a, b);
    } else {
      var k :| 0 < k <= |t| && AllDigits(t[..k]) && (k == |t| || (t[k] == '.' && AllDigits(t[k + 1..])));
      SliceOfSlice(s, a, b, k);
      DigitsAreScanned(s, a, a + k, b);
    }
  }

  lemma ScannedIsMantissa(s: string, i: nat)
    requires i <= |s| && AfterMantissa(s, i) > i
    ensures IsMantissa(s[i..AfterMantissa(s, i)])
  {
    var k := AfterMantissa(s, i);
    var j := SkipDigits(s, i);
    var t := s[i..k];
    if j > i {
      assert t[..j - i] == s[i..j];
      if k > j { assert t[j - i] == '.' && t[j - i + 1..] == s[j + 1..k]; }
      assert 0 < j - i <= |t| && AllDigits(t[..j - i]);
    } else {
      assert t[0] == '.' && t[1..] == s[j + 1..k];
    }
  }

  /** The scan accepts exactly the strings of the grammar. */
  lemma ScanMatchesGrammar(s: string)
    ensures IsNumeric(s) <==> IsDecimal(s)
  {
    var i := AfterSign(s);
    if IsNumeric(s) {
      var k := AfterMantissa(s, i);
      ScannedIsMantissa(s, i);
      ExponentIsScanned(s, k);
      assert IsSign(s[..i]);
    }
    if IsDecimal(s) {
      var a, b :| 0 <= a <= b <= |s| && IsSign(s[..a]) && IsMantissa(s[a..b]) && IsExponent(s[b..]);
      MantissaIsScanned(s, a, b);
      ExponentIsScanned(s, b);
      if a == 0 {
        MantissaStart(s[a..b]);
        assert s[a..b][0] == s[0];
      } else {
        assert s[..a][0] == s[0];
      }
    }
  }

  lemma MantissaStart(t: string)
    requires IsMantissa(t)
    ensures t != "" && !IsSignChar(t[0])
  {
    if !(|t| > 1 && t[0] == '.' && AllDigits(t[1..])) {
      var k :| 0 < k <= |t| && AllDigits(t[..k]) && (k == |t| || (t[k] == '.' && AllDigits(t[k + 1..])));
      assert IsDigit(t[..k][0]);
    }
  }

  // ----- Cells

  /** sanitizeRunes for one character; with `keep` newlines survive. */
  function CleanChar(c: char, keep: bool, ctl: Controls): string {
    if c == '\n' then (if keep then [c] else " ")
    else if c in {'\t', '\r', '\U{2028}', '\U{2029}'} then " "
    else if ctl(c) then ""
    else [c]
  }

  function SanitizeRunes(s: string, keep: bool, ctl: Controls): string {
    if s == "" then "" else CleanChar(s[0], keep, ctl) + SanitizeRunes(s[1..], keep, ctl)
  }

  predicate Dropped(c: char, ctl: Controls) { ctl(c) && c !in {'\n', '\t', '\r', '\U{2028}', '\U{2029}'} }

  /** The characters of `s` that are not dropped. */
  function Kept(s: string, ctl: Controls): string {
    if s == "" then ""
    else if Dropped(s[0], ctl) then Kept(s[1..], ctl)
    else [s[0]] + Kept(s[1..], ctl)
  }

  /** Cleaning drops control and format characters and writes the others in order,
      a space for each tab, carriage return and separator, and for each newline
      that is not kept. */
  lemma {:induction false} RunesExactly(s: string, keep: bool, ctl: Controls)
    ensures var r, k := SanitizeRunes(s, keep, ctl), Kept(s, ctl);
            && |r| == |k|
            && forall i | 0 <= i < |k| ::
                 r[i] == if k[i] in {'\t', '\r', '\U{2028}', '\U{2029}'} || (k[i] == '\n' && !keep) then ' ' else k[i]
  {
    if s != "" {
      RunesExactly(s[1..], keep, ctl);
      var c, rest := CleanChar(s[0], keep, ctl), SanitizeRunes(s[1..], keep, ctl);
      if Dropped(s[0], ctl) {
        assert c + rest == rest;
      } else {
        assert |c| == 1 && SanitizeRunes(s, keep, ctl) == c + rest && Kept(s, ctl) == [s[0]] + Kept(s[1..], ctl);
      }
    }
  }

  predicate IsBlank(c: char) { c in {' ', '\t', '\r', '\n'} }

  function FirstNonBlank(s: string, i: nat): (j: nat)
    requires i <= |s|
    ensures i <= j <= |s| && (j < |s| ==> !IsBlank(s[j]))
    ensures forall k | i <= k < j :: IsBlank(s[k])
    decreases |s| - i
  {
    if i < |s| && IsBlank(s[i]) then FirstNonBlank(s, i + 1) else i
  }

  /** A spreadsheet may take the field for a formula: its first visible character
      is `=`, `@`, or a sign that does not start a decimal number. */
  predicate IsFormula(s: string) {
    var i := FirstNonBlank(s, 0);
    i < |s| && (s[i] == '=' || s[i] == '@' || (IsSignChar(s[i]) && !IsDecimal(s[i..])))
  }

  /** What a spreadsheet may run: after blanks only, an equals or at sign, or a plus
      or minus that does not start a decimal number. */
  predicate MayRun(s: string, i: nat)
    requires i < |s|
  {
    && (forall k | 0 <= k < i :: s[k] in {' ', '\t', '\r', '\n'})
    && (s[i] in {'=', '@'} || (s[i] in {'+', '-'} && !IsDecimal(s[i..])))
  }

  lemma FormulaExactly(s: string)
    ensures IsFormula(s) <==> exists i | 0 <= i < |s| :: MayRun(s, i)
  {
    var j := FirstNonBlank(s, 0);
    if IsFormula(s) { assert MayRun(s, j); }
    forall i | 0 <= i < |s| && MayRun(s, i) ensures i == j {
      assert !IsBlank(s[i]);
    }
  }

  /** sanitizeCSVField. */
  method SanitizeField(s: string) returns (r: string)
    ensures r == if IsFormula(s) then "'" + s else s
  {
    if s == "" {
      return s;
    }
    var i := 0;
    while i < |s| && IsBlank(s[i])
      invariant 0 <= i <= |s|
      invariant FirstNonBlank(s, 0) == FirstNonBlank(s, i)
    {
      i := i + 1;
    }
    if i == |s| {
      return s;
    }
    if s[i] == '=' || s[i] == '@' {
      return "'" + s;
    }
    if IsSignChar(s[i]) {
      ScanMatchesGrammar(s[i..]);
      if IsNumeric(s[i..]) {
        return s;
      }
      return "'" + s;
    }
    return s;
  }

  function Field(s: string): string { if IsFormula(s) then "'" + s else s }

  /** The cell PrintCSV writes for a value. */
  function Cell(s: string, ctl: Controls): string { Field(SanitizeRunes(s, true, ctl)) }

  /** What is left after cleaning is not cleaned any further. */
  predicate Clean(s: string, ctl: Controls) {
    forall i | 0 <= i < |s| :: s[i] == '\n' || (!ctl(s[i]) && s[i] !in {'\t', '\r', '\U{2028}', '\U{2029}'})
  }

  /** Control and format characters are neither the space nor the quote. */
  predicate Sensible(ctl: Controls) { !ctl(' ') && !ctl('\'') }

  /** Cleaning leaves no control or format character and, in tables, no newline. */
  lemma {:induction false} RunesAreClean(s: string, keep: bool, ctl: Controls)
    requires Sensible(ctl)
    ensures Clean(SanitizeRunes(s, keep, ctl), ctl) && (!keep ==> '\n' !in SanitizeRunes(s, keep, ctl))
  {
    if s != "" {
      RunesAreClean(s[1..], keep, ctl);
    }
  }

  lemma {:induction false} CleanStays(s: string, ctl: Controls)
    requires Clean(s, ctl)
    ensures SanitizeRunes(s, true, ctl) == s
  {
    if s != "" {
      assert forall i | 0 <= i < |s[1..]| :: s[1..][i] == s[i + 1];
      CleanStays(s[1..], ctl);
      assert CleanChar(s[0], true, ctl) == [s[0]];
    }
  }

  /** No cell is left as a formula, the quote being the only thing ever added. */
  lemma CellsAreNoFormulas(s: string, ctl: Controls)
    ensures !IsFormula(Cell(s, ctl)) && forall i | 0 <= i < |Cell(s, ctl)| :: !MayRun(Cell(s, ctl), i)
    ensures var c := SanitizeRunes(s, true, ctl);
            Cell(s, ctl) == if IsFormula(c) then "'" + c else c
  {
    var c := SanitizeRunes(s, true, ctl);
    if IsFormula(c) {
      assert ("'" + c)[0] == '\'';
      assert FirstNonBlank("'" + c, 0) == 0;
    }
    FormulaExactly(Cell(s, ctl));
  }

  /** Sanitizing an exported cell again changes nothing. */
  lemma CellIsIdempotent(s: string, ctl: Controls)
    requires Sensible(ctl)
    ensures Cell(Cell(s, ctl), ctl) == Cell(s, ctl)
  {
    var c := SanitizeRunes(s, true, ctl);
    RunesAreClean(s, true, ctl);
    var cell := Cell(s, ctl);
    assert Clean(cell, ctl) by {
      if IsFormula(c) {
        assert forall i | 1 <= i < |cell| :: cell[i] == c[i - 1];
      }
    }
    CleanStays(cell, ctl);
    CellsAreNoFormulas(s, ctl);
  }

  /** PrintCSV: the header row and every data row, cell by cell. */
  method PrintCsv(headers: seq<string>, rows: seq<seq<string>>, ctl: Controls) returns (written: seq<seq<string>>)
    ensures |written| == |rows| + 1 && |written[0]| == |headers|
    ensures forall j | 0 <= j < |headers| :: written[0][j] == Cell(headers[j], ctl)
    ensures forall i | 0 <= i < |rows| :: |written[i + 1]| == |rows[i]|
    ensures forall i, j | 0 <= i < |rows| && 0 <= j < |rows[i]| :: written[i + 1][j] == Cell(rows[i][j], ctl)
  {
    var first := SanitizeRow(headers, ctl);
    written := [first];
    for n := 0 to |rows|
      invariant |written| == n + 1 && written[0] == first
      invariant forall i | 0 <= i < n :: |written[i + 1]| == |rows[i]|
      invariant forall i, j | 0 <= i < n && 0 <= j < |rows[i]| :: written[i + 1][j] == Cell(rows[i][j], ctl)
    {
      var row := SanitizeRow(rows[n], ctl);
      written := written + [row];
    }
  }

  method SanitizeRow(row: seq<string>, ctl: Controls) returns (r: seq<string>)
    ensures |r| == |row| && forall j | 0 <= j < |row| :: r[j] == Cell(row[j], ctl)
  {
    r := [];
    for n := 0 to |row|
      invariant |r| == n && forall j | 0 <= j < n :: r[j] == Cell(row[j], ctl)
    {
      var field := SanitizeField(SanitizeRunes(row[n], true, ctl));
      r := r + [field];
    }
  }
}
