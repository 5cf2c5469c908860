/**
 * How DataModel::LoadData turns the name the user picked into the names of
 * the per-locale trace files: a directory `d` stands for `d/d-0`, and locale
 * i's file is the name up to its last '-' followed by i in decimal.
 */
module TraceFiles {
  import opened Wrappers

  /** The name with one trailing '/' removed, if it has one. */
  function StripSlash(f: string): (r: string)
    ensures f == r || f == r + "/"
    ensures f == r + "/" <==> |f| > 0 && f[|f| - 1] == '/'
  {
    if |f| > 0 && f[|f| - 1] == '/' then f[..|f| - 1] else f
  }

  /**
   * The file LoadData opens first: for a directory, the locale-0 file named
   * after the directory inside it; otherwise the name exactly as given.
   */
  function FirstFileName(filename: string, isDir: bool): (r: string)
    ensures isDir ==> r == StripSlash(filename) + "/" + StripSlash(filename) + "-0"
    ensures !isDir ==> r == filename
  {
    if isDir then
      var m := StripSlash(filename);
      m + "/" + m + "-0"
    else filename
  }

  /** Position of the last `c` in `s` (strrchr), or None when `c` does not occur. */
  function LastIndex(s: string, c: char): (r: Option<nat>)
    ensures r.None? <==> c !in s
    ensures r.Some? ==> r.value < |s| && s[r.value] == c
                        && forall j :: r.value < j < |s| ==> s[j] != c
  {
    if s == [] then None
    else if s[|s| - 1] == c then Some(|s| - 1)
    else
      var r := LastIndex(s[..|s| - 1], c);
      assert s == s[..|s| - 1] + [s[|s| - 1]];
      r
  }

  /**
   * The name shared by all locales' files: everything up to and including the
   * last '-'.  A name without '-' was not written by Chapel.
   */
  function LocalePrefix(full: string): (r: Option<string>)
    ensures r.None? <==> '-' !in full
    ensures r.Some? ==> 0 < |r.value| <= |full| && r.value == full[..|r.value|]
                        && r.value[|r.value| - 1] == '-' && '-' !in full[|r.value|..]
  {
    match LastIndex(full, '-')
    case None => None
    case Some(i) => Some(full[..i + 1])
  }

  function DigitChar(d: nat): (c: char)
    requires d < 10
  {
    "0123456789"[d]
  }

  /** The decimal numeral `%d` prints for a non-negative number. */
  function DecimalString(i: nat): (r: string)
    ensures 0 < |r|
    ensures forall k :: 0 <= k < |r| ==> '0' <= r[k] <= '9'
    ensures |r| > 1 ==> r[0] != '0'
  {
    if i < 10 then [DigitChar(i)] else DecimalString(i / 10) + [DigitChar(i % 10)]
  }

  /** The value of a string of decimal digits. */
  function DecimalValue(s: string): (v: nat)
    requires forall k :: 0 <= k < |s| ==> '0' <= s[k] <= '9'
  {
    if s == [] then 0 else 10 * DecimalValue(s[..|s| - 1]) + (s[|s| - 1] as int - '0' as int)
  }

  /** Reading the numeral back gives the locale number: file names are distinct per locale. */
  lemma {:induction false} DecimalRoundTrip(i: nat)
    ensures DecimalValue(DecimalString(i)) == i
  {
    if i >= 10 {
      DecimalRoundTrip(i / 10);
      var s := DecimalString(i);
      assert s[..|s| - 1] == DecimalString(i / 10);
    }
  }

  /** The file of locale `i`: the shared prefix and the locale number. */
  function LocaleFileName(prefix: string, i: nat): (r: string)
    ensures |r| > |prefix| && r[..|prefix|] == prefix
  {
    prefix + DecimalString(i)
  }

  /** Two locales never share a file name. */
  lemma LocaleFilesDistinct(prefix: string, i: nat, j: nat)
    requires i != j
    ensures LocaleFileName(prefix, i) != LocaleFileName(prefix, j)
  {
    DecimalRoundTrip(i);
    DecimalRoundTrip(j);
    assert LocaleFileName(prefix, i)[|prefix|..] == DecimalString(i);
    assert LocaleFileName(prefix, j)[|prefix|..] == DecimalString(j);
  }

  /** For a directory, locale 0's file is the very file LoadData read the configuration from. */
  lemma DirectoryLocaleZero(d: string)
    ensures var full := FirstFileName(d, true);
            LocalePrefix(full).Some? && LocaleFileName(LocalePrefix(full).value, 0) == full
  {
    var full := FirstFileName(d, true);
    var m := StripSlash(d);
    assert full == (m + "/" + m + "-") + "0";
    assert full[|full| - 2] == '-' && full[|full| - 1] == '0';
    var p := LocalePrefix(full).value;
    assert |p| == |full| - 1;
    assert p == m + "/" + m + "-";
  }
}
