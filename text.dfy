/** The string handling the human player's input path relies on: Rust's
    `str::trim`, `str::to_lowercase`, `str::replace(" ", "")` and
    `str::parse::<u32>`, as used by src/players/human_player.rs. */
module Text {
  import opened Wrappers

  /** The largest `u32`. */
  const MaxU32: nat := 0xFFFF_FFFF

  /** Unicode `White_Space`, the set `char::is_whitespace` and `trim`
      use. */
  predicate IsSpace(c: char) {
    ('\U{0009}' <= c <= '\U{000D}') || c == '\U{0020}' || c == '\U{0085}' ||
    c == '\U{00A0}' || c == '\U{1680}' || ('\U{2000}' <= c <= '\U{200A}') ||
    c == '\U{2028}' || c == '\U{2029}' || c == '\U{202F}' || c == '\U{205F}' ||
    c == '\U{3000}'
  }

  // ---------------------------------------------------------------- trim

  /** Where the text of `s` starts: the first character that is not white
      space, or the end of `s`. */
  function TrimStart(s: string, i: nat := 0): (lo: nat)
    requires i <= |s|
    ensures i <= lo <= |s|
    ensures forall k :: i <= k < lo ==> IsSpace(s[k])
    ensures lo < |s| ==> !IsSpace(s[lo])
    decreases |s| - i
  {
    if i < |s| && IsSpace(s[i]) then TrimStart(s, i + 1) else i
  }

  /** Where the text of `s[lo..hi]` ends: one past its last character that
      is not white space, or `lo`. */
  function TrimEnd(s: string, lo: nat, hi: nat): (e: nat)
    requires lo <= hi <= |s|
    ensures lo <= e <= hi
    ensures forall k :: e <= k < hi ==> IsSpace(s[k])
    ensures e > lo ==> !IsSpace(s[e - 1])
    decreases hi
  {
    if hi > lo && IsSpace(s[hi - 1]) then TrimEnd(s, lo, hi - 1) else hi
  }

  /** `str::trim`: drops white space from both ends. What is left is the
      slice of `s` outside of which every character is white space, and it
      neither starts nor ends with white space. */
  function Trim(s: string): (r: string)
    ensures var lo := TrimStart(s); var e := TrimEnd(s, lo, |s|);
            && r == s[lo..e]
            && (forall k :: 0 <= k < lo ==> IsSpace(s[k]))
            && (forall k :: e <= k < |s| ==> IsSpace(s[k]))
    ensures |r| > 0 ==> !IsSpace(r[0]) && !IsSpace(r[|r| - 1])
  {
    var lo := TrimStart(s);
    s[lo..TrimEnd(s, lo, |s|)]
  }

  /** A string with no white space at either end is its own trim. */
  lemma TrimUnpadded(s: string)
    requires |s| > 0 ==> !IsSpace(s[0]) && !IsSpace(s[|s| - 1])
    ensures Trim(s) == s
  {
    assert TrimStart(s) == 0;
    assert s[0..|s|] == s;
  }

  /** The trimmed string is a run of the original, starting where the
      leading white space ends. */
  lemma TrimIsRun(s: string)
    ensures TrimStart(s) + |Trim(s)| <= |s|
    ensures forall i :: 0 <= i < |Trim(s)| ==> Trim(s)[i] == s[TrimStart(s) + i]
  {
  }

  /** Trimming leaves no A-Z where there was none. */
  lemma TrimKeepsNoUpper(s: string)
    requires forall i :: 0 <= i < |s| ==> !('A' <= s[i] <= 'Z')
    ensures forall i :: 0 <= i < |Trim(s)| ==> !('A' <= Trim(s)[i] <= 'Z')
  {
    TrimIsRun(s);
  }

  /** Trimming adds no character that was not there. */
  lemma TrimKeepsOut(s: string, c: char)
    requires c !in s
    ensures c !in Trim(s)
  {
    TrimIsRun(s);
  }

  /** Trimming twice is trimming once. */
  lemma TrimIdempotent(s: string)
    ensures Trim(Trim(s)) == Trim(s)
  {
    TrimUnpadded(Trim(s));
  }

  // ------------------------------------------------------------ lowercase

  /** Lowercase of one character: A-Z, and the Kelvin sign, which is the
      one non-ASCII character whose lowercase is an ASCII letter. */
  function LowerChar(c: char): char {
    if 'A' <= c <= 'Z' then (c as int + 32) as char
    else if c == '\U{212A}' then 'k'
    else c
  }

  /** `str::to_lowercase`, character by character. */
  function Lower(s: string): (r: string)
    ensures |r| == |s|
    ensures forall i :: 0 <= i < |s| ==> r[i] == LowerChar(s[i])
  {
    if |s| == 0 then [] else [LowerChar(s[0])] + Lower(s[1..])
  }

  /** No A-Z is left after lowercasing. */
  lemma LowerHasNoUpper(s: string)
    ensures forall i :: 0 <= i < |Lower(s)| ==> !('A' <= Lower(s)[i] <= 'Z')
  {
  }

  /** Lowercasing adds no U+0020. */
  lemma LowerRemovesNoSpace(s: string)
    requires ' ' !in s
    ensures ' ' !in Lower(s)
  {
  }

  /** Lowercasing never adds or removes white space, ... */
  lemma LowerKeepsSpaces(c: char)
    ensures IsSpace(LowerChar(c)) <==> IsSpace(c)
  {
  }

  /** ... and lowercasing twice is lowercasing once. */
  lemma LowerIdempotent(s: string)
    ensures Lower(Lower(s)) == Lower(s)
  {
    assert forall i :: 0 <= i < |s| ==> LowerChar(LowerChar(s[i])) == LowerChar(s[i]);
  }

  // ------------------------------------------------------- remove spaces

  /** `str::replace(" ", "")`: drops every U+0020 and keeps every other
      character, in order. */
  function RemoveSpaces(s: string): (r: string)
    ensures |r| <= |s|
    ensures ' ' !in r
    ensures forall c :: c != ' ' ==> multiset(r)[c] == multiset(s)[c]
  {
    if |s| == 0 then []
    else
      var rest := RemoveSpaces(s[1..]);
      assert s == [s[0]] + s[1..];
      if s[0] == ' ' then rest else [s[0]] + rest
  }

  /** A string without U+0020 comes back unchanged. */
  lemma {:induction false} RemoveSpacesNone(s: string)
    requires ' ' !in s
    ensures RemoveSpaces(s) == s
  {
    if |s| > 0 {
      assert s == [s[0]] + s[1..];
      RemoveSpacesNone(s[1..]);
    }
  }

  // ------------------------------------------------------------- numbers

  predicate IsDigit(c: char) {
    '0' <= c <= '9'
  }

  predicate AllDigits(s: string) {
    forall i :: 0 <= i < |s| ==> IsDigit(s[i])
  }

  function DigitValue(c: char): nat
    requires IsDigit(c)
  {
    c as int - '0' as int
  }

  /** The value of a decimal numeral, leading zeros allowed. */
  function DigitsValue(s: string): nat
    requires AllDigits(s)
  {
    if |s| == 0 then 0
    else 10 * DigitsValue(s[..|s| - 1]) + DigitValue(s[|s| - 1])
  }

  /** The digits `str::parse::<u32>` reads: one leading `+` is allowed,
      a `-` is not (it is not a digit of an unsigned type). */
  function Unsigned(s: string): string {
    if |s| > 0 && s[0] == '+' then s[1..] else s
  }

  /** `str::parse::<u32>`: an optional `+`, then at least one decimal
      digit and nothing else, with a value that fits in 32 bits. Every
      other string, the empty one and a lone `+` included, is refused. */
  function ParseU32(s: string): (r: Option<nat>)
    ensures r.Some? ==> r.value <= MaxU32
    ensures r.Some? ==> |s| > 0 && (IsDigit(s[0]) || s[0] == '+')
    ensures r.Some? <==> |Unsigned(s)| > 0 && AllDigits(Unsigned(s)) && DigitsValue(Unsigned(s)) <= MaxU32
  {
    var ds := Unsigned(s);
    if |ds| > 0 && AllDigits(ds) && DigitsValue(ds) <= MaxU32 then Some(DigitsValue(ds))
    else None
  }

  /** The decimal numeral of `n`, without leading zeros. */
  function ShowNat(n: nat): (s: string)
    ensures |s| > 0 && AllDigits(s)
    ensures |s| > 1 ==> s[0] != '0'
  {
    var d := ['0' + (n % 10) as char];
    if n < 10 then d
    else
      var t := ShowNat(n / 10);
      assert (t + d)[0] == t[0];
      t + d
  }

  /** Reading a numeral back gives the number it shows. */
  lemma {:induction false} ShowNatValue(n: nat)
    ensures DigitsValue(ShowNat(n)) == n
  {
    if n >= 10 {
      ShowNatValue(n / 10);
      var s := ShowNat(n);
      assert s[..|s| - 1] == ShowNat(n / 10);
    }
  }

  /** Every `u32` survives printing and parsing, with or without a `+`. */
  lemma ParseShowRoundTrip(n: nat)
    requires n <= MaxU32
    ensures ParseU32(ShowNat(n)) == Some(n)
    ensures ParseU32("+" + ShowNat(n)) == Some(n)
  {
    ShowNatValue(n);
    assert ("+" + ShowNat(n))[1..] == ShowNat(n);
  }

  /** A minus sign, an empty string or a lone `+` never parse. */
  lemma ParseRefuses(s: string)
    ensures ParseU32("") == None && ParseU32("+") == None
    ensures |s| > 0 && s[0] == '-' ==> ParseU32(s) == None
  {
  }
}
