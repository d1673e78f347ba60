/** The two string operations the launcher applies: ASCII lower-casing
    (`str.lower` on the web-backend choice) and right alignment in a
    fixed-width column (`"{:>12}"` when listing languages). */
module Text {

  /** Lower-cases one ASCII letter; every other character is kept. */
  function LowerChar(c: char): char
  {
    if 'A' <= c <= 'Z' then (c as int + 32) as char else c
  }

  predicate IsUpper(c: char)
  {
    'A' <= c <= 'Z'
  }

  /** True when the string contains no upper-case ASCII letter. */
  predicate NoUpper(s: string)
  {
    forall i :: 0 <= i < |s| ==> !IsUpper(s[i])
  }

  /** The lower-cased copy of `s`, character by character. */
  function Lower(s: string): (r: string)
    ensures |r| == |s|
    ensures NoUpper(r)
    ensures forall i :: 0 <= i < |s| && !IsUpper(s[i]) ==> r[i] == s[i]
    ensures forall i :: 0 <= i < |s| && IsUpper(s[i]) ==>
      'a' <= r[i] <= 'z' && r[i] as int - 'a' as int == s[i] as int - 'A' as int
  {
    if s == [] then [] else [LowerChar(s[0])] + Lower(s[1..])
  }

  /** Lower-casing a string that has no upper-case letter gives it back. */
  lemma LowerOfLowercase(s: string)
    requires NoUpper(s)
    ensures Lower(s) == s
  {
  }

  function Spaces(n: nat): (r: string)
    ensures |r| == n
    ensures forall i :: 0 <= i < n ==> r[i] == ' '
  {
    seq(n, _ => ' ')
  }

  /** `s` right-aligned in a column of `width` characters: padded on the
      left with spaces, never truncated. */
  function PadLeft(s: string, width: nat): (r: string)
    ensures |r| == if |s| < width then width else |s|
    ensures r[|r| - |s|..] == s
    ensures forall i :: 0 <= i < |r| - |s| ==> r[i] == ' '
  {
    if |s| < width then Spaces(width - |s|) + s else s
  }

  /** Width of the code column in the language listing. */
  const CodeColumn: nat := 12

  /** One row of the language listing: two spaces, the code right-aligned
      in a 12-character column, two spaces, the display name. */
  function FormatLanguageRow(code: string, name: string): (r: string)
    ensures |code| <= CodeColumn ==>
      && |r| == 4 + CodeColumn + |name|
      && r[2 + CodeColumn - |code|..2 + CodeColumn] == code
      && r[2 + CodeColumn..4 + CodeColumn] == "  "
      && r[4 + CodeColumn..] == name
      && (forall i :: 0 <= i < 2 + CodeColumn - |code| ==> r[i] == ' ')
    ensures |code| > CodeColumn ==> r == "  " + code + "  " + name
  {
    var padded := PadLeft(code, CodeColumn);
    RowParts("  ", padded, "  ", name);
    "  " + padded + "  " + name
  }

  /** Where the four parts of a concatenation land. */
  lemma RowParts(a: string, b: string, c: string, d: string)
    ensures var r := a + b + c + d;
      && |r| == |a| + |b| + |c| + |d|
      && r[..|a|] == a
      && r[|a|..|a| + |b|] == b
      && r[|a| + |b|..|a| + |b| + |c|] == c
      && r[|a| + |b| + |c|..] == d
  {
  }
}
