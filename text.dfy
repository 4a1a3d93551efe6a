/**
 * The string helpers the handlers lean on: .NET's null/empty/white-space tests, the tagged
 * notes logs ("[STARTED] ...") that the workflows append to, a case-blind substring test and
 * the ordinal order used to sort by equipment type.
 */
module Text {
  import opened Wrappers

  /** How string interpolation renders a nullable string: null becomes "". */
  function Render(s: Option<string>): string {
    s.OrElse("")
  }

  /** string.IsNullOrEmpty */
  predicate IsNullOrEmpty(s: Option<string>) {
    s.None? || s.value == ""
  }

  /**
   * char.IsWhiteSpace: U+0009..U+000D, U+0085, and the Unicode space, line and paragraph
   * separators.
   */
  predicate IsWhiteSpace(c: char) {
    var n := c as int;
    (9 <= n <= 13) || n == 0x20 || n == 0x85 || n == 0xA0 || n == 0x1680
    || (0x2000 <= n <= 0x200A) || n == 0x2028 || n == 0x2029 || n == 0x202F
    || n == 0x205F || n == 0x3000
  }

  predicate IsBlank(s: string) {
    forall i :: 0 <= i < |s| ==> IsWhiteSpace(s[i])
  }

  /** string.IsNullOrWhiteSpace */
  predicate IsNullOrWhiteSpace(s: Option<string>) {
    s.None? || IsBlank(s.value)
  }

  /** One tagged entry of a notes log: "{tag} {text}". */
  function Entry(tag: string, text: string): string {
    tag + " " + text
  }

  /**
   * Appends one line to a notes log. When the log counts as empty (`startsFresh`) the line
   * replaces it; otherwise it follows the old text after a line break.
   */
  function AppendLine(log: Option<string>, line: string, startsFresh: bool): string {
    if startsFresh then line else Render(log) + "\n" + line
  }

  /** A notes log only grows: the old text survives as a prefix and the new line ends it. */
  lemma AppendLineKeepsHistory(log: Option<string>, line: string, startsFresh: bool)
    ensures var r := AppendLine(log, line, startsFresh);
      && |line| <= |r| && r[|r| - |line|..] == line
      && (!startsFresh ==> Render(log) + "\n" == r[..|Render(log)| + 1])
      && (startsFresh ==> r == line)
  {
    var r := AppendLine(log, line, startsFresh);
    if !startsFresh {
      assert r == (Render(log) + "\n") + line;
    }
  }

  /** Simple upper-casing, as OrdinalIgnoreCase applies it (ASCII letters only here). */
  function ToUpper(c: char): char {
    if 'a' <= c <= 'z' then (c as int - 32) as char else c
  }

  /** The string upper-cased character by character. */
  function ToUpperAll(s: string): (r: string)
    ensures |r| == |s|
    ensures forall i :: 0 <= i < |s| ==> r[i] == ToUpper(s[i])
  {
    seq(|s|, i requires 0 <= i < |s| => ToUpper(s[i]))
  }

  /** `needle` occurs in `hay` at position `i`, ignoring case. */
  predicate MatchesAt(hay: string, needle: string, i: int) {
    0 <= i && i + |needle| <= |hay| && ToUpperAll(hay[i..i + |needle|]) == ToUpperAll(needle)
  }

  /** hay.Contains(needle, StringComparison.OrdinalIgnoreCase) */
  predicate ContainsIgnoreCase(hay: string, needle: string) {
    exists i :: 0 <= i <= |hay| - |needle| && MatchesAt(hay, needle, i)
  }

  /** Upper-casing twice is upper-casing once. */
  lemma UpperIdempotent(s: string)
    ensures ToUpperAll(ToUpperAll(s)) == ToUpperAll(s)
  {
  }

  /** Upper-casing commutes with taking a slice. */
  lemma UpperOfSlice(s: string, i: int, j: int)
    requires 0 <= i <= j <= |s|
    ensures ToUpperAll(s)[i..j] == ToUpperAll(s[i..j])
  {
  }

  /** The match does not depend on the case of either argument. */
  lemma ContainsIgnoreCaseIsCaseBlind(hay: string, needle: string)
    ensures ContainsIgnoreCase(hay, needle) <==> ContainsIgnoreCase(ToUpperAll(hay), ToUpperAll(needle))
  {
    var H, N := ToUpperAll(hay), ToUpperAll(needle);
    UpperIdempotent(needle);
    forall i | 0 <= i <= |hay| - |needle|
      ensures MatchesAt(hay, needle, i) <==> MatchesAt(H, N, i)
    {
      UpperOfSlice(hay, i, i + |needle|);
      UpperIdempotent(hay[i..i + |needle|]);
    }
  }

  /** An exact occurrence is in particular a case-blind one. */
  lemma OccurrenceIsContained(hay: string, needle: string, i: int)
    requires 0 <= i && i + |needle| <= |hay| && hay[i..i + |needle|] == needle
    ensures ContainsIgnoreCase(hay, needle)
  {
    assert MatchesAt(hay, needle, i);
  }

  /** Ordinal (code point by code point) string order, shorter prefix first. */
  predicate OrdinalLe(a: string, b: string)
    decreases |a|
  {
    if a == [] then true
    else if b == [] then false
    else if a[0] != b[0] then a[0] < b[0]
    else OrdinalLe(a[1..], b[1..])
  }

  lemma {:induction false} OrdinalLeTotal(a: string, b: string)
    ensures OrdinalLe(a, b) || OrdinalLe(b, a)
    decreases |a|
  {
    if a != [] && b != [] && a[0] == b[0] {
      OrdinalLeTotal(a[1..], b[1..]);
    }
  }

  lemma {:induction false} OrdinalLeTransitive(a: string, b: string, c: string)
    requires OrdinalLe(a, b) && OrdinalLe(b, c)
    ensures OrdinalLe(a, c)
    decreases |a|
  {
    if a != [] && b != [] && c != [] && a[0] == b[0] && b[0] == c[0] {
      OrdinalLeTransitive(a[1..], b[1..], c[1..]);
    }
  }
}
