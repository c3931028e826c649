/**
 * Wide-character string comparison as the Wine C runtime does it: wcscmp
 * orders strings by code unit, and wcsicmp compares them after folding
 * each character to lower case.
 */
module WideStrings {
  /** towlower, on the ASCII letters. */
  function Lower(ch: char): char
  {
    if 'A' <= ch <= 'Z' then (ch as int + 32) as char else ch
  }

  /** The string with every character folded to lower case. */
  function Fold(s: string): (r: string)
    ensures |r| == |s|
  {
    seq(|s|, i requires 0 <= i < |s| => Lower(s[i]))
  }

  /** wcsicmp(a, b) == 0. */
  predicate CaseEqual(a: string, b: string)
  {
    Fold(a) == Fold(b)
  }

  /** The sign of wcscmp(a, b): the first differing code unit decides, and a proper prefix comes first. */
  function Compare(a: string, b: string): int
    decreases |a|
  {
    if a == [] && b == [] then 0
    else if a == [] then -1
    else if b == [] then 1
    else if a[0] < b[0] then -1
    else if a[0] > b[0] then 1
    else Compare(a[1..], b[1..])
  }

  /** The sign of wcsicmp(a, b). */
  function CompareIgnoringCase(a: string, b: string): int
  {
    Compare(Fold(a), Fold(b))
  }

  /** Compare is a three-way comparison that reports 0 exactly on equal strings. */
  lemma {:induction false} CompareZero(a: string, b: string)
    ensures -1 <= Compare(a, b) <= 1
    ensures Compare(a, b) == 0 <==> a == b
    decreases |a|
  {
    if a != [] && b != [] && a[0] == b[0] {
      CompareZero(a[1..], b[1..]);
      if a[1..] == b[1..] {
        assert a == [a[0]] + a[1..] && b == [b[0]] + b[1..];
      }
    }
  }

  /** Swapping the operands negates the comparison. */
  lemma {:induction false} CompareAntisymmetric(a: string, b: string)
    ensures Compare(a, b) == -Compare(b, a)
    decreases |a|
  {
    if a != [] && b != [] && a[0] == b[0] {
      CompareAntisymmetric(a[1..], b[1..]);
    }
  }

  /** wcsicmp reports 0 exactly for strings equal up to case, and is antisymmetric. */
  lemma CompareIgnoringCaseSpec(a: string, b: string)
    ensures CompareIgnoringCase(a, b) == 0 <==> CaseEqual(a, b)
    ensures CompareIgnoringCase(a, b) == -CompareIgnoringCase(b, a)
  {
    CompareZero(Fold(a), Fold(b));
    CompareAntisymmetric(Fold(a), Fold(b));
  }

  /** Two spellings that differ only in letter case are equal up to case; strings of different lengths are not. */
  lemma CaseEqualExamples()
    ensures CaseEqual("Open", "oPEN")
    ensures !CaseEqual("open", "opens")
  {
    assert Fold("Open") == Fold("oPEN") == "open";
  }
}
