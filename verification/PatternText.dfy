/**
 What the text of a CODEOWNERS pattern says, character by character and without
 taking the pattern apart: where it is anchored, what its last component covers,
 and which patterns are supported.
 */
module PatternText {
  // An odd number of backslashes stands directly before position i.
  predicate Escaped(p: string, i: nat)
    requires i <= |p|
  {
    i > 0 && p[i - 1] == '\\' && !Escaped(p, i - 1)
  }

  // The character occurs somewhere outside an escape.
  predicate HasBare(p: string, c: char) {
    exists i | 0 <= i < |p| :: p[i] == c && !Escaped(p, i)
  }

  // The text without one leading and one trailing slash.
  function Inner(p: string): string {
    var first := if p != [] && p[0] == '/' then 1 else 0;
    var last := if |p| > first && p[|p| - 1] == '/' then |p| - 1 else |p|;
    p[first..last]
  }

  // A slash at the start, or anywhere before the last character.
  predicate RootedText(p: string) {
    exists i | 0 <= i < |p| :: p[i] == '/' && (i == 0 || i < |p| - 1)
  }

  predicate IsWildcard(c: char) {
    c == '*' || c == '?'
  }

  // A slash at the end, or no bare wildcard after the last slash.
  predicate CoversText(p: string) {
    || (p != [] && p[|p| - 1] == '/')
    || forall i | 0 <= i < |p| && IsWildcard(p[i]) && '/' !in p[i..] :: Escaped(p, i)
  }

  // The patterns that yield a rule; every other line is skipped.
  predicate Supported(p: string) {
    && (p == [] || p[0] != '!')
    && !HasBare(p, '[') && !HasBare(p, ']')
    && Inner(p) != []
    && !Escaped(Inner(p), |Inner(p)|)
  }

  // Some whole segment of the text is a double star.
  predicate HasDoubleStarSegment(p: string) {
    exists i | 0 <= i <= |p| - 2 :: DoubleStarAt(p, i)
  }

  predicate DoubleStarAt(p: string, i: int)
    requires 0 <= i <= |p| - 2
  {
    && p[i] == '*' && p[i + 1] == '*'
    && (i == 0 || p[i - 1] == '/') && (i + 2 == |p| || p[i + 2] == '/')
  }

  // Where no escape is pending, escapes are counted afresh.
  lemma {:induction false} EscapesRestart(p: string, k: nat, j: nat)
    requires k + j <= |p| && !Escaped(p, k)
    ensures Escaped(p[k..], j) <==> Escaped(p, k + j)
  {
    if j == 0 {
    } else {
      EscapesRestart(p, k, j - 1);
    }
  }
}
