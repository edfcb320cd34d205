/**
 The fragment of Go's regular expressions that the CODEOWNERS compiler emits,
 with its matching relation over positions of a fixed path.
 */
module Regex {
  datatype Regex =
    | Empty
    | Begin                          // ^
    | End                            // $
    | Char(c: char)                  // a quoted character
    | NotSlash                       // [^/]
    | Dot                            // . (any character but newline)
    | Cat(first: Regex, second: Regex)
    | Alt(left: Regex, right: Regex)
    | Star(body: Regex)

  // re matches s[i..j].
  predicate Matches(re: Regex, s: string, i: nat, j: nat)
    requires i <= j <= |s|
    decreases re, j - i
  {
    match re
    case Empty => i == j
    case Begin => i == j == 0
    case End => i == j == |s|
    case Char(c) => j == i + 1 && s[i] == c
    case NotSlash => j == i + 1 && s[i] != '/'
    case Dot => j == i + 1 && s[i] != '\n'
    case Cat(a, b) => exists k | i <= k <= j :: Matches(a, s, i, k) && Matches(b, s, k, j)
    case Alt(a, b) => Matches(a, s, i, j) || Matches(b, s, i, j)
    case Star(a) => i == j || exists k | i < k <= j :: Matches(a, s, i, k) && Matches(re, s, k, j)
  }

  // The items of an expression match consecutively, starting at position i.
  predicate MatchesFrom(items: seq<Regex>, s: string, i: nat)
    requires i <= |s|
  {
    items == [] || exists k | i <= k <= |s| :: Matches(items[0], s, i, k) && MatchesFrom(items[1..], s, k)
  }

  // regexp.MatchString: an unanchored search.
  predicate Search(items: seq<Regex>, s: string) {
    exists i | 0 <= i <= |s| :: MatchesFrom(items, s, i)
  }

  lemma StarUnfolds(a: Regex, s: string, i: nat, j: nat)
    requires i < j <= |s|
    ensures Matches(Star(a), s, i, j) <==>
            exists k | i < k <= j :: Matches(a, s, i, k) && Matches(Star(a), s, k, j)
  {
    var star := Star(a);
    if k :| i < k <= j && Matches(a, s, i, k) && Matches(star, s, k, j) {
      assert Matches(star.body, s, i, k);
    }
  }

  lemma StarEmpty(a: Regex, s: string, i: nat)
    requires i <= |s|
    ensures Matches(Star(a), s, i, i)
  {
  }

  lemma CatUnfolds(a: Regex, b: Regex, s: string, i: nat, j: nat)
    requires i <= j <= |s|
    ensures Matches(Cat(a, b), s, i, j) <==> exists k | i <= k <= j :: Matches(a, s, i, k) && Matches(b, s, k, j)
  {
    var cat := Cat(a, b);
    if k :| i <= k <= j && Matches(a, s, i, k) && Matches(b, s, k, j) {
      assert Matches(cat.first, s, i, k) && Matches(cat.second, s, k, j);
    }
  }

  // One item, then the rest: how MatchesFrom unfolds.
  lemma FromCons(item: Regex, rest: seq<Regex>, s: string, i: nat)
    requires i <= |s|
    ensures MatchesFrom([item] + rest, s, i) <==>
            exists k | i <= k <= |s| :: Matches(item, s, i, k) && MatchesFrom(rest, s, k)
  {
    var items := [item] + rest;
    assert items[1..] == rest;
    if k :| i <= k <= |s| && Matches(item, s, i, k) && MatchesFrom(rest, s, k) {
      assert Matches(items[0], s, i, k) && MatchesFrom(items[1..], s, k);
    }
  }

  // An item that consumes exactly one character, and which ones.
  predicate OneChar(item: Regex) {
    item.Char? || item.NotSlash? || item.Dot?
  }

  predicate Consumes(item: Regex, c: char)
    requires OneChar(item)
  {
    match item
    case Char(d) => c == d
    case NotSlash => c != '/'
    case Dot => c != '\n'
  }

  // The star of a one-character item matches exactly the runs of its characters.
  lemma {:induction false} StarOneChar(item: Regex, s: string, i: nat, j: nat)
    requires i <= j <= |s| && OneChar(item)
    ensures Matches(Star(item), s, i, j) <==> forall x | i <= x < j :: Consumes(item, s[x])
    decreases j - i
  {
    if i < j {
      StarUnfolds(item, s, i, j);
      StarOneChar(item, s, i + 1, j);
      if Consumes(item, s[i]) {
        assert Matches(item, s, i, i + 1);
      }
    }
  }
}
