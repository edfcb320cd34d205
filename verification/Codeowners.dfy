/**
 CODEOWNERS patterns: the compiler from patterns to regular expressions, and a
 direct recursive glob matcher that the compiled expression is proved to agree with.
 */
module Codeowners {
  import opened Results
  import opened Regex
  import opened PatternText

  // ------------------------------------------------------------- vocabulary

  // Occurrence of target outside backslash escapes.
  predicate HasUnescaped(value: string, target: char) {
    if value == [] then false
    else if value[0] == '\\' then |value| > 1 && HasUnescaped(value[2..], target)
    else value[0] == target || HasUnescaped(value[1..], target)
  }

  // The pattern ends in the middle of an escape.
  predicate Dangling(pattern: string) {
    pattern != [] &&
    if pattern[0] == '\\' then |pattern| == 1 || Dangling(pattern[2..]) else Dangling(pattern[1..])
  }

  function StarRun(p: string): (n: nat)
    ensures n <= |p|
    ensures forall x | 0 <= x < n :: p[x] == '*'
    ensures n < |p| ==> p[n] != '*'
  {
    if p == [] || p[0] != '*' then 0 else 1 + StarRun(p[1..])
  }

  // strings.LastIndex based: everything after the last slash.
  function LastComponent(p: string): (r: string)
    ensures '/' !in r
  {
    if '/' in p then LastComponent(p[1..]) else p
  }

  function IndexOf(s: string, c: char): (k: nat)
    ensures k <= |s|
    ensures k < |s| ==> s[k] == c
    ensures forall x | 0 <= x < k :: s[x] != c
  {
    if s == [] || s[0] == c then 0 else 1 + IndexOf(s[1..], c)
  }

  // ---------------------------------------------------- reference semantics

  // Matches the rest of a pattern against the rest of a path. segmentStart
  // says whether p begins a path segment, below whether descendants count.
  predicate Glob(p: string, segmentStart: bool, below: bool, s: string)
    decreases |p|, |s|
  {
    if p == [] then
      s == [] || (below && s[0] == '/' && '\n' !in s[1..])
    else if p[0] == '\\' then
      |p| > 1 && s != [] && s[0] == p[1] && Glob(p[2..], p[1] == '/', below, s[1..])
    else if p[0] == '?' then
      s != [] && s[0] != '/' && Glob(p[1..], false, below, s[1..])
    else if p[0] != '*' then
      s != [] && s[0] == p[0] && Glob(p[1..], p[0] == '/', below, s[1..])
    else if segmentStart && p == "**" then
      // the rest of the path, however deep
      Glob([], false, below, s) || (s != [] && s[0] != '\n' && Glob(p, segmentStart, below, s[1..]))
    else if segmentStart && |p| > 2 && p[1] == '*' && p[2] == '/' then
      // zero or more whole directories
      || Glob(p[3..], true, below, s)
      || (var k := IndexOf(s, '/'); 0 < k < |s| && Glob(p, segmentStart, below, s[k + 1..]))
    else
      // any run inside one segment
      || Glob(p[StarRun(p)..], false, below, s)
      || (s != [] && s[0] != '/' && Glob(p, segmentStart, below, s[1..]))
  }

  // A path segment begins at position j.
  predicate Boundary(s: string, j: nat)
    requires j <= |s|
  {
    j == 0 || s[j - 1] == '/'
  }

  // A pattern accepts a repository-relative path: from its start or, when its
  // text does not root it, from any segment.
  predicate Accepts(pattern: string, path: string) {
    exists j | 0 <= j <= |path| ::
      && (RootedText(pattern) ==> j == 0) && Boundary(path, j)
      && Glob(Inner(pattern), true, CoversText(pattern), path[j..])
  }

  // --------------------------------------------------------------- compiler

  // A pattern with its anchor and directory markers taken off.
  datatype Shape = Shape(body: string, anchored: bool, directory: bool) {
    predicate Rooted() {
      anchored || '/' in body
    }

    // The rule also covers everything below a match.
    predicate CoversBelow() {
      directory || !(HasUnescaped(LastComponent(body), '*') || HasUnescaped(LastComponent(body), '?'))
    }
  }

  function ShapeOf(pattern: string): Shape {
    var anchored := |pattern| > 0 && pattern[0] == '/';
    var rest := if anchored then pattern[1..] else pattern;
    var directory := |rest| > 0 && rest[|rest| - 1] == '/';
    Shape(if directory then rest[..|rest| - 1] else rest, anchored, directory)
  }

  const AnyRun: Regex := Star(NotSlash)
  const Anything: Regex := Star(Dot)
  const Directory: Regex := Cat(Cat(NotSlash, Star(NotSlash)), Char('/'))
  const Directories: Regex := Star(Directory)
  const FloatingStart: Regex := Alt(Begin, Cat(Anything, Char('/')))
  const OptionalBelow: Regex := Alt(Cat(Char('/'), Anything), Empty)

  // The expression emitted at one loop turn and the pattern characters it consumes.
  datatype Emit = Emit(item: Regex, width: nat) | DanglingEscape

  function EmitAt(p: string, segmentStart: bool): (e: Emit)
    requires p != []
    ensures e.Emit? ==> 0 < e.width <= |p|
  {
    if p[0] == '\\' then
      if |p| == 1 then DanglingEscape else Emit(Char(p[1]), 2)
    else if p[0] == '*' then
      var run := StarRun(p);
      if run == 2 && segmentStart && run == |p| then Emit(Anything, run)
      else if run == 2 && segmentStart && p[run] == '/' then Emit(Directories, run + 1)
      else Emit(AnyRun, run)
    else if p[0] == '?' then
      Emit(NotSlash, 1)
    else
      Emit(Char(p[0]), 1)
  }

  function Translate(p: string, segmentStart: bool): Result<seq<Regex>> {
    if p == [] then Ok([]) else
    match EmitAt(p, segmentStart)
    case DanglingEscape => Err
    case Emit(item, width) =>
      Prepend([item], Translate(p[width..], p[width - 1] == '/'))
  }

  function Prepend(items: seq<Regex>, rest: Result<seq<Regex>>): Result<seq<Regex>> {
    match rest
    case Err => Err
    case Ok(more) => Ok(items + more)
  }

  lemma PrependNothing(rest: Result<seq<Regex>>)
    ensures Prepend([], rest) == rest
  {
    assert rest.Ok? ==> [] + rest.value == rest.value;
  }

  lemma TranslateTurn(p: string, segmentStart: bool)
    requires p != []
    ensures Translate(p, segmentStart) ==
            match EmitAt(p, segmentStart)
            case DanglingEscape => Err
            case Emit(item, width) => Prepend([item], Translate(p[width..], p[width - 1] == '/'))
  {
  }

  lemma PrependFailure(items: seq<Regex>)
    ensures Prepend(items, Err) == Err
  {
  }

  lemma PrependToEnd(items: seq<Regex>)
    ensures forall segmentStart :: Prepend(items, Translate([], segmentStart)) == Ok(items)
  {
    assert items + [] == items;
  }

  lemma PrependTwice(items: seq<Regex>, item: Regex, rest: Result<seq<Regex>>)
    ensures Prepend(items, Prepend([item], rest)) == Prepend(items + [item], rest)
  {
    assert rest.Ok? ==> items + ([item] + rest.value) == items + [item] + rest.value;
  }

  function Tail(below: bool): seq<Regex> {
    (if below then [OptionalBelow] else []) + [End]
  }

  function Head(shape: Shape): Regex {
    if shape.Rooted() then Begin else FloatingStart
  }

  function Compile(pattern: string): Result<seq<Regex>> {
    var shape := ShapeOf(pattern);
    if |pattern| > 0 && pattern[0] == '!' then Err
    else if HasUnescaped(pattern, '[') || HasUnescaped(pattern, ']') then Err
    else if shape.body == [] then Err
    else
    match Translate(shape.body, true)
    case Err => Err
    case Ok(items) => Ok([Head(shape)] + items + Tail(shape.CoversBelow()))
  }

  // ---------------------------------------------- the expression, step by step

  lemma FromOneChar(item: Regex, rest: seq<Regex>, s: string, i: nat)
    requires i <= |s| && OneChar(item)
    ensures MatchesFrom([item] + rest, s, i) <==>
            i < |s| && Consumes(item, s[i]) && MatchesFrom(rest, s, i + 1)
  {
    FromCons(item, rest, s, i);
  }

  lemma FromStar(item: Regex, rest: seq<Regex>, s: string, i: nat)
    requires i <= |s| && OneChar(item)
    ensures MatchesFrom([Star(item)] + rest, s, i) <==>
            || MatchesFrom(rest, s, i)
            || (i < |s| && Consumes(item, s[i]) && MatchesFrom([Star(item)] + rest, s, i + 1))
  {
    hide Matches, MatchesFrom;
    FromCons(Star(item), rest, s, i);
    if MatchesFrom([Star(item)] + rest, s, i) {
      var k :| i <= k <= |s| && Matches(Star(item), s, i, k) && MatchesFrom(rest, s, k);
      StarOneChar(item, s, i, k);
      if i < k {
        StarOneChar(item, s, i + 1, k);
        FromCons(Star(item), rest, s, i + 1);
      }
    }
    if MatchesFrom(rest, s, i) {
      StarOneChar(item, s, i, i);
    }
    if i < |s| && Consumes(item, s[i]) && MatchesFrom([Star(item)] + rest, s, i + 1) {
      FromCons(Star(item), rest, s, i + 1);
      var k :| i + 1 <= k <= |s| && Matches(Star(item), s, i + 1, k) && MatchesFrom(rest, s, k);
      StarOneChar(item, s, i + 1, k);
      StarOneChar(item, s, i, k);
    }
  }

  // [^/]+/ matches exactly up to and including the next slash.
  lemma DirectoryMatch(s: string, i: nat, j: nat)
    requires i <= j <= |s|
    ensures Matches(Directory, s, i, j) <==>
            i + 2 <= j && s[j - 1] == '/' && forall x | i <= x < j - 1 :: s[x] != '/'
  {
    var name := Cat(NotSlash, Star(NotSlash));
    CatUnfolds(name, Char('/'), s, i, j);
    if i + 2 <= j {
      CatUnfolds(NotSlash, Star(NotSlash), s, i, j - 1);
      StarOneChar(NotSlash, s, i + 1, j - 1);
      assert s[i] != '/' ==> Matches(NotSlash, s, i, i + 1);
      assert s[j - 1] == '/' ==> Matches(Char('/'), s, j - 1, j);
    } else if k :| i <= k <= j && Matches(name, s, i, k) && Matches(Char('/'), s, k, j) {
      CatUnfolds(NotSlash, Star(NotSlash), s, i, k);
    }
  }

  lemma DirectoriesSkip(s: string, i: nat, k: nat, e: nat)
    requires i <= k < e <= |s| && s[k] == '/' && forall x | i <= x < k :: s[x] != '/'
    ensures Matches(Directories, s, i, e) <==> i < k && Matches(Directories, s, k + 1, e)
  {
    StarUnfolds(Directory, s, i, e);
    if m :| i < m <= e && Matches(Directory, s, i, m) && Matches(Directories, s, m, e) {
      DirectoryMatch(s, i, m);
      assert m == k + 1;
    }
    DirectoryMatch(s, i, k + 1);
  }

  lemma NoDirectory(s: string, i: nat, e: nat)
    requires i < e <= |s| && forall x | i <= x < e :: s[x] != '/'
    ensures !Matches(Directories, s, i, e)
  {
    StarUnfolds(Directory, s, i, e);
    forall m | i < m <= e ensures !Matches(Directory, s, i, m) {
      DirectoryMatch(s, i, m);
    }
  }

  lemma FromDirectories(rest: seq<Regex>, s: string, i: nat)
    requires i <= |s|
    ensures var k := i + IndexOf(s[i..], '/');
            MatchesFrom([Directories] + rest, s, i) <==>
            || MatchesFrom(rest, s, i)
            || (i < k < |s| && MatchesFrom([Directories] + rest, s, k + 1))
  {
    hide Matches, MatchesFrom;
    var k := i + IndexOf(s[i..], '/');
    assert forall x | i <= x < |s| :: s[x] == s[i..][x - i];
    FromCons(Directories, rest, s, i);
    StarEmpty(Directory, s, i);
    if k < |s| {
      FromCons(Directories, rest, s, k + 1);
    }
    forall e | i < e <= |s|
      ensures Matches(Directories, s, i, e) <==> i < k < e && Matches(Directories, s, k + 1, e)
    {
      if k < e {
        DirectoriesSkip(s, i, k, e);
      } else {
        NoDirectory(s, i, e);
      }
    }
  }

  lemma FromTail(below: bool, s: string, i: nat)
    requires i <= |s|
    ensures MatchesFrom(Tail(below), s, i) <==> Glob([], false, below, s[i..])
  {
    forall x | i <= x <= |s| ensures MatchesFrom([End], s, x) <==> x == |s| {
      FromCons(End, [], s, x);
      assert [End] + [] == [End];
      assert x == |s| ==> Matches(End, s, x, x);
    }
    if below {
      assert Tail(true) == [OptionalBelow] + [End];
      FromCons(OptionalBelow, [End], s, i);
      BelowMatch(s, i);
    } else {
      assert Tail(false) == [End];
    }
  }

  lemma BelowMatch(s: string, i: nat)
    requires i <= |s|
    ensures Matches(OptionalBelow, s, i, |s|) <==> i == |s| || (s[i] == '/' && '\n' !in s[i + 1..])
  {
    if i < |s| {
      CatUnfolds(Char('/'), Anything, s, i, |s|);
      StarOneChar(Dot, s, i + 1, |s|);
      assert forall x | i + 1 <= x < |s| :: s[x] == s[i + 1..][x - i - 1];
      assert s[i] == '/' ==> Matches(Char('/'), s, i, i + 1);
    }
  }

  // ------------------------------------------------- compilation is correct

  // One turn of the compiler's loop and one turn of the matcher look at the same thing.
  lemma GlobByEmit(p: string, segmentStart: bool, below: bool, s: string)
    requires p != [] && EmitAt(p, segmentStart).Emit?
    ensures var Emit(item, width) := EmitAt(p, segmentStart);
            var next := p[width - 1] == '/';
            Glob(p, segmentStart, below, s) <==>
              if OneChar(item) then
                s != [] && Consumes(item, s[0]) && Glob(p[width..], next, below, s[1..])
              else if item == Directories then
                || Glob(p[width..], next, below, s)
                || (var k := IndexOf(s, '/'); 0 < k < |s| && Glob(p, segmentStart, below, s[k + 1..]))
              else
                && item.Star? && OneChar(item.body)
                && (|| Glob(p[width..], next, below, s)
                    || (s != [] && Consumes(item.body, s[0]) && Glob(p, segmentStart, below, s[1..])))
  {
    if p[0] == '*' {
      var run := StarRun(p);
      assert p[run - 1] == '*';
      if segmentStart && run == 2 && |p| == 2 {
        assert p == "**" && p[2..] == [];
      } else if p == "**" {
        assert run == 2;
      }
    }
  }

  lemma EmitIsStarOrChar(p: string, segmentStart: bool)
    requires p != [] && EmitAt(p, segmentStart).Emit?
    ensures var item := EmitAt(p, segmentStart).item; OneChar(item) || item == Directories || item in {AnyRun, Anything}
  {
  }

  // The emitted items, closed by the tail, accept from position i exactly
  // what the glob matcher accepts of the remaining path.
  lemma {:induction false} TranslateAgrees(p: string, segmentStart: bool, below: bool, s: string, i: nat)
    requires i <= |s|
    requires Translate(p, segmentStart).Ok?
    ensures MatchesFrom(Translate(p, segmentStart).value + Tail(below), s, i) <==>
            Glob(p, segmentStart, below, s[i..])
    decreases |p|, |s| - i
  {
    hide Matches, MatchesFrom, Glob, EmitAt;
    var tail := Tail(below);
    if p == [] {
      assert [] + tail == tail;
      FromTail(below, s, i);
      GlobEmptyPattern(segmentStart, below, s[i..]);
    } else {
      var Emit(item, width) := EmitAt(p, segmentStart);
      var next := p[width - 1] == '/';
      var rest := Translate(p[width..], next).value + tail;
      assert Translate(p, segmentStart).value + tail == [item] + rest;
      assert i < |s| ==> s[i..][1..] == s[i + 1..];
      GlobByEmit(p, segmentStart, below, s[i..]);
      EmitIsStarOrChar(p, segmentStart);
      if OneChar(item) {
        FromOneChar(item, rest, s, i);
        if i < |s| {
          TranslateAgrees(p[width..], next, below, s, i + 1);
        }
      } else {
        TranslateAgrees(p[width..], next, below, s, i);
        if item == Directories {
          FromDirectories(rest, s, i);
          var k := i + IndexOf(s[i..], '/');
          if i < k < |s| {
            assert s[i..][k - i + 1..] == s[k + 1..];
            TranslateAgrees(p, segmentStart, below, s, k + 1);
          }
        } else {
          FromStar(item.body, rest, s, i);
          if i < |s| {
            TranslateAgrees(p, segmentStart, below, s, i + 1);
          }
        }
      }
    }
  }

  lemma GlobEmptyPattern(segmentStart: bool, below: bool, s: string)
    ensures Glob([], segmentStart, below, s) <==> Glob([], false, below, s)
  {
  }

  lemma {:induction false} TranslateFailsOnDangling(p: string, segmentStart: bool)
    ensures Translate(p, segmentStart).Err? <==> Dangling(p)
  {
    if p != [] && p != ['\\'] {
      var Emit(_, width) := EmitAt(p, segmentStart);
      TranslateFailsOnDangling(p[width..], p[width - 1] == '/');
      if p[0] == '*' {
        DanglingAfterStars(p, width);
      }
    }
  }

  lemma {:induction false} DanglingAfterStars(p: string, n: nat)
    requires n <= |p| && forall x | 0 <= x < n :: p[x] != '\\'
    ensures Dangling(p) <==> Dangling(p[n..])
  {
    if n == 0 {
      assert p[0..] == p;
    } else {
      DanglingAfterStars(p[1..], n - 1);
      assert p[1..][n - 1..] == p[n..];
    }
  }

  // The floating head can begin an attempt at the start and after any slash.
  lemma FloatingHead(rest: seq<Regex>, s: string)
    ensures Search([FloatingStart] + rest, s) <==>
            exists j | 0 <= j <= |s| :: Boundary(s, j) && MatchesFrom(rest, s, j)
  {
    var items := [FloatingStart] + rest;
    if Search(items, s) {
      var i :| 0 <= i <= |s| && MatchesFrom(items, s, i);
      FromCons(FloatingStart, rest, s, i);
      var k :| i <= k <= |s| && Matches(FloatingStart, s, i, k) && MatchesFrom(rest, s, k);
      FloatingStartEnds(s, i, k);
    }
    if exists j | 0 <= j <= |s| :: Boundary(s, j) && MatchesFrom(rest, s, j) {
      var j :| 0 <= j <= |s| && Boundary(s, j) && MatchesFrom(rest, s, j);
      var start := if j == 0 then 0 else j - 1;
      FloatingStartBegins(s, start);
      assert Matches(FloatingStart, s, start, j);
      FromCons(FloatingStart, rest, s, start);
      assert MatchesFrom(items, s, start);
    }
  }

  lemma FloatingStartEnds(s: string, i: nat, k: nat)
    requires i <= k <= |s| && Matches(FloatingStart, s, i, k)
    ensures k == 0 || s[k - 1] == '/'
  {
    CatUnfolds(Anything, Char('/'), s, i, k);
  }

  lemma FloatingStartBegins(s: string, i: nat)
    requires i <= |s|
    ensures i == 0 ==> Matches(FloatingStart, s, 0, 0)
    ensures i < |s| && s[i] == '/' ==> Matches(FloatingStart, s, i, i + 1)
  {
    if i < |s| && s[i] == '/' {
      StarOneChar(Dot, s, i, i);
      assert Matches(Char('/'), s, i, i + 1);
      CatUnfolds(Anything, Char('/'), s, i, i + 1);
    }
  }

  lemma RootedHead(rest: seq<Regex>, s: string)
    ensures Search([Begin] + rest, s) <==> MatchesFrom(rest, s, 0)
  {
    if i :| 0 <= i <= |s| && MatchesFrom([Begin] + rest, s, i) {
      FromCons(Begin, rest, s, i);
    }
    if MatchesFrom(rest, s, 0) {
      assert Matches(Begin, s, 0, 0);
      FromCons(Begin, rest, s, 0);
    }
  }

  // ------------------------------------------------ the compiler reads the text

  lemma {:induction false} UnescapedIsBare(p: string, c: char)
    requires c != '\\'
    ensures HasUnescaped(p, c) <==> HasBare(p, c)
  {
    if p == [] {
    } else if p[0] == '\\' && |p| == 1 {
    } else {
      var k := if p[0] == '\\' then 2 else 1;
      UnescapedIsBare(p[k..], c);
      EscapeIsOver(p);
      BareAfter(p, k, c);
    }
  }

  // An escape takes two characters, anything else one.
  lemma EscapeIsOver(p: string)
    requires p != [] && (p[0] == '\\' ==> |p| > 1)
    ensures !Escaped(p, 0)
    ensures p[0] == '\\' ==> Escaped(p, 1) && !Escaped(p, 2)
    ensures p[0] != '\\' ==> !Escaped(p, 1)
  {
  }

  lemma BareAfter(p: string, k: nat, c: char)
    requires 0 < k <= |p| && !Escaped(p, k)
    ensures HasBare(p, c) <==> HasBare(p[k..], c) || exists i | 0 <= i < k :: p[i] == c && !Escaped(p, i)
  {
    forall j | 0 <= j < |p| - k
      ensures p[k..][j] == p[k + j] && (Escaped(p[k..], j) <==> Escaped(p, k + j))
    {
      EscapesRestart(p, k, j);
    }
    if HasBare(p[k..], c) {
      var j :| 0 <= j < |p[k..]| && p[k..][j] == c && !Escaped(p[k..], j);
      assert p[k + j] == c && !Escaped(p, k + j);
    }
    if i :| k <= i < |p| && p[i] == c && !Escaped(p, i) {
      assert p[k..][i - k] == c && !Escaped(p[k..], i - k);
    }
  }

  lemma {:induction false} DanglingIsEscapedEnd(p: string)
    ensures Dangling(p) <==> Escaped(p, |p|)
  {
    if p == [] {
    } else if p[0] == '\\' && |p| == 1 {
      assert !Escaped(p, 0);
    } else {
      var k := if p[0] == '\\' then 2 else 1;
      EscapeIsOver(p);
      DanglingIsEscapedEnd(p[k..]);
      EscapesRestart(p, k, |p| - k);
    }
  }

  // The last component is what follows the last slash.
  lemma {:induction false} LastComponentAt(p: string) returns (m: nat)
    ensures m <= |p| && LastComponent(p) == p[m..] && (m == 0 || p[m - 1] == '/')
    ensures forall i | 0 <= i < |p| :: '/' !in p[i..] <==> m <= i
  {
    if '/' in p {
      var inner := LastComponentAt(p[1..]);
      m := inner + 1;
      assert p[1..][inner..] == p[m..];
      if inner == 0 { SlashIsFirst(p); }
      assert p[m - 1] == '/';
      assert forall i | m <= i < |p| :: p[i..] == p[m..][i - m..];
    } else {
      m := 0;
      assert p[0..] == p;
    }
  }

  lemma SlashIsFirst(p: string)
    requires '/' in p && LastComponent(p[1..]) == p[1..]
    ensures p[0] == '/'
  {
    assert '/' !in LastComponent(p[1..]);
  }

  lemma LeafIsText(p: string)
    requires p != [] && p[|p| - 1] != '/'
    ensures CoversText(p) <==> !(HasUnescaped(LastComponent(p), '*') || HasUnescaped(LastComponent(p), '?'))
  {
    var m := LastComponentAt(p);
    assert !Escaped(p, m);
    var leaf := p[m..];
    UnescapedIsBare(leaf, '*');
    UnescapedIsBare(leaf, '?');
    forall j | 0 <= j < |leaf|
      ensures leaf[j] == p[m + j] && (Escaped(leaf, j) <==> Escaped(p, m + j))
    {
      EscapesRestart(p, m, j);
    }
    hide Escaped, HasUnescaped;
    if i :| 0 <= i < |p| && IsWildcard(p[i]) && '/' !in p[i..] && !Escaped(p, i) {
      assert leaf[i - m] == p[i] && !Escaped(leaf, i - m);
    }
    if j :| 0 <= j < |leaf| && IsWildcard(leaf[j]) && !Escaped(leaf, j) {
      assert '/' !in p[m + j..] && IsWildcard(p[m + j]) && !Escaped(p, m + j);
    }
  }

  // Taking markers off does not change the leaf.
  lemma LeafOfInner(p: string)
    requires p != [] && p[|p| - 1] != '/'
    ensures LastComponent(Inner(p)) == LastComponent(p)
  {
    if p[0] == '/' {
      assert Inner(p) == p[1..];
    } else {
      assert Inner(p) == p;
    }
  }

  /** The markers the compiler takes off are what the text says. */
  lemma ShapeIsText(p: string)
    requires Inner(p) != []
    ensures ShapeOf(p).body == Inner(p)
    ensures ShapeOf(p).Rooted() <==> RootedText(p)
    ensures ShapeOf(p).CoversBelow() <==> CoversText(p)
  {
    var shape := ShapeOf(p);
    assert shape.body == Inner(p);
    if shape.directory {
    } else {
      LeafIsText(p);
      LeafOfInner(p);
    }
    RootIsText(p);
  }

  lemma RootIsText(p: string)
    requires Inner(p) != []
    ensures (p[0] == '/' || '/' in Inner(p)) <==> RootedText(p)
  {
    var first := if p[0] == '/' then 1 else 0;
    if '/' in Inner(p) {
      var i :| 0 <= i < |Inner(p)| && Inner(p)[i] == '/';
      assert p[first + i] == '/';
    }
    if i :| 0 < i < |p| - 1 && p[i] == '/' {
      assert Inner(p)[i - first] == '/';
    }
  }

  // Compilation succeeds exactly on supported patterns, with these parts.
  lemma CompileSucceedsExactly(pattern: string)
    ensures Compile(pattern).Ok? <==> Supported(pattern)
    ensures var shape := ShapeOf(pattern);
            Compile(pattern).Ok? ==>
              && Translate(shape.body, true).Ok? && shape.body == Inner(pattern) != []
              && Compile(pattern).value == [Head(shape)] + (Translate(shape.body, true).value + Tail(shape.CoversBelow()))
  {
    hide HasUnescaped, HasBare, Escaped, Dangling, Translate, LastComponent, Head, Tail, ShapeOf, Inner;
    var shape := ShapeOf(pattern);
    BodyIsInner(pattern);
    TranslateFailsOnDangling(shape.body, true);
    DanglingIsEscapedEnd(shape.body);
    UnescapedIsBare(pattern, '[');
    UnescapedIsBare(pattern, ']');
    if Translate(shape.body, true).Ok? {
      var items, tail := Translate(shape.body, true).value, Tail(shape.CoversBelow());
      assert [Head(shape)] + items + tail == [Head(shape)] + (items + tail);
    }
  }

  lemma BodyIsInner(p: string)
    ensures ShapeOf(p).body == Inner(p)
  {
  }

  // What the parts search for.
  lemma SearchByParts(body: string, rooted: bool, below: bool, path: string)
    requires Translate(body, true).Ok?
    ensures Search([if rooted then Begin else FloatingStart] + (Translate(body, true).value + Tail(below)), path) <==>
            exists j | 0 <= j <= |path| :: (rooted ==> j == 0) && Boundary(path, j) && Glob(body, true, below, path[j..])
  {
    hide MatchesFrom, Glob, Search, Translate, Tail;
    var rest := Translate(body, true).value + Tail(below);
    assert path[0..] == path;
    forall j | 0 <= j <= |path|
      ensures MatchesFrom(rest, path, j) <==> Glob(body, true, below, path[j..])
    {
      TranslateAgrees(body, true, below, path, j);
    }
    if rooted {
      RootedHead(rest, path);
    } else {
      FloatingHead(rest, path);
      if j :| 0 <= j <= |path| && Boundary(path, j) && MatchesFrom(rest, path, j) {
        assert Glob(body, true, below, path[j..]);
      }
      if j :| 0 <= j <= |path| && Boundary(path, j) && Glob(body, true, below, path[j..]) {
        assert MatchesFrom(rest, path, j);
      }
    }
  }

  /** Compilation succeeds exactly on supported patterns, and its expression accepts exactly what the glob does. */
  lemma CompileAgrees(pattern: string, path: string)
    ensures Compile(pattern).Ok? <==> Supported(pattern)
    ensures Compile(pattern).Ok? ==> (Search(Compile(pattern).value, path) <==> Accepts(pattern, path))
  {
    hide Compile, Search, Supported, Translate, Tail, Glob, RootedText, CoversText, ShapeOf, Inner, LastComponent, HasUnescaped;
    CompileSucceedsExactly(pattern);
    if Compile(pattern).Ok? {
      var shape := ShapeOf(pattern);
      ShapeIsText(pattern);
      SearchByParts(shape.body, shape.Rooted(), shape.CoversBelow(), path);
    }
  }

  // The index loop that the compiler uses to look for a bare character.
  method FindUnescaped(value: string, target: char) returns (found: bool)
    ensures found == HasUnescaped(value, target)
  {
    var escaped := false;
    var index := 0;
    while index < |value|
      invariant 0 <= index <= |value|
      invariant HasUnescaped(value, target) ==
                if escaped then index < |value| && HasUnescaped(value[index + 1..], target)
                else HasUnescaped(value[index..], target)
    {
      if escaped {
        escaped := false;
      } else if value[index] == '\\' {
        assert index + 1 < |value| ==> value[index..][2..] == value[index + 1..][1..];
        escaped := true;
      } else if value[index] == target {
        return true;
      } else {
        assert value[index..][1..] == value[index + 1..];
      }
      index := index + 1;
    }
    return false;
  }

  // The compiler's index loop over the stripped pattern.
  method TranslateBody(body: string) returns (r: Result<seq<Regex>>)
    ensures r == Translate(body, true)
  {
    hide EmitAt, Translate, Prepend;
    var items := [];
    var index := 0;
    assert body[0..] == body;
    PrependNothing(Translate(body, true));
    while index < |body|
      invariant 0 <= index <= |body|
      invariant Translate(body, true) ==
                Prepend(items, Translate(body[index..], index == 0 || body[index - 1] == '/'))
    {
      var rest := body[index..];
      var emit := EmitAt(rest, index == 0 || body[index - 1] == '/');
      TranslateTurn(rest, index == 0 || body[index - 1] == '/');
      PrependFailure(items);
      if emit.DanglingEscape? {
        return Err;
      }
      assert rest[emit.width..] == body[index + emit.width..];
      assert rest[emit.width - 1] == body[index + emit.width - 1];
      PrependTwice(items, emit.item, Translate(rest[emit.width..], rest[emit.width - 1] == '/'));
      items := items + [emit.item];
      index := index + emit.width;
    }
    assert body[index..] == [];
    PrependToEnd(items);
    r := Ok(items);
  }

  // compilePattern: rejects, strips the markers, then writes the expression.
  method CompilePattern(pattern: string) returns (r: Result<seq<Regex>>)
    ensures r == Compile(pattern)
    ensures r.Ok? <==> Supported(pattern)
    ensures r.Ok? ==> forall path :: Search(r.value, path) <==> Accepts(pattern, path)
  {
    hide Search, Accepts, Supported, Translate, HasUnescaped, Dangling;
    forall path {
      CompileAgrees(pattern, path);
    }
    CompileAgrees(pattern, "");
    TranslateFailsOnDangling(ShapeOf(pattern).body, true);
    if |pattern| > 0 && pattern[0] == '!' {
      return Err;
    }
    var opening := FindUnescaped(pattern, '[');
    var closing := FindUnescaped(pattern, ']');
    if opening || closing {
      return Err;
    }
    var shape := ShapeOf(pattern);
    if shape.body == [] {
      return Err;
    }
    var items := TranslateBody(shape.body);
    if items.Err? {
      return Err;
    }
    var star := FindUnescaped(LastComponent(shape.body), '*');
    var question := FindUnescaped(LastComponent(shape.body), '?');
    r := Ok([Head(shape)] + items.value + Tail(shape.directory || !(star || question)));
  }

  // --------------------------------------------------- what patterns can match

  function Slashes(s: string): nat {
    if s == [] then 0 else (if s[0] == '/' then 1 else 0) + Slashes(s[1..])
  }

  // Some segment of the pattern is exactly **.
  predicate HasWholeDoubleStar(p: string, segmentStart: bool) {
    p != [] &&
    if p[0] == '\\' then |p| > 1 && HasWholeDoubleStar(p[2..], p[1] == '/')
    else if p[0] == '*' then
      || (segmentStart && StarRun(p) == 2 && (|p| == 2 || p[2] == '/'))
      || HasWholeDoubleStar(p[StarRun(p)..], false)
    else HasWholeDoubleStar(p[1..], p[0] == '/')
  }

  lemma {:induction false} StarsHaveNoSlash(p: string, n: nat)
    requires n <= |p| && forall x | 0 <= x < n :: p[x] != '/'
    ensures Slashes(p) == Slashes(p[n..])
  {
    if n == 0 {
      assert p[0..] == p;
    } else {
      StarsHaveNoSlash(p[1..], n - 1);
      assert p[1..][n - 1..] == p[n..];
    }
  }

  lemma {:induction false} GlobKeepsDepth(p: string, segmentStart: bool, s: string)
    requires Glob(p, segmentStart, false, s)
    requires !HasWholeDoubleStar(p, segmentStart)
    ensures Slashes(s) == Slashes(p)
    decreases |p|, |s|
  {
    if p == [] {
    } else if p[0] == '\\' {
      GlobKeepsDepth(p[2..], p[1] == '/', s[1..]);
      assert p[1..][1..] == p[2..];
      assert Slashes(p[1..]) == (if p[1] == '/' then 1 else 0) + Slashes(p[2..]);
    } else if p[0] != '*' {
      GlobKeepsDepth(p[1..], p[0] == '/', s[1..]);
    } else {
      var n := StarRun(p);
      assert n == 2 ==> p[..2] == "**";
      StarsHaveNoSlash(p, n);
      if Glob(p[n..], false, false, s) {
        GlobKeepsDepth(p[n..], false, s);
      } else {
        GlobKeepsDepth(p, segmentStart, s[1..]);
      }
    }
  }

  /** A rooted pattern with a wildcard leaf and no whole-segment double star matches at its own depth only. */
  lemma WildcardLeafKeepsDepth(pattern: string, path: string)
    requires Accepts(pattern, path)
    requires RootedText(pattern) && !CoversText(pattern) && !HasDoubleStarSegment(Inner(pattern))
    ensures Slashes(path) == Slashes(Inner(pattern))
  {
    assert path[0..] == path;
    WholeDoubleStarIsSegment(Inner(pattern), true);
    GlobKeepsDepth(Inner(pattern), true, path);
  }

  // A double star that the translation treats as a whole segment is one.
  lemma {:induction false} WholeDoubleStarIsSegment(p: string, segmentStart: bool)
    ensures HasWholeDoubleStar(p, segmentStart) ==>
              exists i | 0 <= i <= |p| - 2 :: DoubleStarAt(p, i) && (i == 0 ==> segmentStart)
  {
    if p == [] || !HasWholeDoubleStar(p, segmentStart) {
    } else {
      var run := StarRun(p);
      if p[0] == '*' && segmentStart && run == 2 && (|p| == 2 || p[2] == '/') {
        assert DoubleStarAt(p, 0);
      } else {
        var k := if p[0] == '\\' then 2 else if p[0] == '*' then run else 1;
        var next := p[0] != '*' && p[k - 1] == '/';
        WholeDoubleStarIsSegment(p[k..], next);
        var i :| 0 <= i <= |p[k..]| - 2 && DoubleStarAt(p[k..], i) && (i == 0 ==> next);
        assert p[k..][i] == p[k + i] && p[k..][i + 1] == p[k + i + 1];
        assert i > 0 ==> p[k..][i - 1] == p[k + i - 1];
        assert i + 2 < |p[k..]| ==> p[k..][i + 2] == p[k + i + 2];
        assert DoubleStarAt(p, k + i);
      }
    }
  }

  /** An unrooted pattern that matches a path matches it in every directory. */
  lemma UnrootedMatchesAnywhere(pattern: string, directory: string, path: string)
    requires Accepts(pattern, path) && !RootedText(pattern)
    ensures Accepts(pattern, directory + "/" + path)
  {
    var deeper := directory + "/" + path;
    var j :| 0 <= j <= |path| && Boundary(path, j) && Glob(Inner(pattern), true, CoversText(pattern), path[j..]);
    var k := |directory| + 1 + j;
    assert Boundary(deeper, k) && deeper[k..] == path[j..];
  }

  lemma {:induction false} GlobExtendsBelow(p: string, segmentStart: bool, s: string, x: string)
    requires Glob(p, segmentStart, true, s) && '\n' !in x
    ensures Glob(p, segmentStart, true, s + "/" + x)
    decreases |p|, |s|
  {
    hide Glob, EmitAt, IndexOf, OneChar, Consumes;
    var t := s + "/" + x;
    if p == [] {
      EndExtendsBelow(segmentStart, s, x);
    } else {
      GlobNeverDangles(p, segmentStart, true, s);
      var Emit(item, width) := EmitAt(p, segmentStart);
      var next := p[width - 1] == '/';
      GlobByEmit(p, segmentStart, true, s);
      GlobByEmit(p, segmentStart, true, t);
      if s == [] {
      } else {
        assert t[0] == s[0] && t[1..] == s[1..] + "/" + x;
      }
      if OneChar(item) {
        GlobExtendsBelow(p[width..], next, s[1..], x);
      } else if Glob(p[width..], next, true, s) {
        GlobExtendsBelow(p[width..], next, s, x);
      } else if item == Directories {
        var k := IndexOf(s, '/');
        IndexOfPrefix(s, t, '/');
        assert t[k + 1..] == s[k + 1..] + "/" + x;
        GlobExtendsBelow(p, segmentStart, s[k + 1..], x);
      } else {
        GlobExtendsBelow(p, segmentStart, s[1..], x);
      }
    }
  }

  lemma EndExtendsBelow(segmentStart: bool, s: string, x: string)
    requires Glob([], segmentStart, true, s) && '\n' !in x
    ensures Glob([], segmentStart, true, s + "/" + x)
  {
    var t := s + "/" + x;
    if s == [] {
      assert t[1..] == x;
    } else {
      assert t[1..] == s[1..] + "/" + x;
    }
  }

  lemma GlobNeverDangles(p: string, segmentStart: bool, below: bool, s: string)
    requires p != [] && Glob(p, segmentStart, below, s)
    ensures EmitAt(p, segmentStart).Emit?
  {
  }

  lemma IndexOfPrefix(s: string, t: string, c: char)
    requires IndexOf(s, c) < |s| && s <= t
    ensures IndexOf(t, c) == IndexOf(s, c)
  {
  }

  // A path is covered with everything directly or deeply below it named by x.
  ghost predicate CoversDescendant(x: string) {
    forall pattern, path :: CoversText(pattern) && Accepts(pattern, path) ==>
                              Accepts(pattern, path + "/" + x)
  }

  lemma DescendantIsCovered(pattern: string, path: string, x: string)
    requires CoversText(pattern) && Accepts(pattern, path) && '\n' !in x
    ensures Accepts(pattern, path + "/" + x)
  {
    var below := path + "/" + x;
    var j :| && 0 <= j <= |path| && (RootedText(pattern) ==> j == 0) && Boundary(path, j)
             && Glob(Inner(pattern), true, true, path[j..]);
    GlobExtendsBelow(Inner(pattern), true, path[j..], x);
    assert Boundary(below, j) && below[j..] == path[j..] + "/" + x;
  }

  /** Literal-leaf and directory patterns own exactly the descendants whose name has no newline. */
  lemma DescendantsCoveredUnlessNewline(x: string)
    ensures CoversDescendant(x) <==> '\n' !in x
  {
    if '\n' !in x {
      forall pattern, path | CoversText(pattern) && Accepts(pattern, path)
        ensures Accepts(pattern, path + "/" + x)
      {
        DescendantIsCovered(pattern, path, x);
      }
    } else {
      assert Inner("/a") == "a" && RootedText("/a") by { assert "/a"[0] == '/'; }
      assert CoversText("/a");
      assert Boundary("a", 0) && "a"[0..] == "a" && Glob("a", true, true, "a");
      assert Accepts("/a", "a");
      var path := "a" + "/" + x;
      assert path[0..] == path && path[1..][1..] == x;
      assert !Glob([], false, true, path[1..]);
      assert !Accepts("/a", path);
    }
  }
}
