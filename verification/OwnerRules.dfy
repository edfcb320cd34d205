/**
 CODEOWNERS files: splitting lines into rules, and last-match-wins resolution.
 */
module OwnerRules {
  import opened Results
  import opened Regex
  import opened PatternText
  import opened Codeowners

  datatype Rule = Rule(pattern: string, line: nat, owners: seq<string>, matcher: seq<Regex>)

  datatype Split = Split(pattern: string, owners: seq<string>)

  predicate IsSpace(c: char) {
    c == ' ' || c == '\t' || c == '\U{B}' || c == '\U{C}'
  }

  // ----------------------------------------------------------- line splitting

  function TrimRightCR(line: string): string {
    if line != [] && line[|line| - 1] == '\r' then TrimRightCR(line[..|line| - 1]) else line
  }

  function SkipSpaces(line: string, i: nat): (j: nat)
    requires i <= |line|
    ensures i <= j <= |line|
    ensures j < |line| ==> !IsSpace(line[j])
    decreases |line| - i
  {
    if i < |line| && IsSpace(line[i]) then SkipSpaces(line, i + 1) else i
  }

  // The pattern runs to the first unescaped space; None when it ends inside an escape.
  function PatternEnd(line: string, i: nat): (r: Option<nat>)
    requires i <= |line|
    ensures r.Some? ==> i <= r.value <= |line|
    decreases |line| - i
  {
    if i == |line| || IsSpace(line[i]) then Some(i)
    else if line[i] != '\\' then PatternEnd(line, i + 1)
    else if i + 1 == |line| then None
    else PatternEnd(line, i + 2)
  }

  function WordEnd(line: string, i: nat): (j: nat)
    requires i <= |line|
    ensures i <= j <= |line|
    ensures i < |line| && !IsSpace(line[i]) ==> i < j
    ensures forall x | i <= x < j :: !IsSpace(line[x])
    ensures j < |line| ==> IsSpace(line[j])
    decreases |line| - i
  {
    if i < |line| && !IsSpace(line[i]) then WordEnd(line, i + 1) else i
  }

  // Owner tokens up to the first one that opens a comment.
  function Words(line: string, i: nat): seq<string>
    requires i <= |line|
    decreases |line| - i
  {
    var start := SkipSpaces(line, i);
    if start == |line| || line[start] == '#' then []
    else [line[start..WordEnd(line, start)]] + Words(line, WordEnd(line, start))
  }

  function SplitRule(raw: string): Option<Split> {
    var line := TrimRightCR(raw);
    var start := SkipSpaces(line, 0);
    if start == |line| || line[start] == '#' || (start + 1 < |line| && line[start..start + 2] == "\\#") then None else
    match PatternEnd(line, start)
    case None => None
    case Some(end) => if start == end then None else Some(Split(line[start..end], Words(line, end)))
  }

  method SplitLine(raw: string) returns (r: Option<Split>)
    ensures r == SplitRule(raw)
  {
    var line := TrimRightCR(raw);
    var index := 0;
    while index < |line| && IsSpace(line[index])
      invariant 0 <= index <= |line|
      invariant SkipSpaces(line, 0) == SkipSpaces(line, index)
    {
      index := index + 1;
    }
    if index == |line| || line[index] == '#' {
      return None;
    }
    if index + 1 < |line| && line[index..index + 2] == "\\#" {
      return None;
    }
    var start := index;
    var escaped := false;
    while index < |line|
      invariant start <= index <= |line|
      invariant PatternEnd(line, start) ==
                if !escaped then PatternEnd(line, index)
                else if index == |line| then None
                else PatternEnd(line, index + 1)
    {
      if escaped {
        escaped := false;
      } else if line[index] == '\\' {
        escaped := true;
      } else if IsSpace(line[index]) {
        break;
      }
      index := index + 1;
    }
    if escaped {
      return None;
    }
    var pattern := line[start..index];
    var tokens := ReadWords(line, index);
    r := if pattern != [] then Some(Split(pattern, tokens)) else None;
  }

  method ReadWords(line: string, from: nat) returns (tokens: seq<string>)
    requires from <= |line|
    ensures tokens == Words(line, from)
  {
    tokens := [];
    var index := from;
    while index < |line|
      invariant from <= index <= |line|
      invariant Words(line, from) == tokens + Words(line, index)
    {
      ghost var before := index;
      while index < |line| && IsSpace(line[index])
        invariant before <= index <= |line|
        invariant SkipSpaces(line, before) == SkipSpaces(line, index)
      {
        index := index + 1;
      }
      if index == |line| || line[index] == '#' {
        return;
      }
      var start := index;
      while index < |line| && !IsSpace(line[index])
        invariant start <= index <= |line|
        invariant WordEnd(line, start) == WordEnd(line, index)
      {
        index := index + 1;
      }
      tokens := tokens + [line[start..index]];
    }
  }

  // What a rule line can spell.
  predicate Spellable(split: Split) {
    && split.pattern != [] && split.pattern[0] != '#'
    && !(|split.pattern| > 1 && split.pattern[..2] == "\\#")
    && PatternEnd(split.pattern, 0) == Some(|split.pattern|)
    && (forall owner | owner in split.owners :: IsOwnerToken(owner))
  }

  predicate IsOwnerToken(owner: string) {
    owner != [] && owner[0] != '#' && forall x | 0 <= x < |owner| :: !IsSpace(owner[x])
  }

  predicate AllSpaces(s: string) {
    forall x | 0 <= x < |s| :: IsSpace(s[x])
  }

  // How a rule is laid out on its line: white space before the pattern, before
  // each owner and at the end, a comment, and carriage returns.
  datatype Layout = Layout(lead: string, gaps: seq<string>, trail: string, comment: string, returns_: nat) {
    predicate For(split: Split) {
      && AllSpaces(lead) && AllSpaces(trail)
      && |gaps| == |split.owners| && (forall gap | gap in gaps :: gap != [] && AllSpaces(gap))
      && (comment != [] ==> comment[0] == '#' && trail != [])
    }
  }

  function RenderOwners(owners: seq<string>, gaps: seq<string>): string
    requires |gaps| == |owners|
  {
    if owners == [] then [] else gaps[0] + owners[0] + RenderOwners(owners[1..], gaps[1..])
  }

  function Returns(n: nat): string {
    seq(n, i => '\r')
  }

  // The line without its carriage returns.
  function RenderLine(split: Split, layout: Layout): string
    requires layout.For(split)
  {
    layout.lead + split.pattern + RenderOwners(split.owners, layout.gaps) + (layout.trail + layout.comment)
  }

  lemma {:induction false} PatternEndAt(line: string, i: nat, pattern: string, k: nat)
    requires k <= |pattern| && i + |pattern| <= |line| && line[i..i + |pattern|] == pattern
    requires PatternEnd(pattern, k) == Some(|pattern|)
    requires i + |pattern| == |line| || IsSpace(line[i + |pattern|])
    ensures PatternEnd(line, i + k) == Some(i + |pattern|)
    decreases |pattern| - k
  {
    if k == |pattern| {
    } else {
      assert line[i + k] == line[i..i + |pattern|][k];
      assert k + 1 < |pattern| ==> line[i + k + 1] == line[i..i + |pattern|][k + 1];
      PatternEndAt(line, i, pattern, if pattern[k] == '\\' then k + 2 else k + 1);
    }
  }

  lemma {:induction false} SkipsRun(line: string, i: nat, end: nat)
    requires i <= end <= |line| && forall x | i <= x < end :: IsSpace(line[x])
    requires end == |line| || !IsSpace(line[end])
    ensures SkipSpaces(line, i) == end
    decreases end - i
  {
    if i == end {
    } else {
      SkipsRun(line, i + 1, end);
    }
  }

  lemma {:induction false} WordEndOfToken(line: string, i: nat, end: nat)
    requires i <= end <= |line| && forall x | i <= x < end :: !IsSpace(line[x])
    requires end == |line| || IsSpace(line[end])
    ensures WordEnd(line, i) == end
    decreases end - i
  {
    if i == end {
    } else {
      WordEndOfToken(line, i + 1, end);
    }
  }

  lemma WordAt(line: string, i: nat, start: nat, end: nat)
    requires i <= start < end <= |line| && line[start] != '#'
    requires forall x | i <= x < start :: IsSpace(line[x])
    requires forall x | start <= x < end :: !IsSpace(line[x])
    requires end == |line| || IsSpace(line[end])
    ensures Words(line, i) == [line[start..end]] + Words(line, end)
  {
    hide SkipSpaces, WordEnd, IsSpace;
    SkipsRun(line, i, start);
    WordEndOfToken(line, start, end);
  }

  // The first word after a gap, when the line continues with white space or ends.
  lemma FirstWord(prefix: string, gap: string, owner: string, rest: string)
    requires IsOwnerToken(owner) && AllSpaces(gap) && (rest == [] || IsSpace(rest[0]))
    ensures var line := prefix + gap + owner + rest;
            Words(line, |prefix|) == [owner] + Words(line, |prefix| + |gap| + |owner|)
  {
    hide Words, IsSpace;
    var line := prefix + gap + owner + rest;
    var start := |prefix| + |gap|;
    var end := start + |owner|;
    assert forall x | |prefix| <= x < start :: line[x] == gap[x - |prefix|];
    assert forall x | start <= x < end :: line[x] == owner[x - start];
    assert end < |line| ==> line[end] == rest[0];
    assert line[start..end] == owner;
    WordAt(line, |prefix|, start, end);
  }

  // White space and a comment hold no words.
  lemma NoMoreWords(prefix: string, trail: string, comment: string)
    requires AllSpaces(trail) && (comment != [] ==> comment[0] == '#')
    ensures Words(prefix + (trail + comment), |prefix|) == []
  {
    var line := prefix + (trail + comment);
    var end := |prefix| + |trail|;
    assert forall x | |prefix| <= x < end :: line[x] == trail[x - |prefix|];
    assert end < |line| ==> line[end] == comment[0];
    SkipsRun(line, |prefix|, end);
  }

  lemma {:induction false} WordsOfRendered(prefix: string, owners: seq<string>, gaps: seq<string>, trail: string, comment: string)
    requires |gaps| == |owners| && (forall gap | gap in gaps :: gap != [] && AllSpaces(gap))
    requires forall owner | owner in owners :: IsOwnerToken(owner)
    requires AllSpaces(trail) && (comment != [] ==> comment[0] == '#' && trail != [])
    ensures Words(prefix + RenderOwners(owners, gaps) + (trail + comment), |prefix|) == owners
    decreases |owners|
  {
    hide Words, IsOwnerToken;
    var line := prefix + RenderOwners(owners, gaps) + (trail + comment);
    if owners == [] {
      assert line == prefix + (trail + comment);
      NoMoreWords(prefix, trail, comment);
    } else {
      var rest := RenderOwners(owners[1..], gaps[1..]) + (trail + comment);
      var next := prefix + gaps[0] + owners[0];
      assert line == next + rest;
      assert forall gap | gap in gaps[1..] :: gap in gaps;
      GapComesNext(owners[1..], gaps[1..], trail, comment);
      FirstWord(prefix, gaps[0], owners[0], rest);
      WordsOfRendered(next, owners[1..], gaps[1..], trail, comment);
      assert next + RenderOwners(owners[1..], gaps[1..]) + (trail + comment) == line;
    }
  }

  lemma GapComesNext(owners: seq<string>, gaps: seq<string>, trail: string, comment: string)
    requires |gaps| == |owners| && (forall gap | gap in gaps :: gap != [] && AllSpaces(gap))
    requires AllSpaces(trail) && (comment != [] ==> trail != [])
    ensures var rest := RenderOwners(owners, gaps) + (trail + comment);
            rest == [] || IsSpace(rest[0])
  {
    if owners == [] {
    } else {
      assert gaps[0] in gaps;
    }
  }

  lemma {:induction false} TrimsReturns(line: string, n: nat)
    requires line == [] || line[|line| - 1] != '\r'
    ensures TrimRightCR(line + Returns(n)) == line
  {
    if n == 0 {
      assert line + Returns(0) == line;
    } else {
      TrimsReturns(line, n - 1);
      assert (line + Returns(n))[..|line| + n - 1] == line + Returns(n - 1);
    }
  }

  // A line whose pattern stands at these positions splits there.
  lemma SplitAt(raw: string, start: nat, end: nat)
    requires var line := TrimRightCR(raw);
             && start < end <= |line| && (forall x | 0 <= x < start :: IsSpace(line[x]))
             && !IsSpace(line[start]) && line[start] != '#'
             && !(start + 1 < |line| && line[start..start + 2] == "\\#") && PatternEnd(line, start) == Some(end)
    ensures var line := TrimRightCR(raw);
            SplitRule(raw) == Some(Split(line[start..end], Words(line, end)))
  {
    hide Words, PatternEnd, TrimRightCR, SkipSpaces;
    SkipsRun(TrimRightCR(raw), 0, start);
  }

  // Where the pattern stands in a line.
  lemma PatternStands(lead: string, pattern: string, rest: string)
    requires AllSpaces(lead) && pattern != [] && pattern[0] != '#' && !(|pattern| > 1 && pattern[..2] == "\\#")
    requires PatternEnd(pattern, 0) == Some(|pattern|) && (rest == [] || IsSpace(rest[0]))
    ensures var line, start, end := lead + pattern + rest, |lead|, |lead| + |pattern|;
            && (forall x | 0 <= x < start :: IsSpace(line[x])) && !IsSpace(line[start]) && line[start] != '#'
            && !(start + 1 < |line| && line[start..start + 2] == "\\#")
            && PatternEnd(line, start) == Some(end) && line[start..end] == pattern
  {
    hide IsSpace;
    var line, start, end := lead + pattern + rest, |lead|, |lead| + |pattern|;
    PatternIsOpaque(pattern);
    assert forall x | 0 <= x < start :: line[x] == lead[x];
    assert line[start] == pattern[0] && line[start..end] == pattern;
    assert end < |line| ==> line[end] == rest[0];
    PatternEndAt(line, start, pattern, 0);
    hide PatternEnd;
    assert |pattern| > 1 ==> pattern[..2] == line[start..start + 2];
  }

  /** A rule laid out with any white space, any comment and any carriage returns splits back into its pattern
      and owners. */
  lemma SplitRendered(split: Split, layout: Layout)
    requires Spellable(split) && layout.For(split)
    requires var line := RenderLine(split, layout); line[|line| - 1] != '\r'
    ensures SplitRule(RenderLine(split, layout) + Returns(layout.returns_)) == Some(split)
  {
    hide Words, PatternEnd, IsOwnerToken, TrimRightCR, AllSpaces, RenderOwners, SplitRule;
    var line := RenderLine(split, layout);
    var lead, pattern := layout.lead, split.pattern;
    var rest := RenderOwners(split.owners, layout.gaps) + (layout.trail + layout.comment);
    assert line == lead + pattern + rest;
    TrimsReturns(line, layout.returns_);
    GapComesNext(split.owners, layout.gaps, layout.trail, layout.comment);
    PatternStands(lead, pattern, rest);
    SplitAt(line + Returns(layout.returns_), |lead|, |lead| + |pattern|);
    WordsOfRendered(lead + pattern, split.owners, layout.gaps, layout.trail, layout.comment);
  }

  lemma PatternIsOpaque(pattern: string)
    requires pattern != [] && PatternEnd(pattern, 0) == Some(|pattern|)
    ensures !IsSpace(pattern[0])
    ensures pattern[0] == '\\' ==> |pattern| > 1
  {
  }

  /** Blank lines, comments and escaped comment markers carry no rule. */
  lemma NoRuleOnComment(lead: string, rest: string, n: nat)
    requires AllSpaces(lead) && (rest == [] || rest[0] == '#' || (|rest| > 1 && rest[..2] == "\\#"))
    requires lead + rest == [] || (lead + rest)[|lead + rest| - 1] != '\r'
    ensures SplitRule(lead + rest + Returns(n)) == None
  {
    hide Words, PatternEnd, TrimRightCR, SkipSpaces;
    var line := lead + rest;
    TrimsReturns(line, n);
    assert forall x | 0 <= x < |lead| :: line[x] == lead[x];
    assert rest != [] ==> line[|lead|] == rest[0];
    SkipsRun(line, 0, |lead|);
    if |rest| > 1 {
      assert line[|lead|..|lead| + 2] == rest[..2];
    }
  }

  // -------------------------------------------------------------- resolution

  // Line i (zero-based) carries a rule.
  predicate HasRule(lines: seq<string>, i: nat)
    requires i < |lines|
  {
    SplitRule(lines[i]).Some? && Supported(SplitRule(lines[i]).value.pattern)
  }

  // Line i carries a rule that accepts the path.
  predicate Owns(lines: seq<string>, i: nat, path: string)
    requires i < |lines|
  {
    HasRule(lines, i) && Accepts(SplitRule(lines[i]).value.pattern, path)
  }

  function RuleAt(lines: seq<string>, i: nat): Rule
    requires i < |lines| && HasRule(lines, i)
  {
    var split := SplitRule(lines[i]).value;
    CompileAgrees(split.pattern, []);
    Rule(split.pattern, i + 1, split.owners, Compile(split.pattern).value)
  }

  // Exactly the rules of the first n lines, in order.
  function RulesOf(lines: seq<string>, n: nat): seq<Rule>
    requires n <= |lines|
  {
    if n == 0 then []
    else if HasRule(lines, n - 1) then RulesOf(lines, n - 1) + [RuleAt(lines, n - 1)]
    else RulesOf(lines, n - 1)
  }

  method Parse(lines: seq<string>) returns (rules: seq<Rule>)
    ensures rules == RulesOf(lines, |lines|)
  {
    rules := [];
    for index := 0 to |lines|
      invariant rules == RulesOf(lines, index)
    {
      var split := SplitLine(lines[index]);
      if split.Some? {
        var matcher := CompilePattern(split.value.pattern);
        if matcher.Ok? {
          rules := rules + [Rule(split.value.pattern, index + 1, split.value.owners, matcher.value)];
        }
      }
    }
  }

  function TrimLeadingSlash(path: string): string {
    if path != [] && path[0] == '/' then path[1..] else path
  }

  function LastMatching(rules: seq<Rule>, path: string): Option<Rule> {
    if rules == [] then None
    else if Search(rules[|rules| - 1].matcher, path) then Some(rules[|rules| - 1])
    else LastMatching(rules[..|rules| - 1], path)
  }

  method Resolve(rules: seq<Rule>, rawPath: string) returns (found: Option<Rule>)
    ensures found == LastMatching(rules, TrimLeadingSlash(rawPath))
  {
    var path := TrimLeadingSlash(rawPath);
    found := None;
    for index := 0 to |rules|
      invariant found == LastMatching(rules[..index], path)
    {
      assert rules[..index + 1][..index] == rules[..index];
      if Search(rules[index].matcher, path) {
        found := Some(rules[index]);
      }
    }
    assert rules[..|rules|] == rules;
  }

  // The rule found is that of the last of the first n lines that owns the path.
  predicate IsLastOwner(lines: seq<string>, n: nat, path: string, found: Option<Rule>)
    requires n <= |lines|
  {
    match found
    case None => forall i | 0 <= i < n :: !Owns(lines, i, path)
    case Some(rule) =>
      && 1 <= rule.line <= n && Owns(lines, rule.line - 1, path)
      && rule.owners == SplitRule(lines[rule.line - 1]).value.owners
      && forall i | rule.line <= i < n :: !Owns(lines, i, path)
  }

  // A line's rule searches for exactly the paths that the line owns.
  lemma RuleOwnsExactly(lines: seq<string>, i: nat, path: string)
    requires i < |lines|
    ensures Owns(lines, i, path) ==> HasRule(lines, i)
    ensures HasRule(lines, i) ==>
              var rule := RuleAt(lines, i);
              && rule.line == i + 1 && rule.owners == SplitRule(lines[i]).value.owners
              && (Search(rule.matcher, path) <==> Owns(lines, i, path))
  {
    hide Search, Accepts, Supported, Compile, SplitRule;
    if HasRule(lines, i) { CompileAgrees(SplitRule(lines[i]).value.pattern, path); }
  }

  lemma {:induction false} LastRuleWins(lines: seq<string>, n: nat, path: string)
    requires n <= |lines|
    ensures IsLastOwner(lines, n, path, LastMatching(RulesOf(lines, n), path))
  {
    hide Search, SplitRule, HasRule, Owns, RuleAt;
    if n == 0 {
    } else {
      LastRuleWins(lines, n - 1, path);
      RuleOwnsExactly(lines, n - 1, path);
      if HasRule(lines, n - 1) {
        var before := RulesOf(lines, n - 1);
        assert (before + [RuleAt(lines, n - 1)])[..|before|] == before;
      }
    }
  }

  /** Parsing a file and resolving a path yields the owners of the last line whose pattern accepts it. */
  method OwnersOf(lines: seq<string>, rawPath: string) returns (found: Option<Rule>)
    ensures IsLastOwner(lines, |lines|, TrimLeadingSlash(rawPath), found)
  {
    var rules := Parse(lines);
    found := Resolve(rules, rawPath);
    LastRuleWins(lines, |lines|, TrimLeadingSlash(rawPath));
  }
}
