/** The drift verdict, field by field. */
module DriftAnswers {
  import opened Results
  import opened Json
  import opened Semantic
  import opened Drift

  // ----------------------------------------------------------------- identity

  /** An element has an identity exactly when it is an object with a node id, a numeric or textual id, or a path. */
  lemma IdentifiedExactly(v: Json)
    ensures Identified(v) <==>
            && v.Obj?
            && (|| Text(v.fields, "node_id") != "" || Text(v.fields, "id") != "" || Text(v.fields, "path") != ""
                || ("id" in v.fields && v.fields["id"].Num?))
  {
    hide FormatNumber;
  }

  // What identifies an element: the first of these that it has.
  datatype Ident = Node(id: string) | Number(rounded: int) | Label(id: string) | Owner(path: string, token: string) | File(path: string) | Nothing

  function IdentOf(item: map<string, Json>): Ident {
    if "node_id" in item && item["node_id"].Str? && item["node_id"].text != "" then Node(item["node_id"].text)
    else if "id" in item && item["id"].Num? then Number(Round(item["id"].number))
    else if "id" in item && item["id"].Str? && item["id"].text != "" then Label(item["id"].text)
    else if "path" in item && item["path"].Str? && item["path"].text != "" then
      if "owner_token" in item && item["owner_token"].Str? && item["owner_token"].text != ""
      then Owner(item["path"].text, item["owner_token"].text) else File(item["path"].text)
    else Nothing
  }

  /** Rounding is to the nearest integer, and to the even one between two. */
  lemma RoundIsNearest(x: real)
    ensures -0.5 <= Round(x) as real - x <= 0.5
    ensures Round(x) as real - x in {-0.5, 0.5} ==> Round(x) % 2 == 0
  {
  }

  // The number a string of decimal digits stands for.
  function Value(s: string): int {
    if s == [] then 0 else Value(s[..|s| - 1]) * 10 + (s[|s| - 1] as int - '0' as int)
  }

  lemma {:induction false} ValueOfDigits(n: nat)
    ensures Value(Digits(n)) == n && Digits(n) != [] && Digits(n)[0] != '-'
  {
    if n < 10 {
      assert Digits(n)[..0] == [];
    } else {
      ValueOfDigits(n / 10);
      assert Digits(n)[..|Digits(n)| - 1] == Digits(n / 10);
    }
  }

  lemma {:induction false} ZeroInFront(s: string)
    ensures Value("0" + s) == Value(s)
  {
    if s == [] {
      assert "0" + s == "0" && "0"[..0] == [];
    } else {
      ZeroInFront(s[..|s| - 1]);
      assert ("0" + s)[..|s|] == "0" + s[..|s| - 1];
    }
  }

  lemma {:induction false} ValueOfPad(width: nat, s: string)
    requires s != [] && s[0] != '-'
    ensures Value(Pad(width, s)) == Value(s) && Pad(width, s) != [] && Pad(width, s)[0] != '-'
    decreases width - |s|
  {
    if |s| < width {
      ZeroInFront(s);
      ValueOfPad(width, "0" + s);
    }
  }

  lemma NumbersAreTold(x: real, y: real)
    ensures FormatNumber(x) == FormatNumber(y) <==> Round(x) == Round(y)
  {
    hide Round, Value, Pad, Digits;
    FormatIsNumber(x);
    FormatIsNumber(y);
  }

  lemma FormatIsNumber(x: real)
    ensures var s := FormatNumber(x);
            s != [] && Round(x) == if s[0] == '-' then -Value(s[1..]) else Value(s)
    ensures FormatNumber(x)[0] == '-' <==> Round(x) < 0
  {
    hide Round;
    var n := Round(x);
    if n < 0 {
      ValueOfDigits(-n);
      ValueOfPad(19, Digits(-n));
      assert ("-" + Pad(19, Digits(-n)))[1..] == Pad(19, Digits(-n));
    } else {
      ValueOfDigits(n);
      ValueOfPad(20, Digits(n));
    }
  }

  function RenderIdent(ident: Ident, number: string): string {
    match ident
    case Node(id) => "node:" + id
    case Number(_) => "number:" + number
    case Label(id) => "string:" + id
    case Owner(path, token) => "owner:" + path + "\0" + token
    case File(path) => "path:" + path
    case Nothing => ""
  }

  lemma IdentityIsRendered(item: map<string, Json>)
    ensures Identity(item) == RenderIdent(IdentOf(item), if "id" in item && item["id"].Num? then FormatNumber(item["id"].number) else "")
  {
    hide FormatNumber, Round;
  }

  // Texts with different first letters, or different second parts after a common first, differ.
  lemma CommonFront(front: string, a: string, b: string)
    ensures front + a == front + b <==> a == b
  {
    if front + a == front + b {
      assert (front + a)[|front|..] == a && (front + b)[|front|..] == b;
    }
  }

  lemma SplitAtNul(p: string, t: string, q: string, u: string)
    requires '\0' !in p && '\0' !in q && p + "\0" + t == q + "\0" + u
    ensures p == q && t == u
  {
    var s := p + "\0" + t;
    assert s[|p|] == '\0' && s[|q|] == '\0';
    assert forall i | 0 <= i < |p| :: s[i] == p[i];
    assert forall i | 0 <= i < |q| :: s[i] == q[i];
    assert |p| == |q|;
    assert s[..|p|] == p && s[..|q|] == q && s[|p| + 1..] == t && s[|q| + 1..] == u;
  }

  // The tags tell the kinds of identity apart.
  lemma TagsDiffer(a: string, b: string)
    ensures "node:" + a != "number:" + b && "node:" + a != "string:" + b && "node:" + a != "owner:" + b && "node:" + a != "path:" + b
    ensures "number:" + a != "string:" + b && "number:" + a != "owner:" + b && "number:" + a != "path:" + b
    ensures "string:" + a != "owner:" + b && "string:" + a != "path:" + b && "owner:" + a != "path:" + b
  {
    assert ("node:" + a)[0] == 'n' && ("number:" + b)[0] == 'n' && ("number:" + a)[0] == 'n';
    assert ("node:" + a)[1] == 'o' && ("number:" + b)[1] == 'u';
    assert ("string:" + a)[0] == 's' && ("string:" + b)[0] == 's';
    assert ("owner:" + a)[0] == 'o' && ("owner:" + b)[0] == 'o' && ("path:" + b)[0] == 'p';
  }

  // A path holds no NUL.
  predicate PlainPath(item: map<string, Json>) {
    IdentOf(item).Owner? ==> '\0' !in IdentOf(item).path
  }

  lemma OwnerIsOne(path: string, token: string)
    ensures "owner:" + path + "\0" + token == "owner:" + (path + "\0" + token)
  {
  }

  lemma RenderingTellsApart(x: Ident, m: string, y: Ident, n: string)
    requires x.Owner? ==> '\0' !in x.path
    requires y.Owner? ==> '\0' !in y.path
    requires RenderIdent(x, m) == RenderIdent(y, n)
    ensures if x.Number? then y.Number? && m == n else x == y
  {
    var a := match x case Node(id) => id case Number(_) => m case Label(id) => id
                     case Owner(path, token) => path + "\0" + token case File(path) => path case Nothing => "";
    var b := match y case Node(id) => id case Number(_) => n case Label(id) => id
                     case Owner(path, token) => path + "\0" + token case File(path) => path case Nothing => "";
    if x.Owner? { OwnerIsOne(x.path, x.token); }
    if y.Owner? { OwnerIsOne(y.path, y.token); }
    TagsDiffer(a, b);
    TagsDiffer(b, a);
    CommonFront("node:", a, b);
    CommonFront("number:", a, b);
    CommonFront("string:", a, b);
    CommonFront("owner:", a, b);
    CommonFront("path:", a, b);
    if x.Owner? && y.Owner? { SplitAtNul(x.path, x.token, y.path, y.token); }
  }

  /** Two elements have one identity exactly when the first identifying field they have is of one kind and says
      the same; numbers are told apart to the nearest integer. */
  lemma SameIdentityExactly(a: map<string, Json>, b: map<string, Json>)
    requires PlainPath(a) && PlainPath(b)
    ensures Identity(a) == Identity(b) <==> IdentOf(a) == IdentOf(b)
  {
    IdentityIsRendered(a);
    IdentityIsRendered(b);
    if IdentOf(a).Number? && IdentOf(b).Number? { NumbersAreTold(a["id"].number, b["id"].number); }
    hide Identity, FormatNumber, Round;
    var m := if "id" in a && a["id"].Num? then FormatNumber(a["id"].number) else "";
    var n := if "id" in b && b["id"].Num? then FormatNumber(b["id"].number) else "";
    if RenderIdent(IdentOf(a), m) == RenderIdent(IdentOf(b), n) {
      RenderingTellsApart(IdentOf(a), m, IdentOf(b), n);
      if IdentOf(b).Number? { RenderingTellsApart(IdentOf(b), n, IdentOf(a), m); }
    }
  }

  /** A list with an element without identity keeps its order. */
  lemma UnidentifiedKeepsOrder(items: seq<Json>, x: Json)
    requires x in items && !Identified(x)
    ensures var normal := Normalize(Arr(items));
            normal.Arr? && |normal.items| == |items| && forall i | 0 <= i < |items| :: normal.items[i] == Normalize(items[i])
  {
    var k :| 0 <= k < |items| && items[k] == x;
    NormalizeKeepsKey(x);
    assert NormalizeAll(items)[k] == Normalize(x);
    hide Identified, KeyOf, Sort;
  }

  // ---------------------------------------------------------------- spelling

  // What the table makes of a value, if anything.
  function Tabled(v: Json, table: string -> Option<string>): Option<string> {
    if v.Str? then table(Lower(v.text)) else None
  }

  function Spelled(v: Json, table: string -> Option<string>): Json {
    if Tabled(v, table).Some? then Str(Tabled(v, table).value) else v
  }

  // Both are in the table and in one class of it, or neither is and they are the same.
  predicate SameClass(v: Json, w: Json, table: string -> Option<string>) {
    Tabled(v, table) == Tabled(w, table) && (Tabled(v, table).None? ==> v == w)
  }

  ghost predicate Stable(table: string -> Option<string>) {
    forall lower :: table(lower).Some? ==> table(Lower(table(lower).value)) == table(lower)
  }

  lemma SpellingExactly(v: Json, w: Json, table: string -> Option<string>)
    requires Stable(table)
    ensures Spelled(v, table) == Spelled(w, table) <==> SameClass(v, w, table)
    ensures Spelled(v, table) == Null <==> v == Null
  {
    hide Lower;
    if v.Str? { assert table(Lower(v.text)).Some? ==> table(Lower(table(Lower(v.text)).value)) == table(Lower(v.text)); }
    if w.Str? { assert table(Lower(w.text)).Some? ==> table(Lower(table(Lower(w.text)).value)) == table(Lower(w.text)); }
  }

  lemma TablesAreStable()
    ensures Stable(State) && Stable(Mergeability) && Stable(ReviewDecision)
  {
    hide Lower, State, Mergeability, ReviewDecision;
    forall lower
      ensures State(lower).Some? ==> State(Lower(State(lower).value)) == State(lower)
      ensures Mergeability(lower).Some? ==> Mergeability(Lower(Mergeability(lower).value)) == Mergeability(lower)
      ensures ReviewDecision(lower).Some? ==> ReviewDecision(Lower(ReviewDecision(lower).value)) == ReviewDecision(lower)
    {
      StatesAreStable(lower);
      MergeabilitiesAreStable(lower);
      DecisionsAreStable(lower);
    }
  }

  // The spellings that say the same about a pull request.
  const MERGE_CLASSES: set<set<string>> :=
    {{"unknown"}, {"dirty", "conflicting"}, {"clean", "blocked", "unstable", "mergeable"}}

  /** Two spellings are tabled alike exactly when they are one state, one merge class or one decision. */
  lemma ClassesExactly(a: string, b: string)
    ensures State(a).Some? && State(a) == State(b) <==> a == b && a in {"open", "closed", "merged"}
    ensures Mergeability(a).Some? && Mergeability(a) == Mergeability(b) <==>
            exists class_ <- MERGE_CLASSES :: a in class_ && b in class_
    ensures ReviewDecision(a).Some? && ReviewDecision(a) == ReviewDecision(b) <==>
            a == b && a in {"", "approved", "review_required", "changes_requested"}
  {
    MergeClassesExactly(a, b);
    DecisionClassesExactly(a, b);
  }

  lemma MergeClassesExactly(a: string, b: string)
    ensures Mergeability(a).Some? && Mergeability(a) == Mergeability(b) <==>
            exists class_ <- MERGE_CLASSES :: a in class_ && b in class_
  {
    var unknown, conflicting, mergeable := {"unknown"}, {"dirty", "conflicting"}, {"clean", "blocked", "unstable", "mergeable"};
    assert unknown in MERGE_CLASSES && conflicting in MERGE_CLASSES && mergeable in MERGE_CLASSES;
    Distinguish();
  }

  lemma DecisionClassesExactly(a: string, b: string)
    ensures ReviewDecision(a).Some? && ReviewDecision(a) == ReviewDecision(b) <==>
            a == b && a in {"", "approved", "review_required", "changes_requested"}
  {
    assert "APPROVED"[0] != "REVIEW_REQUIRED"[0] && "APPROVED"[0] != "CHANGES_REQUESTED"[0];
    assert "REVIEW_REQUIRED"[0] != "CHANGES_REQUESTED"[0];
  }

  lemma Distinguish()
    ensures "UNKNOWN" != "CONFLICTING" && "UNKNOWN" != "MERGEABLE" && "CONFLICTING" != "MERGEABLE"
  {
    assert "UNKNOWN"[0] != "CONFLICTING"[0] && "UNKNOWN"[0] != "MERGEABLE"[0] && "CONFLICTING"[0] != "MERGEABLE"[0];
  }

  // ------------------------------------------------------------------ the verdict

  // The state a snapshot asserts: merged when the merged bit is set, else its own, respelled.
  function StateOf(fields: map<string, Json>): Option<Json> {
    if "merged" in fields && fields["merged"] == Bool(true) then Some(Str("merged"))
    else if "state" in fields then Some(Spelled(fields["state"], State))
    else None
  }

  function At(fields: map<string, Json>, key: string): Option<Json> {
    if key in fields then Some(fields[key]) else None
  }

  lemma RespellAt(fields: map<string, Json>, key: string, table: string -> Option<string>, other: string)
    ensures At(Respell(fields, key, table), other) ==
            if other == key && key in fields then Some(Spelled(fields[key], table)) else At(fields, other)
  {
    hide Lower;
  }

  /** What canonicalisation makes of each field. */
  lemma CanonicalAt(fields: map<string, Json>, key: string)
    ensures At(CanonicalSnapshot(fields), key) ==
            if key == "merged" then None
            else if key == "state" then StateOf(fields)
            else if key == "mergeable_state" && key in fields then Some(Spelled(fields[key], Mergeability))
            else if key == "review_decision" && key in fields then Some(Spelled(fields[key], ReviewDecision))
            else At(fields, key)
  {
    hide Respell, Spelled;
    var merged := "merged" in fields && fields["merged"] == Bool(true);
    RespellAt(fields, "state", State, key);
    var stated := if merged then fields["state" := Str("merged")] else Respell(fields, "state", State);
    var bare := stated - {"merged"};
    RespellAt(bare, "mergeable_state", Mergeability, key);
    var classed := Respell(bare, "mergeable_state", Mergeability);
    RespellAt(classed, "review_decision", ReviewDecision, key);
    RespellAt(bare, "mergeable_state", Mergeability, "review_decision");
    RespellAt(fields, "state", State, "review_decision");
    RespellAt(fields, "state", State, "mergeable_state");
    Keys();
  }

  lemma Keys()
    ensures "merged" != "state" && "merged" != "mergeable_state" && "merged" != "review_decision"
    ensures "state" != "mergeable_state" && "state" != "review_decision" && "mergeable_state" != "review_decision"
  {
    assert |"merged"| == 6 && |"state"| == 5 && |"mergeable_state"| == 15 && |"review_decision"| == 15;
    assert "mergeable_state"[0] != "review_decision"[0];
  }

  // A comparison dimension that one side did not observe is not compared.
  predicate AgreeIfObserved(a: map<string, Json>, b: map<string, Json>, key: string, table: string -> Option<string>) {
    Observed(a, key) && Observed(b, key) ==> SameClass(a[key], b[key], table)
  }

  // Two pull-request snapshots say the same.
  ghost predicate Agree(a: map<string, Json>, b: map<string, Json>) {
    && StateOf(a) == StateOf(b)
    && AgreeIfObserved(a, b, "mergeable_state", Mergeability)
    && AgreeIfObserved(a, b, "review_decision", ReviewDecision)
    && forall key | key !in {"merged", "state", "mergeable_state", "review_decision"} :: At(a, key) == At(b, key)
  }

  // The pair, at each field.
  lemma PairAt(a: map<string, Json>, b: map<string, Json>, key: string)
    ensures var (c, u) := CanonicalPair(a, b);
            var (ca, cb) := (CanonicalSnapshot(a), CanonicalSnapshot(b));
            var dropped := key in {"mergeable_state", "review_decision"} && !(Observed(ca, key) && Observed(cb, key));
            && At(c, key) == (if dropped then None else At(ca, key))
            && At(u, key) == (if dropped then None else At(cb, key))
  {
    hide CanonicalSnapshot;
    Keys();
  }

  lemma ObservedIsKept(fields: map<string, Json>, key: string)
    requires key in {"mergeable_state", "review_decision"}
    ensures Observed(CanonicalSnapshot(fields), key) <==> Observed(fields, key)
  {
    CanonicalAt(fields, key);
    TablesAreStable();
    hide CanonicalSnapshot, Stable, Spelled;
    Keys();
    if key in fields {
      SpellingExactly(fields[key], Null, Mergeability);
      SpellingExactly(fields[key], Null, ReviewDecision);
    }
  }

  // The canonical pair agrees at a field exactly when the snapshots do.
  lemma FieldAgreesExactly(a: map<string, Json>, b: map<string, Json>, key: string)
    ensures var (c, u) := CanonicalPair(a, b);
            At(c, key) == At(u, key) <==>
            if key == "merged" then true
            else if key == "state" then StateOf(a) == StateOf(b)
            else if key == "mergeable_state" then AgreeIfObserved(a, b, key, Mergeability)
            else if key == "review_decision" then AgreeIfObserved(a, b, key, ReviewDecision)
            else At(a, key) == At(b, key)
  {
    hide CanonicalPair, CanonicalSnapshot, Stable, Spelled, SameClass, StateOf;
    Keys();
    PairAt(a, b, key);
    CanonicalAt(a, key);
    CanonicalAt(b, key);
    if key in {"mergeable_state", "review_decision"} {
      ObservedIsKept(a, key);
      ObservedIsKept(b, key);
      TablesAreStable();
      if key in a && key in b {
        SpellingExactly(a[key], b[key], Mergeability);
        SpellingExactly(a[key], b[key], ReviewDecision);
      }
    }
  }

  lemma SameFieldsSameMap(a: map<string, Json>, b: map<string, Json>)
    ensures a == b <==> forall key :: At(a, key) == At(b, key)
  {
    if forall key :: At(a, key) == At(b, key) {
      forall key
        ensures key in a <==> key in b
        ensures key in a ==> a[key] == b[key]
      {
        assert At(a, key) == At(b, key);
      }
      assert a.Keys == b.Keys;
    }
  }

  lemma AgreeExactly(a: map<string, Json>, b: map<string, Json>)
    ensures CanonicalPair(a, b).0 == CanonicalPair(a, b).1 <==> Agree(a, b)
  {
    hide CanonicalPair, StateOf, AgreeIfObserved, At;
    var (c, u) := CanonicalPair(a, b);
    SameFieldsSameMap(c, u);
    Keys();
    if c == u {
      FieldAgreesExactly(a, b, "state");
      FieldAgreesExactly(a, b, "mergeable_state");
      FieldAgreesExactly(a, b, "review_decision");
      forall key | key !in {"merged", "state", "mergeable_state", "review_decision"}
        ensures At(a, key) == At(b, key)
      {
        FieldAgreesExactly(a, b, key);
      }
    }
    if Agree(a, b) {
      forall key
        ensures At(c, key) == At(u, key)
      {
        FieldAgreesExactly(a, b, key);
      }
    }
  }

  /** Two pull-request snapshots are judged equal if and only if they assert the same state, the same merge
      class and decision where both observed one, and the same in every other field but the merged bit; any other
      two snapshots if and only if their normal forms are equal. */
  lemma VerdictExactly(pullRequest: bool, cache: Json, upstream: Json)
    ensures var c, u := Normalize(cache), Normalize(upstream);
            SemanticDiff(pullRequest, cache, upstream).0 <==>
            if pullRequest && c.Obj? && u.Obj? then Agree(c.fields, u.fields) else c == u
  {
    hide Normalize, CanonicalPair, DiffValue, Agree;
    var c, u := Normalize(cache), Normalize(upstream);
    if pullRequest && c.Obj? && u.Obj? {
      AgreeExactly(c.fields, u.fields);
    }
  }

  /** A closed pull request whose merged bit is set is a merged one; with the bit unset or missing it is not. */
  lemma MergedBitDecides(fields: map<string, Json>)
    ensures var mirrored := fields["state" := Str("merged")] - {"merged"};
            var closed := fields["state" := Str("closed")];
            && Agree(closed["merged" := Bool(true)], mirrored)
            && !Agree(closed["merged" := Bool(false)], mirrored) && !Agree(closed - {"merged"}, mirrored)
  {
    Keys();
    var mirrored := fields["state" := Str("merged")] - {"merged"};
    var closed := fields["state" := Str("closed")];
    assert Lower("closed") == "closed" && Lower("merged") == "merged";
    assert "closed"[0] != "merged"[0];
    assert StateOf(mirrored) == StateOf(closed["merged" := Bool(true)]) == Some(Str("merged"));
    assert StateOf(closed["merged" := Bool(false)]) == StateOf(closed - {"merged"}) == Some(Str("closed"));
    var bit := closed["merged" := Bool(true)];
    assert forall key | key !in {"merged", "state"} :: At(bit, key) == At(mirrored, key);
    hide Lower;
  }
}
