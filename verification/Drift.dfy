/**
 The drift verdict: normalize both snapshots, canonicalize pull requests,
 compare, and diff what differs.
 */
module Drift {
  import opened Results
  import opened Json
  import opened Semantic

  // ------------------------------------------------------- pull requests

  // Lower-casing, as far as it can reach an ASCII letter: the Kelvin sign and
  // the dotted capital I are the only non-ASCII characters that do.
  function LowerChar(c: char): char {
    if 'A' <= c <= 'Z' then (c as int + 32) as char
    else if c == '\U{212A}' then 'k'
    else if c == '\U{130}' then 'i'
    else c
  }

  function Lower(s: string): string {
    seq(|s|, i requires 0 <= i < |s| => LowerChar(s[i]))
  }

  function State(lower: string): Option<string> {
    if lower in {"open", "closed", "merged"} then Some(lower) else None
  }

  function Mergeability(lower: string): Option<string> {
    if lower == "unknown" then Some("UNKNOWN")
    else if lower in {"dirty", "conflicting"} then Some("CONFLICTING")
    else if lower in {"clean", "blocked", "unstable", "mergeable"} then Some("MERGEABLE")
    else None
  }

  function ReviewDecision(lower: string): Option<string> {
    if lower == "" then Some("")
    else if lower == "approved" then Some("APPROVED")
    else if lower == "review_required" then Some("REVIEW_REQUIRED")
    else if lower == "changes_requested" then Some("CHANGES_REQUESTED")
    else None
  }

  // A string field found in the table takes the table's spelling.
  function Respell(fields: map<string, Json>, key: string, table: string -> Option<string>): map<string, Json> {
    if key in fields && fields[key].Str? && table(Lower(fields[key].text)).Some? then
      fields[key := Str(table(Lower(fields[key].text)).value)]
    else fields
  }

  function CanonicalSnapshot(snapshot: map<string, Json>): map<string, Json> {
    var merged := "merged" in snapshot && snapshot["merged"] == Bool(true);
    var stated := if merged then snapshot["state" := Str("merged")] else Respell(snapshot, "state", State);
    Respell(Respell(stated - {"merged"}, "mergeable_state", Mergeability), "review_decision", ReviewDecision)
  }

  predicate Observed(snapshot: map<string, Json>, key: string) {
    key in snapshot && snapshot[key] != Null
  }

  function DropUnobserved(cached: map<string, Json>, upstream: map<string, Json>, key: string):
    (map<string, Json>, map<string, Json>)
  {
    if Observed(cached, key) && Observed(upstream, key) then (cached, upstream) else (cached - {key}, upstream - {key})
  }

  function CanonicalPair(cached: map<string, Json>, upstream: map<string, Json>): (map<string, Json>, map<string, Json>) {
    var (c, u) := DropUnobserved(CanonicalSnapshot(cached), CanonicalSnapshot(upstream), "mergeable_state");
    DropUnobserved(c, u, "review_decision")
  }

  // ------------------------------------------------------------- verdict

  // The two values that are compared.
  function Comparable(pullRequest: bool, cache: Json, upstream: Json): (Json, Json) {
    var c, u := Normalize(cache), Normalize(upstream);
    if pullRequest && c.Obj? && u.Obj? then
      var (cf, uf) := CanonicalPair(c.fields, u.fields);
      (Obj(cf), Obj(uf))
    else (c, u)
  }

  function Leaf(cached: Json, upstream: Json): Json {
    Obj(map["cache" := cached, "upstream" := upstream])
  }

  // Keys whose values differ, a missing key counting as null.
  function Differing(c: map<string, Json>, u: map<string, Json>): set<string> {
    set key | key in c.Keys + u.Keys && Lookup(c, key) != Lookup(u, key)
  }

  function DiffValue(cached: Json, upstream: Json): (d: Json)
    ensures d.Obj?
    decreases cached
  {
    if !cached.Obj? || !upstream.Obj? then Leaf(cached, upstream) else
    var c, u := cached.fields, upstream.fields;
    Obj(map key | key in Differing(c, u) ::
      if key in c && key in u then DiffValue(c[key], u[key]) else Leaf(Lookup(c, key), Lookup(u, key)))
  }

  function SemanticDiff(pullRequest: bool, cache: Json, upstream: Json): (bool, Json) {
    var (c, u) := Comparable(pullRequest, cache, upstream);
    if c == u then (true, Obj(map[])) else (false, DiffValue(c, u))
  }

  // -------------------------------------------------- properties: verdict

  lemma PairIsSymmetric(a: map<string, Json>, b: map<string, Json>)
    ensures CanonicalPair(a, b) == (CanonicalPair(b, a).1, CanonicalPair(b, a).0)
  {
  }

  /** The verdict does not depend on which side is called the cache. */
  lemma VerdictIsSymmetric(pullRequest: bool, a: Json, b: Json)
    ensures SemanticDiff(pullRequest, a, b).0 == SemanticDiff(pullRequest, b, a).0
  {
    hide Normalize, CanonicalPair, DiffValue;
    var c, u := Normalize(a), Normalize(b);
    if c.Obj? && u.Obj? {
      PairIsSymmetric(c.fields, u.fields);
    }
  }

  /** Neither verdict nor diff sees the order of identified lists with distinct keys, at any depth on either side. */
  lemma DiffIgnoresOrder(pullRequest: bool, a: Json, a': Json, b: Json, b': Json)
    requires Reordered(a, a') && Reordered(b, b')
    ensures SemanticDiff(pullRequest, a, b) == SemanticDiff(pullRequest, a', b')
  {
    hide Normalize, CanonicalPair, DiffValue, Reordered;
    NormalizeIgnoresOrder(a, a');
    NormalizeIgnoresOrder(b, b');
  }

  // ------------------------------------------- properties: canonical forms

  // Every spelling a table produces is one it maps to itself.
  lemma StatesAreStable(lower: string)
    ensures State(lower).Some? ==> State(Lower(State(lower).value)) == State(lower)
  {
    assert Lower("open") == "open" && Lower("closed") == "closed" && Lower("merged") == "merged";
  }

  lemma MergeabilitiesAreStable(lower: string)
    ensures Mergeability(lower).Some? ==> Mergeability(Lower(Mergeability(lower).value)) == Mergeability(lower)
  {
    assert Lower("UNKNOWN") == "unknown" && Lower("CONFLICTING") == "conflicting" && Lower("MERGEABLE") == "mergeable";
  }

  lemma DecisionsAreStable(lower: string)
    ensures ReviewDecision(lower).Some? ==>
              ReviewDecision(Lower(ReviewDecision(lower).value)) == ReviewDecision(lower)
  {
    assert Lower("") == "" && Lower("APPROVED") == "approved";
    assert Lower("REVIEW_REQUIRED") == "review_required" && Lower("CHANGES_REQUESTED") == "changes_requested";
  }

  // A field already spelled as its table spells it.
  predicate Settled(fields: map<string, Json>, key: string, table: string -> Option<string>) {
    Respell(fields, key, table) == fields
  }

  lemma RespellSettles(fields: map<string, Json>, key: string, table: string -> Option<string>)
    requires forall lower :: table(lower).Some? ==> table(Lower(table(lower).value)) == table(lower)
    ensures Settled(Respell(fields, key, table), key, table)
  {
  }

  lemma RespellElsewhere(fields: map<string, Json>, key: string, table: string -> Option<string>,
                         other: string, otherTable: string -> Option<string>)
    requires key != other && Settled(fields, other, otherTable)
    ensures Settled(Respell(fields, key, table), other, otherTable)
  {
  }

  lemma SnapshotIsSettled(snapshot: map<string, Json>)
    ensures var canonical := CanonicalSnapshot(snapshot);
            && "merged" !in canonical && Settled(canonical, "state", State)
            && Settled(canonical, "mergeable_state", Mergeability)
            && Settled(canonical, "review_decision", ReviewDecision)
  {
    hide Lower, State, Mergeability, ReviewDecision;
    forall lower
      ensures State(lower).Some? ==> State(Lower(State(lower).value)) == State(lower)
      ensures Mergeability(lower).Some? ==> Mergeability(Lower(Mergeability(lower).value)) == Mergeability(lower)
      ensures ReviewDecision(lower).Some? ==>
                ReviewDecision(Lower(ReviewDecision(lower).value)) == ReviewDecision(lower)
    {
      StatesAreStable(lower);
      MergeabilitiesAreStable(lower);
      DecisionsAreStable(lower);
    }
    var merged := "merged" in snapshot && snapshot["merged"] == Bool(true);
    var stated := (if merged then snapshot["state" := Str("merged")] else Respell(snapshot, "state", State)) - {"merged"};
    assert Settled(stated, "state", State) by {
      MergedIsAState();
      RespellSettles(snapshot, "state", State);
    }
    var respelled := Respell(stated, "mergeable_state", Mergeability);
    RespellSettles(stated, "mergeable_state", Mergeability);
    RespellElsewhere(stated, "mergeable_state", Mergeability, "state", State);
    RespellSettles(respelled, "review_decision", ReviewDecision);
    RespellElsewhere(respelled, "review_decision", ReviewDecision, "state", State);
    RespellElsewhere(respelled, "review_decision", ReviewDecision, "mergeable_state", Mergeability);
  }

  lemma MergedIsAState()
    ensures State(Lower("merged")) == Some("merged")
  {
    assert Lower("merged") == "merged";
  }

  lemma SettledIsCanonical(canonical: map<string, Json>)
    requires "merged" !in canonical && Settled(canonical, "state", State)
    requires Settled(canonical, "mergeable_state", Mergeability)
    requires Settled(canonical, "review_decision", ReviewDecision)
    ensures CanonicalSnapshot(canonical) == canonical
  {
  }

  lemma RemovalKeepsSettled(fields: map<string, Json>, removed: string, key: string, table: string -> Option<string>)
    requires Settled(fields, key, table)
    ensures Settled(fields - {removed}, key, table)
  {
    hide Lower;
  }

  // Canonical fields stay canonical when one is left out of the comparison.
  lemma RemovalKeepsCanonical(canonical: map<string, Json>, removed: string)
    requires CanonicalSnapshot(canonical) == canonical
    ensures CanonicalSnapshot(canonical - {removed}) == canonical - {removed}
  {
    hide Lower, State, Mergeability, ReviewDecision, Respell;
    SnapshotIsSettled(canonical);
    RemovalKeepsSettled(canonical, removed, "state", State);
    RemovalKeepsSettled(canonical, removed, "mergeable_state", Mergeability);
    RemovalKeepsSettled(canonical, removed, "review_decision", ReviewDecision);
    SettledIsCanonical(canonical - {removed});
  }

  lemma DropIsIdempotent(c: map<string, Json>, u: map<string, Json>, first: string, second: string)
    ensures var (c1, u1) := DropUnobserved(c, u, first);
            var (c2, u2) := DropUnobserved(c1, u1, second);
            var (c3, u3) := DropUnobserved(c2, u2, first);
            DropUnobserved(c3, u3, second) == (c2, u2)
  {
    var (c1, u1) := DropUnobserved(c, u, first);
    var (c2, u2) := DropUnobserved(c1, u1, second);
    assert !(Observed(c2, first) && Observed(u2, first)) ==> c2 - {first} == c2 && u2 - {first} == u2;
    assert !(Observed(c2, second) && Observed(u2, second)) ==> c2 - {second} == c2 && u2 - {second} == u2;
  }

  /** Canonicalizing a pull request twice changes nothing, alone or in a pair. */
  lemma CanonicalIsIdempotent(a: map<string, Json>, b: map<string, Json>)
    ensures CanonicalSnapshot(CanonicalSnapshot(a)) == CanonicalSnapshot(a)
    ensures CanonicalPair(CanonicalPair(a, b).0, CanonicalPair(a, b).1) == CanonicalPair(a, b)
  {
    hide Lower, CanonicalSnapshot, Observed, Settled;
    var ca, cb := CanonicalSnapshot(a), CanonicalSnapshot(b);
    SnapshotIsSettled(a);
    SnapshotIsSettled(b);
    SettledIsCanonical(ca);
    SettledIsCanonical(cb);
    var (x, y) := DropUnobserved(ca, cb, "mergeable_state");
    RemovalKeepsCanonical(ca, "mergeable_state");
    RemovalKeepsCanonical(cb, "mergeable_state");
    RemovalKeepsCanonical(x, "review_decision");
    RemovalKeepsCanonical(y, "review_decision");
    DropIsIdempotent(ca, cb, "mergeable_state", "review_decision");
  }

  // ------------------------------------------------- properties: the diff

  // A diff between objects is a leaf exactly when the entry of the wanted side
  // is no object: entries of an inner diff always are.
  predicate IsLeaf(side: string, from: Json, diff: map<string, Json>) {
    !from.Obj? || (side in diff && !diff[side].Obj?)
  }

  // Follows a diff from one side towards the other.
  function Patch(side: string, from: Json, diff: Json): Json
    decreases from
  {
    if !diff.Obj? then from
    else if IsLeaf(side, from, diff.fields) then Lookup(diff.fields, side)
    else
      var f, d := from.fields, diff.fields;
      Obj(map key | key in f.Keys + d.Keys ::
        if key !in d then f[key]
        else if key in f then Patch(side, f[key], d[key])
        else if d[key].Obj? then Lookup(d[key].fields, side)
        else Null)
  }

  // Equal when a missing key reads as null.
  predicate SameReading(v: Json, w: Json)
    decreases v
  {
    if v.Obj? && w.Obj? then
      forall key | key in v.fields.Keys + w.fields.Keys ::
        if key in v.fields && key in w.fields then SameReading(v.fields[key], w.fields[key])
        else Lookup(v.fields, key) == Lookup(w.fields, key)
    else v == w
  }

  lemma {:induction false} SameReadingReflexive(v: Json)
    ensures SameReading(v, v)
  {
    if v.Obj? {
      forall key | key in v.fields ensures SameReading(v.fields[key], v.fields[key]) {
        SameReadingReflexive(v.fields[key]);
      }
    }
  }

  lemma PatchLeaf(cached: Json, upstream: Json)
    requires !cached.Obj? || !upstream.Obj?
    ensures Patch("upstream", cached, Leaf(cached, upstream)) == upstream
    ensures Patch("cache", upstream, Leaf(cached, upstream)) == cached
  {
    assert |"cache"| != |"upstream"|;
  }

  /** The diff is enough to rebuild upstream from the cache, and the cache from upstream. */
  lemma {:induction false} PatchRestores(cached: Json, upstream: Json)
    ensures SameReading(Patch("upstream", cached, DiffValue(cached, upstream)), upstream)
    ensures SameReading(Patch("cache", upstream, DiffValue(cached, upstream)), cached)
    decreases cached, 1
  {
    if cached.Obj? && upstream.Obj? {
      var c, u, d := cached.fields, upstream.fields, DiffValue(cached, upstream);
      assert cached == Obj(c) && upstream == Obj(u);
      assert !IsLeaf("upstream", cached, d.fields) && !IsLeaf("cache", upstream, d.fields);
      var forth, back := Patch("upstream", cached, d).fields, Patch("cache", upstream, d).fields;
      forall key
        ensures key in forth || key in u ==>
                  if key in forth && key in u then SameReading(forth[key], u[key]) else Lookup(forth, key) == Lookup(u, key)
        ensures key in back || key in c ==>
                  if key in back && key in c then SameReading(back[key], c[key]) else Lookup(back, key) == Lookup(c, key)
      {
        RestoresAt(c, u, key);
      }
    } else {
      PatchLeaf(cached, upstream);
      SameReadingReflexive(upstream);
      SameReadingReflexive(cached);
    }
  }

  lemma {:induction false} RestoresAt(c: map<string, Json>, u: map<string, Json>, key: string)
    ensures var d := DiffValue(Obj(c), Obj(u));
            var forth, back := Patch("upstream", Obj(c), d).fields, Patch("cache", Obj(u), d).fields;
            && (key in forth || key in u ==>
                  if key in forth && key in u then SameReading(forth[key], u[key]) else Lookup(forth, key) == Lookup(u, key))
            && (key in back || key in c ==>
                  if key in back && key in c then SameReading(back[key], c[key]) else Lookup(back, key) == Lookup(c, key))
    decreases Obj(c), 0
  {
    var d := DiffValue(Obj(c), Obj(u)).fields;
    if key in c && key in u && key in d {
      PatchRestores(c[key], u[key]);
    } else {
      SameReadingReflexive(Lookup(c, key));
      SameReadingReflexive(Lookup(u, key));
      if key !in c || key !in u { PatchLeaf(Lookup(c, key), Lookup(u, key)); }
    }
  }

  /** Between objects the diff names exactly the keys that read differently. */
  lemma DiffNamesExactly(c: map<string, Json>, u: map<string, Json>, key: string)
    ensures key in DiffValue(Obj(c), Obj(u)).fields <==> Lookup(c, key) != Lookup(u, key)
  {
  }

  /** Patching what was compared as one side with the reported diff reads as what was compared as the other. */
  lemma DiffRestoresUpstream(pullRequest: bool, cache: Json, upstream: Json)
    ensures var (c, u) := Comparable(pullRequest, cache, upstream);
            var (same, diff) := SemanticDiff(pullRequest, cache, upstream);
            !same || c.Obj? ==> SameReading(Patch("upstream", c, diff), u) && SameReading(Patch("cache", u, diff), c)
  {
    hide Comparable;
    var (c, u) := Comparable(pullRequest, cache, upstream);
    if c == u {
      SameReadingReflexive(u);
      if c.Obj? {
        assert Patch("upstream", c, Obj(map[])).fields == c.fields;
        assert Patch("cache", u, Obj(map[])).fields == c.fields;
      }
    } else {
      PatchRestores(c, u);
    }
  }

  /** A mismatch can come with an empty diff: exactly when the objects differ only in keys that read null. */
  lemma EmptyDiffExactly(pullRequest: bool, cache: Json, upstream: Json)
    ensures var (c, u) := Comparable(pullRequest, cache, upstream);
            SemanticDiff(pullRequest, cache, upstream) == (false, Obj(map[])) <==>
            c != u && c.Obj? && u.Obj? && forall key :: Lookup(c.fields, key) == Lookup(u.fields, key)
  {
    hide Comparable;
    var (c, u) := Comparable(pullRequest, cache, upstream);
    if c != u {
      if c.Obj? && u.Obj? {
        var d := DiffValue(c, u).fields;
        assert d.Keys == Differing(c.fields, u.fields);
        if d == map[] {
          forall key ensures Lookup(c.fields, key) == Lookup(u.fields, key) {
            assert key !in Differing(c.fields, u.fields);
          }
        }
      } else {
        assert "cache" in DiffValue(c, u).fields;
      }
    }
  }

  /** For example, a null field against a missing one. */
  lemma NullAgainstMissing()
    ensures SemanticDiff(false, Obj(map["a" := Null]), Obj(map[])) == (false, Obj(map[]))
  {
    var cache, upstream := Obj(map["a" := Null]), Obj(map[]);
    assert Normalize(cache).fields == cache.fields;
    assert Normalize(upstream).fields == upstream.fields;
    assert "a" in cache.fields;
    EmptyDiffExactly(false, cache, upstream);
  }
}
