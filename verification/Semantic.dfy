/**
 Drift comparison: normalizing JSON snapshots so that identified lists compare
 as sets, canonicalizing pull-request fields, and diffing what is left.
 */
module Semantic {
  import opened Json

  // --------------------------------------------------------------- identity

  // Decimal digits of a natural number.
  function Digits(n: nat): string {
    if n < 10 then [('0' as int + n) as char] else Digits(n / 10) + [('0' as int + n % 10) as char]
  }

  function Pad(width: nat, digits: string): string
    decreases width - |digits|
  {
    if |digits| < width then Pad(width, "0" + digits) else digits
  }

  // Rounds half to even, as formatting with no decimals does.
  function Round(x: real): int {
    var low := x.Floor;
    var rest := x - low as real;
    if rest < 0.5 || (rest == 0.5 && low % 2 == 0) then low else low + 1
  }

  function FormatNumber(x: real): string {
    var n := Round(x);
    if n < 0 then "-" + Pad(19, Digits(-n)) else Pad(20, Digits(n))
  }

  function Identity(item: map<string, Json>): string {
    if Text(item, "node_id") != "" then "node:" + Text(item, "node_id")
    else if "id" in item && item["id"].Num? then "number:" + FormatNumber(item["id"].number)
    else if Text(item, "id") != "" then "string:" + Text(item, "id")
    else if Text(item, "path") != "" then
      if Text(item, "owner_token") != "" then "owner:" + Text(item, "path") + "\0" + Text(item, "owner_token")
      else "path:" + Text(item, "path")
    else ""
  }

  predicate Identified(v: Json) {
    v.Obj? && Identity(v.fields) != ""
  }

  // Every element of a non-empty list carries an identity.
  predicate AllIdentified(items: seq<Json>) {
    items != [] && forall x | x in items :: Identified(x)
  }

  // The sort key: kind first, then identity.
  datatype Key = Key(kind: string, identity: string)

  function KeyOf(v: Json): Key {
    if v.Obj? then Key(Text(v.fields, "kind"), Identity(v.fields)) else Key("", "")
  }

  predicate KeyLeq(a: Key, b: Key) {
    if a.kind != b.kind then Leq(a.kind, b.kind) else Leq(a.identity, b.identity)
  }

  lemma KeyTotal(a: Key, b: Key)
    ensures KeyLeq(a, b) || KeyLeq(b, a)
    ensures KeyLeq(a, b) && KeyLeq(b, a) ==> a == b
  {
    LeqTotal(a.kind, b.kind);
    LeqTotal(a.identity, b.identity);
  }

  lemma KeyTransitive(a: Key, b: Key, c: Key)
    requires KeyLeq(a, b) && KeyLeq(b, c)
    ensures KeyLeq(a, c)
  {
    if a.kind == b.kind == c.kind {
      LeqTransitive(a.identity, b.identity, c.identity);
    } else if a.kind != b.kind && b.kind != c.kind {
      LeqTransitive(a.kind, b.kind, c.kind);
      LeqTotal(a.kind, b.kind);
    }
  }

  // ---------------------------------------------------------- stable sorting

  function Insert(x: Json, sorted: seq<Json>): seq<Json> {
    if sorted == [] || KeyLeq(KeyOf(x), KeyOf(sorted[0])) then [x] + sorted
    else [sorted[0]] + Insert(x, sorted[1..])
  }

  // sort.SliceStable by key.
  function Sort(items: seq<Json>): seq<Json> {
    if items == [] then [] else Insert(items[0], Sort(items[1..]))
  }

  predicate Sorted(items: seq<Json>) {
    forall i, j | 0 <= i < j < |items| :: KeyLeq(KeyOf(items[i]), KeyOf(items[j]))
  }

  predicate DistinctKeys(items: seq<Json>) {
    forall i, j | 0 <= i < j < |items| :: KeyOf(items[i]) != KeyOf(items[j])
  }

  lemma {:induction false} InsertElements(x: Json, sorted: seq<Json>)
    ensures multiset(Insert(x, sorted)) == multiset(sorted) + multiset{x}
    ensures |Insert(x, sorted)| == |sorted| + 1
  {
    if sorted != [] && !KeyLeq(KeyOf(x), KeyOf(sorted[0])) {
      InsertElements(x, sorted[1..]);
      assert sorted == [sorted[0]] + sorted[1..];
    }
  }

  lemma {:induction false} InsertSorted(x: Json, sorted: seq<Json>)
    requires Sorted(sorted)
    ensures Sorted(Insert(x, sorted))
  {
    var r := Insert(x, sorted);
    if sorted == [] {
    } else if KeyLeq(KeyOf(x), KeyOf(sorted[0])) {
      forall j | 0 < j < |r| ensures KeyLeq(KeyOf(x), KeyOf(r[j])) {
        if j > 1 {
          KeyTransitive(KeyOf(x), KeyOf(sorted[0]), KeyOf(sorted[j - 1]));
        }
      }
    } else {
      var rest := Insert(x, sorted[1..]);
      InsertSorted(x, sorted[1..]);
      InsertElements(x, sorted[1..]);
      KeyTotal(KeyOf(x), KeyOf(sorted[0]));
      forall j | 0 <= j < |rest| ensures KeyLeq(KeyOf(sorted[0]), KeyOf(rest[j])) {
        assert rest[j] in multiset(rest);
        assert rest[j] == x || rest[j] in sorted[1..];
      }
    }
  }

  lemma {:induction false} SortIsSortedPermutation(items: seq<Json>)
    ensures Sorted(Sort(items))
    ensures multiset(Sort(items)) == multiset(items)
    ensures |Sort(items)| == |items|
  {
    hide Insert, Sorted;
    if items == [] {
      NothingIsSorted();
    } else {
      SortIsSortedPermutation(items[1..]);
      InsertSorted(items[0], Sort(items[1..]));
      InsertElements(items[0], Sort(items[1..]));
      assert items == [items[0]] + items[1..];
    }
  }

  lemma NothingIsSorted()
    ensures Sorted([])
  {
  }

  // Sorting leaves a sorted list as it is.
  lemma {:induction false} SortOfSorted(items: seq<Json>)
    requires Sorted(items)
    ensures Sort(items) == items
  {
    if items == [] {
    } else {
      SortOfSorted(items[1..]);
      assert items == [items[0]] + items[1..];
    }
  }

  // Elements with equal keys are equal.
  ghost predicate KeysDetermine(items: multiset<Json>) {
    forall x, y | x in items && y in items && KeyOf(x) == KeyOf(y) :: x == y
  }

  // The head of a sorted list has the least key.
  lemma HeadIsLeast(a: seq<Json>, x: Json)
    requires Sorted(a) && x in multiset(a)
    ensures a != [] && KeyLeq(KeyOf(a[0]), KeyOf(x))
  {
    var i :| 0 <= i < |a| && a[i] == x;
    KeyTotal(KeyOf(x), KeyOf(x));
  }

  lemma KeysDetermineFewer(items: multiset<Json>, fewer: multiset<Json>)
    requires KeysDetermine(items) && fewer <= items
    ensures KeysDetermine(fewer)
  {
  }

  lemma SortedTail(a: seq<Json>)
    requires a != [] && Sorted(a)
    ensures Sorted(a[1..]) && multiset(a[1..]) == multiset(a) - multiset{a[0]}
  {
    hide KeyOf, KeyLeq;
    assert a == [a[0]] + a[1..];
  }

  lemma SameHead(a: seq<Json>, b: seq<Json>)
    requires a != [] && b != []
    requires Sorted(a) && Sorted(b) && multiset(a) == multiset(b) && KeysDetermine(multiset(a))
    ensures a[0] == b[0]
  {
    hide KeyOf, KeyLeq;
    assert a[0] in multiset(a) && b[0] in multiset(b);
    HeadIsLeast(a, b[0]);
    HeadIsLeast(b, a[0]);
    KeyTotal(KeyOf(a[0]), KeyOf(b[0]));
  }

  // If keys determine elements, the sorted arrangement of a collection is unique.
  lemma {:induction false} SortedIsUnique(a: seq<Json>, b: seq<Json>)
    requires Sorted(a) && Sorted(b) && multiset(a) == multiset(b) && KeysDetermine(multiset(a))
    ensures a == b
  {
    hide KeyOf, KeyLeq, KeysDetermine, Sorted;
    SameLength(a, b);
    if a == [] {
    } else {
      SameHead(a, b);
      SortedTail(a);
      SortedTail(b);
      KeysDetermineFewer(multiset(a), multiset(a[1..]));
      SortedIsUnique(a[1..], b[1..]);
      assert a == [a[0]] + a[1..] && b == [b[0]] + b[1..];
    }
  }

  lemma SameLength(a: seq<Json>, b: seq<Json>)
    requires multiset(a) == multiset(b)
    ensures |a| == |b|
  {
    assert |multiset(a)| == |a| && |multiset(b)| == |b|;
  }

  // Two different elements with one key keep their order, so their order shows.
  lemma {:induction false} EqualKeysKeepOrder(x: Json, y: Json, sorted: seq<Json>)
    requires KeyOf(x) == KeyOf(y) && x != y
    ensures Insert(x, Insert(y, sorted)) != Insert(y, Insert(x, sorted))
  {
    KeyTotal(KeyOf(x), KeyOf(y));
    if sorted == [] || KeyLeq(KeyOf(x), KeyOf(sorted[0])) {
      assert Insert(x, [y] + sorted)[0] == x && Insert(y, [x] + sorted)[0] == y;
    } else {
      var head, rest := sorted[0], sorted[1..];
      EqualKeysKeepOrder(x, y, rest);
      assert ([head] + Insert(y, rest))[1..] == Insert(y, rest);
      assert ([head] + Insert(x, rest))[1..] == Insert(x, rest);
      var xy, yx := Insert(x, Insert(y, sorted)), Insert(y, Insert(x, sorted));
      assert xy[1..] == Insert(x, Insert(y, rest)) && yx[1..] == Insert(y, Insert(x, rest));
    }
  }

  // Every arrangement of the list sorts to the same thing.
  ghost predicate OrderIrrelevant(items: seq<Json>) {
    forall other: seq<Json> | multiset(other) == multiset(items) :: Sort(other) == Sort(items)
  }

  lemma SwappedSortDiffers(x: Json, y: Json, rest: seq<Json>)
    requires KeyOf(x) == KeyOf(y) && x != y
    ensures Sort([x, y] + rest) != Sort([y, x] + rest)
  {
    hide Insert;
    assert ([x, y] + rest)[1..] == [y] + rest && ([y] + rest)[1..] == rest;
    assert ([y, x] + rest)[1..] == [x] + rest && ([x] + rest)[1..] == rest;
    assert Sort([x, y] + rest) == Insert(x, Sort([y] + rest)) == Insert(x, Insert(y, Sort(rest)));
    assert Sort([y, x] + rest) == Insert(y, Sort([x] + rest)) == Insert(y, Insert(x, Sort(rest)));
    EqualKeysKeepOrder(x, y, Sort(rest));
  }

  lemma DeterminedOrder(items: seq<Json>, other: seq<Json>)
    requires multiset(other) == multiset(items) && KeysDetermine(multiset(items))
    ensures Sort(other) == Sort(items)
  {
    hide Sort, KeysDetermine, Sorted;
    SortIsSortedPermutation(other);
    SortIsSortedPermutation(items);
    SortedIsUnique(Sort(other), Sort(items));
  }

  lemma ClashShowsOrder(items: seq<Json>, x: Json, y: Json)
    requires x in multiset(items) && y in multiset(items) && KeyOf(x) == KeyOf(y) && x != y
    ensures !OrderIrrelevant(items)
  {
    hide Sort, KeyOf;
    var rest := RemoveTwo(items, x, y);
    PairFirst(x, y, rest);
    PairFirst(y, x, rest);
    SwappedSortDiffers(x, y, rest);
    assert multiset{y, x} == multiset{x, y};
    TakenTogether(multiset(items), multiset{x, y});
    assert multiset([x, y] + rest) == multiset(items);
    assert multiset([y, x] + rest) == multiset(items);
  }

  lemma TakenTogether(all: multiset<Json>, some: multiset<Json>)
    requires some <= all
    ensures some + (all - some) == all
  {
  }

  lemma PairFirst(x: Json, y: Json, rest: seq<Json>)
    ensures multiset([x, y] + rest) == multiset{x, y} + multiset(rest)
  {
    assert [x, y] + rest == [x] + ([y] + rest);
  }

  /** The order of an identified list is immaterial exactly when no two different elements share (kind, identity). */
  lemma OrderIrrelevantExactly(items: seq<Json>)
    ensures OrderIrrelevant(items) <==> KeysDetermine(multiset(items))
  {
    hide Sort, KeyOf;
    if KeysDetermine(multiset(items)) {
      forall other: seq<Json> | multiset(other) == multiset(items) ensures Sort(other) == Sort(items) {
        DeterminedOrder(items, other);
      }
    } else {
      var x, y :| x in multiset(items) && y in multiset(items) && KeyOf(x) == KeyOf(y) && x != y;
      ClashShowsOrder(items, x, y);
    }
  }

  lemma RemoveTwo(items: seq<Json>, x: Json, y: Json) returns (rest: seq<Json>)
    requires x in multiset(items) && y in multiset(items) && x != y
    ensures multiset(rest) == multiset(items) - multiset{x, y}
    ensures multiset{x, y} <= multiset(items)
  {
    var once := RemoveOne(items, x);
    rest := RemoveOne(once, y);
  }

  lemma RemoveOne(items: seq<Json>, x: Json) returns (rest: seq<Json>)
    requires x in multiset(items)
    ensures multiset(rest) == multiset(items) - multiset{x}
  {
    var i :| 0 <= i < |items| && items[i] == x;
    rest := items[..i] + items[i + 1..];
    assert items == items[..i] + [x] + items[i + 1..];
  }

  // ----------------------------------------------------------- normalization

  function NormalizeAll(items: seq<Json>): (r: seq<Json>)
    ensures |r| == |items| && forall i | 0 <= i < |r| :: r[i] == Normalize(items[i])
    decreases items, 0
  {
    if items == [] then [] else
    var r := [Normalize(items[0])] + NormalizeAll(items[1..]);
    assert forall i | 1 <= i < |items| :: items[i] == items[1..][i - 1];
    r
  }

  function Normalize(v: Json): Json
    decreases v, 1
  {
    match v
    case Obj(fields) => Obj(map key | key in fields :: Normalize(fields[key]))
    case Arr(items) =>
      var normalized := NormalizeAll(items);
      Arr(if AllIdentified(normalized) then Sort(normalized) else normalized)
    case _ => v
  }

  lemma ScalarsAreNormal(v: Json)
    ensures if v.Obj? then Normalize(v).Obj? else if v.Arr? then Normalize(v).Arr? else Normalize(v) == v
  {
  }

  // Normalizing changes no key a list is sorted by.
  lemma NormalizeKeepsKey(v: Json)
    ensures KeyOf(Normalize(v)) == KeyOf(v)
    ensures Identified(Normalize(v)) <==> Identified(v)
  {
    if v.Obj? {
      var n := Normalize(v).fields;
      forall key
        ensures Text(n, key) == Text(v.fields, key)
        ensures key in v.fields && v.fields[key].Num? ==> n[key] == v.fields[key]
        ensures key in v.fields && !v.fields[key].Num? ==> !n[key].Num?
      {
        if key in v.fields {
          assert n[key] == Normalize(v.fields[key]);
          ScalarsAreNormal(v.fields[key]);
        }
      }
    }
  }

  lemma ElementsOf(a: seq<Json>, b: seq<Json>)
    requires multiset(a) == multiset(b)
    ensures AllIdentified(a) <==> AllIdentified(b)
    ensures forall x :: x in a <==> x in b
  {
    SameLength(a, b);
    assert forall x :: x in a <==> x in multiset(a);
    assert forall x :: x in b <==> x in multiset(b);
  }

  // A list of values that are already normal normalizes by sorting alone.
  lemma NormalizeNormals(items: seq<Json>)
    requires forall x | x in items :: Normalize(x) == x
    ensures NormalizeAll(items) == items
  {
  }

  /** Normalization is idempotent. */
  lemma {:induction false} NormalizeIdempotent(v: Json)
    ensures Normalize(Normalize(v)) == Normalize(v)
  {
    match v
    case Obj(fields) =>
      forall key | key in fields ensures Normalize(Normalize(fields[key])) == Normalize(fields[key]) {
        NormalizeIdempotent(fields[key]);
      }
      assert Normalize(Normalize(v)).fields == Normalize(v).fields;
    case Arr(items) =>
      var normalized := NormalizeAll(items);
      var result := Normalize(v).items;
      forall x | x in normalized ensures Normalize(x) == x {
        var i :| 0 <= i < |items| && x == Normalize(items[i]);
        NormalizeIdempotent(items[i]);
      }
      SortIsSortedPermutation(normalized);
      ElementsOf(normalized, Sort(normalized));
      NormalizeNormals(result);
      if AllIdentified(normalized) {
        SortOfSorted(result);
      }
    case _ =>
  }

  // ------------------------------------------- reordering, at any depth

  // w is v with identified lists of distinct keys reordered, at any depth.
  ghost predicate Reordered(v: Json, w: Json) {
    match v
    case Obj(fields) =>
      && w.Obj? && w.fields.Keys == fields.Keys
      && forall key | key in fields :: Reordered(fields[key], w.fields[key])
    case Arr(items) =>
      && w.Arr? && |w.items| == |items|
      && (|| (forall i | 0 <= i < |items| :: Reordered(items[i], w.items[i]))
          || (&& AllIdentified(items) && DistinctKeys(items)
              && exists u: seq<Json> | |u| == |items| && multiset(u) == multiset(w.items) ::
                   forall i | 0 <= i < |items| :: Reordered(items[i], u[i])))
    case _ => w == v
  }

  function Without<T>(s: seq<T>, j: nat): seq<T>
    requires j < |s|
  {
    s[..j] + s[j + 1..]
  }

  lemma WithoutMultiset<T>(s: seq<T>, j: nat)
    requires j < |s|
    ensures multiset(s) == multiset(Without(s, j)) + multiset{s[j]}
    ensures multiset(Without(s, j)) == multiset(s) - multiset{s[j]}
  {
    assert s == s[..j] + [s[j]] + s[j + 1..];
  }

  lemma NormalizeWithout(b: seq<Json>, j: nat)
    requires j < |b|
    ensures NormalizeAll(Without(b, j)) == Without(NormalizeAll(b), j)
  {
    hide Normalize, NormalizeAll, Without;
    WithoutLength(b, j);
    WithoutLength(NormalizeAll(b), j);
    forall i | 0 <= i < |b| - 1
      ensures Without(NormalizeAll(b), j)[i] == Normalize(Without(b, j)[i])
    {
      WithoutAt(b, j, i);
      WithoutAt(NormalizeAll(b), j, i);
    }
  }

  lemma WithoutLength<T>(s: seq<T>, j: nat)
    requires j < |s|
    ensures |Without(s, j)| == |s| - 1
  {
  }

  lemma WithoutAt<T>(s: seq<T>, j: nat, i: nat)
    requires j < |s| && i < |s| - 1
    ensures |Without(s, j)| == |s| - 1
    ensures Without(s, j)[i] == s[if i < j then i else i + 1]
  {
  }

  // Rearranged lists normalize to rearranged lists.
  lemma {:induction false} NormalizeMultiset(a: seq<Json>, b: seq<Json>)
    requires multiset(a) == multiset(b)
    ensures multiset(NormalizeAll(a)) == multiset(NormalizeAll(b))
    decreases |a|
  {
    hide Normalize, NormalizeAll, Without;
    SameLength(a, b);
    if a == [] {
      assert a == b;
    } else {
      assert a[0] in multiset(b);
      var j :| 0 <= j < |b| && b[j] == a[0];
      WithoutMultiset(a, 0);
      WithoutMultiset(b, j);
      NormalizeMultiset(Without(a, 0), Without(b, j));
      NormalizeWithout(a, 0);
      NormalizeWithout(b, j);
      WithoutMultiset(NormalizeAll(a), 0);
      WithoutMultiset(NormalizeAll(b), j);
    }
  }

  lemma PointwiseListNormalizes(a: seq<Json>, b: seq<Json>)
    requires |a| == |b| && forall i | 0 <= i < |a| :: Normalize(a[i]) == Normalize(b[i])
    ensures Normalize(Arr(a)) == Normalize(Arr(b))
  {
    assert NormalizeAll(a) == NormalizeAll(b);
  }

  lemma ObjectNormalizes(a: map<string, Json>, b: map<string, Json>)
    requires a.Keys == b.Keys && forall key | key in a :: Normalize(a[key]) == Normalize(b[key])
    ensures Normalize(Obj(a)) == Normalize(Obj(b))
  {
  }

  /** Reordering identified lists with distinct keys, at any depth, does not change the normal form. */
  lemma {:induction false} NormalizeIgnoresOrder(v: Json, w: Json)
    requires Reordered(v, w)
    ensures Normalize(v) == Normalize(w)
  {
    hide Normalize, AllIdentified, DistinctKeys;
    match v
    case Obj(fields) =>
      forall key | key in fields ensures Normalize(fields[key]) == Normalize(w.fields[key]) {
        NormalizeIgnoresOrder(fields[key], w.fields[key]);
      }
      ObjectNormalizes(fields, w.fields);
    case Arr(items) =>
      if forall i | 0 <= i < |items| :: Reordered(items[i], w.items[i]) {
        forall i | 0 <= i < |items| ensures Normalize(items[i]) == Normalize(w.items[i]) {
          NormalizeIgnoresOrder(items[i], w.items[i]);
        }
        PointwiseListNormalizes(items, w.items);
      } else {
        RearrangedCase(items, w.items);
      }
    case _ =>
  }

  lemma {:induction false} RearrangedCase(a: seq<Json>, b: seq<Json>)
    requires |a| == |b| && AllIdentified(a) && DistinctKeys(a)
    requires exists u: seq<Json> | |u| == |a| && multiset(u) == multiset(b) ::
               forall i | 0 <= i < |a| :: Reordered(a[i], u[i])
    ensures Normalize(Arr(a)) == Normalize(Arr(b))
    decreases a
  {
    var u: seq<Json> :| |u| == |a| && multiset(u) == multiset(b) && forall i | 0 <= i < |a| :: Reordered(a[i], u[i]);
    forall i | 0 <= i < |a| ensures Normalize(a[i]) == Normalize(u[i]) {
      NormalizeIgnoresOrder(a[i], u[i]);
    }
    hide Normalize, NormalizeAll, AllIdentified, DistinctKeys, Reordered;
    assert NormalizeAll(a) == NormalizeAll(u);
    NormalizeMultiset(u, b);
    RearrangedListNormalizes(a, b);
  }

  lemma RearrangedListNormalizes(a: seq<Json>, b: seq<Json>)
    requires AllIdentified(a) && DistinctKeys(a) && multiset(NormalizeAll(a)) == multiset(NormalizeAll(b))
    ensures Normalize(Arr(a)) == Normalize(Arr(b))
  {
    NormalKeys(a);
    ElementsOf(NormalizeAll(a), NormalizeAll(b));
    hide NormalizeAll, AllIdentified, KeysDetermine, Sort;
    DeterminedOrder(NormalizeAll(a), NormalizeAll(b));
  }

  lemma NormalKeys(a: seq<Json>)
    requires AllIdentified(a) && DistinctKeys(a)
    ensures AllIdentified(NormalizeAll(a)) && KeysDetermine(multiset(NormalizeAll(a)))
  {
    hide Normalize, NormalizeAll, KeyOf, Identified;
    var na := NormalizeAll(a);
    forall i | 0 <= i < |a| ensures Identified(na[i]) && KeyOf(na[i]) == KeyOf(a[i]) {
      NormalizeKeepsKey(a[i]);
      assert a[i] in a;
    }
    forall x, y | x in multiset(na) && y in multiset(na) && KeyOf(x) == KeyOf(y) ensures x == y {
      var i :| 0 <= i < |a| && x == na[i];
      var j :| 0 <= j < |a| && y == na[j];
    }
  }
}
