/**
 Finding the effective CODEOWNERS file of a commit: the three-path precedence
 scan, its resumption from a prior source, and conditional requests.

 The content of a file is a sequence of bytes, written as a string. `Truth`
 says what every commit holds and what every entity tag stands for.
 */
module SourceScan {
  import opened Results

  type Repo = int
  type Sha = string
  type Path = string
  type ETag = string

  // GitHub's effective size limit: larger files own nothing.
  const MAX_BYTES: nat := 3 * 1024 * 1024

  datatype Status = Unset | Present | Oversized | Missing

  datatype Source = Source(ref: Sha, path: Path, content: string, status: Status, etag: ETag)

  const NoSource: Source := Source("", "", "", Unset, "")

  // Precedence of the effective file.
  const PATHS: seq<Path> := [".github/CODEOWNERS", "CODEOWNERS", "docs/CODEOWNERS"]

  datatype Truth = Truth(files: map<(Repo, Sha, Path), string>, tags: map<(Repo, Path, ETag), string>)

  // ------------------------------------------------------------ plain scan

  function Effective(ref: Sha, path: Path, content: string, etag: ETag): Source {
    if |content| >= MAX_BYTES then Source(ref, path, "", Oversized, etag) else Source(ref, path, content, Present, etag)
  }

  function ScanFrom(truth: Truth, repo: Repo, sha: Sha, i: nat): Source
    requires i <= |PATHS|
    decreases |PATHS| - i
  {
    if i == |PATHS| then Source(sha, "", "", Missing, "")
    else if (repo, sha, PATHS[i]) in truth.files then Effective(sha, PATHS[i], truth.files[(repo, sha, PATHS[i])], "")
    else ScanFrom(truth, repo, sha, i + 1)
  }

  // The first of the three paths that the commit holds.
  function Scan(truth: Truth, repo: Repo, sha: Sha): Source {
    ScanFrom(truth, repo, sha, 0)
  }

  predicate SameUpToTag(a: Source, b: Source) {
    a.(etag := "") == b.(etag := "")
  }

  // A source that is what the plain scan finds, with a tag that vouches for it.
  predicate Truthful(truth: Truth, repo: Repo, s: Source) {
    && SameUpToTag(s, Scan(truth, repo, s.ref))
    && (s.status != Missing && s.etag != "" ==>
          && (repo, s.path, s.etag) in truth.tags && (repo, s.ref, s.path) in truth.files
          && truth.tags[(repo, s.path, s.etag)] == truth.files[(repo, s.ref, s.path)])
  }

  // --------------------------------------------------------------- requests

  datatype Answer = NotFound | NotModified(etag: ETag) | Content(body: string, etag: ETag) | Failure

  // The client reads at most one byte beyond the limit.
  function Clip(content: string): string {
    if |content| <= MAX_BYTES + 1 then content else content[..MAX_BYTES + 1]
  }

  // What a server may answer to a request carrying a tag; it may always fail.
  predicate Honest(truth: Truth, repo: Repo, sha: Sha, path: Path, sent: ETag, answer: Answer) {
    var file := (repo, sha, path);
    match answer
    case NotFound => file !in truth.files
    case Content(body, etag) =>
      && file in truth.files && body == Clip(truth.files[file])
      && (etag != "" ==> (repo, path, etag) in truth.tags && truth.tags[(repo, path, etag)] == truth.files[file])
    case NotModified(etag) =>
      && sent != "" && (repo, path, sent) in truth.tags
      && file in truth.files && truth.tags[(repo, path, sent)] == truth.files[file]
      && etag != "" && (repo, path, etag) in truth.tags && truth.tags[(repo, path, etag)] == truth.files[file]
    case Failure => true
  }

  ghost predicate HonestServer(truth: Truth, repo: Repo, sha: Sha, answer: (Path, ETag) -> Answer) {
    forall path, sent | path in PATHS :: Honest(truth, repo, sha, path, sent, answer(path, sent))
  }

  // -------------------------------------------------------- the search itself

  // The tag sent for a path: only the prior source's own path is conditional.
  function Sent(prior: Option<Source>, path: Path): ETag {
    if prior.Some? && prior.value.path == path then prior.value.etag else ""
  }

  // The outcome of one request; None moves on to the next path.
  function Judge(ref: Sha, path: Path, prior: Option<Source>, answer: Answer): Option<Result<Source>> {
    match answer
    case NotFound => None
    case Failure => Some(Err)
    case NotModified(etag) =>
      if prior.None? || prior.value.path != path || (!prior.value.status.Present? && !prior.value.status.Oversized?)
      then Some(Err)
      else Some(Ok(prior.value.(ref := ref, etag := etag)))
    case Content(body, etag) => Some(Ok(Effective(ref, path, body, etag)))
  }

  function FindFrom(ref: Sha, prior: Option<Source>, answer: (Path, ETag) -> Answer, i: nat): Result<Source>
    requires i <= |PATHS|
    decreases |PATHS| - i
  {
    if i == |PATHS| then Ok(Source(ref, "", "", Missing, ""))
    else
      match Judge(ref, PATHS[i], prior, answer(PATHS[i], Sent(prior, PATHS[i])))
      case Some(outcome) => outcome
      case None => FindFrom(ref, prior, answer, i + 1)
  }

  function StartOf(path: Path): (i: nat)
    ensures i < |PATHS|
  {
    if path == PATHS[1] then 1 else if path == PATHS[2] then 2 else 0
  }

  // The search: a prior source of the same commit says where to resume, or that
  // nothing is to be found.
  function Find(ref: Sha, prior: Option<Source>, answer: (Path, ETag) -> Answer): Result<Source> {
    if prior.Some? && prior.value.ref == ref then
      if prior.value.status.Missing? then Ok(prior.value)
      else FindFrom(ref, prior, answer, StartOf(prior.value.path))
    else FindFrom(ref, prior, answer, 0)
  }

  // -------------------------------------------------------------- coherence

  // From a position above which the commit holds nothing, the search returns
  // what the plain scan finds.
  lemma {:induction false} FindFromIsScan(
    truth: Truth, repo: Repo, ref: Sha, prior: Option<Source>, answer: (Path, ETag) -> Answer, i: nat
  )
    requires i <= |PATHS|
    requires prior.Some? ==> Truthful(truth, repo, prior.value)
    requires HonestServer(truth, repo, ref, answer)
    requires Scan(truth, repo, ref) == ScanFrom(truth, repo, ref, i)
    ensures var found := FindFrom(ref, prior, answer, i);
            found.Ok? ==> found.value.ref == ref && found.value.status != Unset && Truthful(truth, repo, found.value)
    decreases |PATHS| - i
  {
    if i < |PATHS| {
      var path := PATHS[i];
      var sent := Sent(prior, path);
      assert Honest(truth, repo, ref, path, sent, answer(path, sent));
      match answer(path, sent)
      case NotFound => FindFromIsScan(truth, repo, ref, prior, answer, i + 1);
      case NotModified(_) => if prior.Some? { ScanHitsItsPath(truth, repo, prior.value.ref, 0); }
      case _ =>
    }
  }

  // A scan that ends at a path has passed over the paths before it.
  lemma {:induction false} ScanHitsItsPath(truth: Truth, repo: Repo, sha: Sha, i: nat)
    requires i <= |PATHS|
    ensures var s := ScanFrom(truth, repo, sha, i);
            && s.ref == sha && s.status != Unset && s.etag == ""
            && (s.status == Missing ==> s.path == "" && s.content == "")
            && (s.status != Missing ==>
                  && s.path in PATHS && i <= StartOf(s.path) && ScanFrom(truth, repo, sha, StartOf(s.path)) == s
                  && (repo, sha, s.path) in truth.files
                  && s == Effective(sha, s.path, truth.files[(repo, sha, s.path)], ""))
    decreases |PATHS| - i
  {
    if i < |PATHS| && (repo, sha, PATHS[i]) !in truth.files {
      ScanHitsItsPath(truth, repo, sha, i + 1);
    }
  }

  // Whatever the prior source and whichever requests fail, a search that
  // succeeds returns what the plain scan finds at that commit.
  lemma FindIsScan(truth: Truth, repo: Repo, ref: Sha, prior: Option<Source>, answer: (Path, ETag) -> Answer)
    requires prior.Some? ==> Truthful(truth, repo, prior.value)
    requires HonestServer(truth, repo, ref, answer)
    ensures var found := Find(ref, prior, answer);
            found.Ok? ==>
              && found.value.ref == ref && found.value.status != Unset
              && SameUpToTag(found.value, Scan(truth, repo, ref)) && Truthful(truth, repo, found.value)
  {
    if prior.Some? && prior.value.ref == ref {
      ScanHitsItsPath(truth, repo, ref, 0);
      if !prior.value.status.Missing? {
        FindFromIsScan(truth, repo, ref, prior, answer, StartOf(prior.value.path));
      }
    } else {
      FindFromIsScan(truth, repo, ref, prior, answer, 0);
    }
  }

  // The server can always be made to answer; only its failures fail a search.
  lemma {:induction false} FindFromSucceeds(
    truth: Truth, repo: Repo, ref: Sha, prior: Option<Source>, answer: (Path, ETag) -> Answer, i: nat
  )
    requires i <= |PATHS|
    requires prior.Some? ==> Truthful(truth, repo, prior.value)
    requires HonestServer(truth, repo, ref, answer)
    requires forall path, sent | path in PATHS :: answer(path, sent) != Failure
    ensures FindFrom(ref, prior, answer, i).Ok?
    decreases |PATHS| - i
  {
    if i < |PATHS| {
      var path := PATHS[i];
      var sent := Sent(prior, path);
      assert path in PATHS;
      assert Honest(truth, repo, ref, path, sent, answer(path, sent));
      if prior.Some? { ScanHitsItsPath(truth, repo, prior.value.ref, 0); }
      FindFromSucceeds(truth, repo, ref, prior, answer, i + 1);
    }
  }

  lemma FindSucceedsUnlessRefused(truth: Truth, repo: Repo, ref: Sha, prior: Option<Source>, answer: (Path, ETag) -> Answer)
    requires prior.Some? ==> Truthful(truth, repo, prior.value)
    requires HonestServer(truth, repo, ref, answer)
    requires forall path, sent | path in PATHS :: answer(path, sent) != Failure
    ensures Find(ref, prior, answer).Ok?
  {
    forall i: nat | i <= |PATHS|
      ensures FindFrom(ref, prior, answer, i).Ok?
    {
      FindFromSucceeds(truth, repo, ref, prior, answer, i);
    }
  }

  /** The effective file of a commit: `.github` before the root before `docs`, whichever the commit holds first;
      a file at the size limit is effective and empty. */
  lemma PrecedenceExactly(truth: Truth, repo: Repo, sha: Sha)
    ensures var github, root, docs := ".github/CODEOWNERS", "CODEOWNERS", "docs/CODEOWNERS";
            var found := Scan(truth, repo, sha);
            && found.path ==
               (if (repo, sha, github) in truth.files then github
                else if (repo, sha, root) in truth.files then root
                else if (repo, sha, docs) in truth.files then docs else "")
            && (found.status == Missing <==> found.path == "")
            && (found.path != "" ==>
                  var content := truth.files[(repo, sha, found.path)];
                  if |content| < 3 * 1024 * 1024 then found.status == Present && found.content == content
                  else found.status == Oversized && found.content == "")
  {
    assert ScanFrom(truth, repo, sha, 3) == Source(sha, "", "", Missing, "");
    assert PATHS[0] == ".github/CODEOWNERS" && PATHS[1] == "CODEOWNERS" && PATHS[2] == "docs/CODEOWNERS";
  }

  /** A prior source's tag is sent for its own path: when the paths before it are not there and the server
      answers that the tagged content is unchanged, the prior source is reused for the new commit. */
  lemma {:induction false} UnchangedIsReused(ref: Sha, prior: Source, answer: (Path, ETag) -> Answer, i: nat, k: nat, etag: ETag)
    requires i <= k < |PATHS| && prior.path == PATHS[k] && (prior.status == Present || prior.status == Oversized)
    requires forall j | i <= j < k :: answer(PATHS[j], "") == NotFound
    requires answer(prior.path, prior.etag) == NotModified(etag)
    ensures FindFrom(ref, Some(prior), answer, i) == Ok(prior.(ref := ref, etag := etag))
    decreases k - i
  {
    if i == k {
    } else {
      assert PATHS[i] != PATHS[k];
      UnchangedIsReused(ref, prior, answer, i + 1, k, etag);
    }
  }

  /** A prior source of the same commit spares the requests above it: what the server would answer there does
      not matter, and nothing is asked at all when the commit is known to hold no file. */
  lemma SameCommitResumes(ref: Sha, prior: Source, answer: (Path, ETag) -> Answer, other: (Path, ETag) -> Answer, k: nat)
    requires prior.ref == ref && (prior.status == Missing || (k < |PATHS| && prior.path == PATHS[k]))
    requires prior.status != Missing ==>
               forall j, sent | k <= j < |PATHS| :: answer(PATHS[j], sent) == other(PATHS[j], sent)
    ensures Find(ref, Some(prior), answer) == Find(ref, Some(prior), other)
    ensures prior.status == Missing ==> Find(ref, Some(prior), answer) == Ok(prior)
  {
    if prior.status != Missing {
      assert StartOf(prior.path) == k;
      SameAnswersSameFind(ref, Some(prior), answer, other, k);
    }
  }

  lemma {:induction false} SameAnswersSameFind(ref: Sha, prior: Option<Source>, answer: (Path, ETag) -> Answer, other: (Path, ETag) -> Answer, i: nat)
    requires i <= |PATHS| && forall j, sent | i <= j < |PATHS| :: answer(PATHS[j], sent) == other(PATHS[j], sent)
    ensures FindFrom(ref, prior, answer, i) == FindFrom(ref, prior, other, i)
    decreases |PATHS| - i
  {
    if i == |PATHS| {
    } else {
      SameAnswersSameFind(ref, prior, answer, other, i + 1);
    }
  }

  // The request loop, with its moving start and early returns.
  method FindCodeowners(ref: Sha, prior: Option<Source>, answer: (Path, ETag) -> Answer, ghost truth: Truth, ghost repo: Repo)
    returns (r: Result<Source>)
    requires prior.Some? ==> Truthful(truth, repo, prior.value)
    requires HonestServer(truth, repo, ref, answer)
    ensures r == Find(ref, prior, answer)
    ensures r.Ok? ==> SameUpToTag(r.value, Scan(truth, repo, ref))
    ensures (forall path, sent | path in PATHS :: answer(path, sent) != Failure) ==> r.Ok?
  {
    FindIsScan(truth, repo, ref, prior, answer);
    if forall path, sent | path in PATHS :: answer(path, sent) != Failure {
      FindSucceedsUnlessRefused(truth, repo, ref, prior, answer);
    }
    var start := 0;
    if prior.Some? && prior.value.ref == ref {
      if prior.value.status.Missing? { return Ok(prior.value); }
      var index := 0;
      while index < |PATHS| && prior.value.path != PATHS[index]
        invariant index <= |PATHS|
        invariant forall j | 0 <= j < index :: prior.value.path != PATHS[j]
      {
        index := index + 1;
      }
      if index < |PATHS| { start := index; }
      assert start == StartOf(prior.value.path);
    }
    var i := start;
    while i < |PATHS|
      invariant start <= i <= |PATHS|
      invariant Find(ref, prior, answer) == FindFrom(ref, prior, answer, i)
    {
      match Judge(ref, PATHS[i], prior, answer(PATHS[i], Sent(prior, PATHS[i])))
      case None => i := i + 1;
      case Some(outcome) => return outcome;
    }
    return Ok(Source(ref, "", "", Missing, ""));
  }
}
