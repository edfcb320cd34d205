/** What the source cache answers, and how long it remembers. */
module CacheAnswers {
  import opened Results
  import opened SourceScan
  import opened SourceCache

  // A mirrored row can be relied on for its ref: its digest agrees and its parts fit together.
  predicate Reliable(row: Record, ref: string) {
    && row.ref == ref && row.hashed && row.source.ref != ""
    && (|| (row.source.status in {Present, Oversized}
            && row.source.path in {".github/CODEOWNERS", "CODEOWNERS", "docs/CODEOWNERS"}
            && (row.source.status == Oversized ==> row.source.content == ""))
        || (row.source.status == Missing && row.source.path == "" && row.source.content == ""))
  }

  lemma ReliableExactly(record: Option<Record>, ref: string)
    ensures ValidPrior(record, ref) <==> record.Some? && Reliable(record.value, ref)
    ensures record.Some? && Reliable(record.value, ref) ==> record.value.ref == ref
  {
  }

  // The key a request is about: its ref, or its commit when it names no ref.
  function About(request: Request): Key {
    if request.ref == "" then Key(request.repo, request.sha) else Key(request.repo, request.ref)
  }

  /** The answer of the cache: unusable requests are rejected; a key being fetched makes its callers wait; a
      reliable mirrored row of the very commit is served, else the commit the entry holds; and only else is a
      fetch begun, from the source the entry holds or, without one, from a reliable row of another commit. */
  lemma AnswerExactly(cache: Cache, request: Request, victim: Option<Key>)
    ensures var answer := Visit(cache, request, victim).1;
            var key := About(request);
            var held := if key in cache.entries then cache.entries[key] else BLANK;
            var row := request.mirrored;
            var reliable := row.Some? && Reliable(row.value, request.ref);
            if request.repo <= 0 || request.sha == "" then Visit(cache, request, victim) == (cache, Reject)
            else if held.fetching then answer == Wait
            else if reliable && row.value.source.ref == request.sha then answer == Serve(row.value.source)
            else if held.sha == request.sha then answer == Serve(held.source)
            else if held.source.status != Unset then answer == Fetch(Some(held.source))
            else answer == Fetch(if reliable then Some(row.value.source) else None)
  {
    ReliableExactly(request.mirrored, request.ref);
    hide ValidPrior, Reliable, Room;
  }

  // ------------------------------------------------------------ remembering

  // The entry of the key holds the commit.
  predicate Holds(s: State, key: Key, sha: Sha) {
    key in s.cache.entries && s.cache.entries[key].sha == sha
  }

  // The action hands out another commit of the key.
  ghost predicate ServesOther(truth: Truth, s: State, a: Action, key: Key, sha: Sha)
    requires Allowed(truth, s, a)
  {
    match a
    case Enter(_, request, victim) =>
      About(request) == key && request.sha != sha && Visit(s.cache, request, victim).1.Serve?
    case Land(caller, answer) =>
      && s.flights[caller].key == key && s.flights[caller].sha != sha
      && Find(s.flights[caller].sha, s.flights[caller].prior, answer).Ok?
    case Abandon(_) => false
  }

  lemma StepRemembers(truth: Truth, s: State, a: Action, key: Key, sha: Sha)
    requires Allowed(truth, s, a) && Holds(s, key, sha) && sha != ""
    requires key in Apply(truth, s, a).cache.entries && !ServesOther(truth, s, a, key, sha)
    ensures Holds(Apply(truth, s, a), key, sha)
  {
    hide ValidRecord, ValidPrior, PriorOf, Find, HonestServer, Chosen, TruthfulRequest;
  }

  // Along the run the key stays resident and no other commit of it is handed out.
  ghost predicate Undisturbed(truth: Truth, s: State, actions: seq<Action>, key: Key, sha: Sha)
    requires Runs(truth, s, actions)
    decreases |actions|
  {
    actions == [] ||
    (&& key in Apply(truth, s, actions[0]).cache.entries && !ServesOther(truth, s, actions[0], key, sha)
     && Undisturbed(truth, Apply(truth, s, actions[0]), actions[1..], key, sha))
  }

  lemma {:induction false} RunRemembers(truth: Truth, s: State, actions: seq<Action>, key: Key, sha: Sha)
    requires Runs(truth, s, actions) && Holds(s, key, sha) && sha != "" && Undisturbed(truth, s, actions, key, sha)
    ensures Holds(Final(truth, s, actions), key, sha)
    decreases |actions|
  {
    hide Allowed, Apply, Holds, ServesOther;
    if actions == [] {
    } else {
      StepRemembers(truth, s, actions[0], key, sha);
      RunRemembers(truth, Apply(truth, s, actions[0]), actions[1..], key, sha);
    }
  }

  lemma LandHolds(truth: Truth, s: State, caller: Caller, answer: (Path, ETag) -> Answer)
    requires Allowed(truth, s, Land(caller, answer)) && Find(s.flights[caller].sha, s.flights[caller].prior, answer).Ok?
    ensures Holds(Apply(truth, s, Land(caller, answer)), s.flights[caller].key, s.flights[caller].sha)
  {
    hide Find, HonestServer;
  }

  /** After a successful fetch of a commit, and for as long as the key is not evicted and no other commit of it
      is handed out, a request for that commit is served at once, without another fetch, unless the key is just
      being fetched for another commit. */
  lemma FetchedCommitIsServed(truth: Truth, s: State, caller: Caller, answer: (Path, ETag) -> Answer, actions: seq<Action>,
                              request: Request, victim: Option<Key>)
    requires Allowed(truth, s, Land(caller, answer)) && Find(s.flights[caller].sha, s.flights[caller].prior, answer).Ok?
    requires Runs(truth, Apply(truth, s, Land(caller, answer)), actions)
    requires Undisturbed(truth, Apply(truth, s, Land(caller, answer)), actions, s.flights[caller].key, s.flights[caller].sha)
    requires Acceptable(request) && About(request) == s.flights[caller].key && request.sha == s.flights[caller].sha
    ensures var t := Final(truth, Apply(truth, s, Land(caller, answer)), actions);
            && About(request) in t.cache.entries
            && (!t.cache.entries[About(request)].fetching ==> Visit(t.cache, request, victim).1.Serve?)
  {
    hide Find, Runs, Final, Apply, Undisturbed, Visit, Reliable;
    LandHolds(truth, s, caller, answer);
    var landed := Apply(truth, s, Land(caller, answer));
    RunRemembers(truth, landed, actions, About(request), request.sha);
    AnswerExactly(Final(truth, landed, actions).cache, request, victim);
  }
}
