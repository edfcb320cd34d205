/**
 The process-local cache of CODEOWNERS sources: one entry per repository and
 ref, one fetch at a time per entry, eviction of the least recently used idle
 entry. Each section under the mutex is one function on the cache; a fetch in
 progress belongs to the caller that started it.
 */
module SourceCache {
  import opened Results
  import opened SourceScan

  datatype Key = Key(repo: Repo, ref: string)

  datatype Entry = Entry(sha: Sha, source: Source, fetching: bool, lastUsed: nat)

  datatype Cache = Cache(entries: map<Key, Entry>, clock: nat)

  // A mirrored row. `hashed` says that its digest is the digest of its source.
  datatype Record = Record(ref: string, source: Source, hashed: bool)

  datatype Request = Request(repo: Repo, ref: string, sha: Sha, mirrored: Option<Record>)

  datatype Outcome = Reject | Wait | Serve(source: Source) | Fetch(prior: Option<Source>)

  const MAX_ENTRIES: nat := 1024

  // ---------------------------------------------------------------- records

  predicate ValidPrior(record: Option<Record>, ref: string) {
    && record.Some? && record.value.ref == ref && record.value.source.ref != "" && record.value.hashed
    && match record.value.source.status {
         case Present => record.value.source.path in PATHS
         case Oversized => record.value.source.path in PATHS && record.value.source.content == ""
         case Missing => record.value.source.path == "" && record.value.source.content == ""
         case Unset => false
       }
  }

  predicate ValidRecord(record: Option<Record>, ref: string, sha: Sha) {
    record.Some? && record.value.ref == ref && record.value.source.ref == sha && ValidPrior(record, ref)
  }

  // --------------------------------------------------------------- eviction

  predicate Idle(entries: map<Key, Entry>, key: Key) {
    key in entries && !entries[key].fetching
  }

  predicate AllFetching(entries: map<Key, Entry>) {
    forall key <- entries :: entries[key].fetching
  }

  predicate IsOldestIdle(entries: map<Key, Entry>, key: Key) {
    && Idle(entries, key)
    && forall other <- entries :: Idle(entries, other) ==> entries[key].lastUsed <= entries[other].lastUsed
  }

  // What a full cache gives up to make room.
  predicate IsVictim(entries: map<Key, Entry>, victim: Option<Key>) {
    if |entries| < MAX_ENTRIES || AllFetching(entries) then victim == None
    else victim.Some? && IsOldestIdle(entries, victim.value)
  }

  // A lookup evicts only for a key that is not resident.
  predicate Chosen(entries: map<Key, Entry>, key: Key, victim: Option<Key>) {
    key !in entries ==> IsVictim(entries, victim)
  }

  // ----------------------------------------------------------- lock sections

  function KeyOf(request: Request): Key {
    Key(request.repo, if request.ref == "" then request.sha else request.ref)
  }

  predicate Acceptable(request: Request) {
    request.repo > 0 && request.sha != ""
  }

  const BLANK: Entry := Entry("", NoSource, false, 0)

  // The entries that stay when a key is looked up: a new key needs room.
  function Room(entries: map<Key, Entry>, key: Key, victim: Option<Key>): map<Key, Entry> {
    if key in entries || victim.None? then entries else entries - {victim.value}
  }

  // The entry found or created, marked as used now.
  function Touched(cache: Cache, key: Key): Entry {
    (if key in cache.entries then cache.entries[key] else BLANK).(lastUsed := cache.clock + 1)
  }

  // The source a fetch may start from.
  function PriorOf(entry: Entry, request: Request): Option<Source> {
    if entry.source.status != Unset then Some(entry.source)
    else if ValidPrior(request.mirrored, request.ref) then Some(request.mirrored.value.source)
    else None
  }

  function Decide(entry: Entry, request: Request): (Entry, Outcome) {
    if entry.fetching then (entry, Wait)
    else if ValidRecord(request.mirrored, request.ref, request.sha) then
      var source := request.mirrored.value.source;
      (entry.(sha := request.sha, source := source), Serve(source))
    else if entry.sha == request.sha then (entry, Serve(entry.source))
    else (entry.(fetching := true), Fetch(PriorOf(entry, request)))
  }

  // First section: serve, wait, or start a fetch.
  function Visit(cache: Cache, request: Request, victim: Option<Key>): (Cache, Outcome) {
    if !Acceptable(request) then (cache, Reject)
    else
      var key := KeyOf(request);
      var (entry, outcome) := Decide(Touched(cache, key), request);
      (Cache(Room(cache.entries, key, victim)[key := entry], cache.clock + 1), outcome)
  }

  // Second section: publish the fetch's result and wake the waiters.
  function Complete(cache: Cache, key: Key, sha: Sha, result: Result<Source>): Cache
    requires key in cache.entries
  {
    var idle := cache.entries[key].(fetching := false);
    cache.(entries := cache.entries[key := if result.Ok? then idle.(sha := sha, source := result.value) else idle])
  }

  // ---------------------------------------------------------------- a system

  type Caller = int

  datatype Flight = Flight(key: Key, sha: Sha, prior: Option<Source>)

  datatype Reply = Reply(repo: Repo, sha: Sha, source: Source)

  /** Everything the callers do together; `touches`, `served` and `peak` are history. */
  datatype State = State(
    cache: Cache,
    flights: map<Caller, Flight>,
    waiting: map<Caller, Key>,
    touches: seq<Key>,
    served: seq<Reply>,
    peak: nat)

  datatype Action =
    | Enter(caller: Caller, request: Request, victim: Option<Key>)
    | Land(caller: Caller, answer: (Path, ETag) -> Answer)
    | Abandon(caller: Caller)

  const Start: State := State(Cache(map[], 0), map[], map[], [], [], 0)

  // Mirrored rows that pass validation are true of their commit.
  predicate TruthfulRequest(truth: Truth, request: Request) {
    ValidPrior(request.mirrored, request.ref) ==> Truthful(truth, request.repo, request.mirrored.value.source)
  }

  ghost predicate Allowed(truth: Truth, s: State, a: Action) {
    match a
    case Enter(caller, request, victim) =>
      && caller !in s.flights && caller !in s.waiting && TruthfulRequest(truth, request)
      && (Acceptable(request) ==> Chosen(s.cache.entries, KeyOf(request), victim))
    case Land(caller, answer) =>
      && caller in s.flights && s.flights[caller].key in s.cache.entries
      && HonestServer(truth, s.flights[caller].key.repo, s.flights[caller].sha, answer)
    case Abandon(caller) => caller in s.waiting
  }

  function Max(a: nat, b: nat): nat {
    if a >= b then a else b
  }

  function AfterEnter(s: State, caller: Caller, request: Request, victim: Option<Key>): State {
    var (cache, outcome) := Visit(s.cache, request, victim);
    var key := KeyOf(request);
    match outcome
    case Reject => s
    case Wait => s.(cache := cache, waiting := s.waiting[caller := key], touches := s.touches + [key])
    case Serve(source) =>
      s.(cache := cache, touches := s.touches + [key], served := s.served + [Reply(request.repo, request.sha, source)])
    case Fetch(prior) =>
      var flights := s.flights[caller := Flight(key, request.sha, prior)];
      s.(cache := cache, touches := s.touches + [key], flights := flights, peak := Max(s.peak, |flights|))
  }

  function AfterLand(s: State, caller: Caller, result: Result<Source>): State
    requires caller in s.flights && s.flights[caller].key in s.cache.entries
  {
    var flight := s.flights[caller];
    s.(
      cache := Complete(s.cache, flight.key, flight.sha, result),
      flights := s.flights - {caller},
      waiting := map c | c in s.waiting && s.waiting[c] != flight.key :: s.waiting[c],
      served := if result.Ok? then s.served + [Reply(flight.key.repo, flight.sha, result.value)] else s.served)
  }

  ghost function Apply(truth: Truth, s: State, a: Action): State
    requires Allowed(truth, s, a)
  {
    match a
    case Enter(caller, request, victim) => AfterEnter(s, caller, request, victim)
    case Land(caller, answer) => AfterLand(s, caller, Find(s.flights[caller].sha, s.flights[caller].prior, answer))
    case Abandon(caller) => s.(waiting := s.waiting - {caller})
  }

  ghost predicate Runs(truth: Truth, s: State, actions: seq<Action>)
    decreases |actions|
  {
    actions == [] || (Allowed(truth, s, actions[0]) && Runs(truth, Apply(truth, s, actions[0]), actions[1..]))
  }

  ghost function Final(truth: Truth, s: State, actions: seq<Action>): State
    requires Runs(truth, s, actions)
    decreases |actions|
  {
    if actions == [] then s else Final(truth, Apply(truth, s, actions[0]), actions[1..])
  }

  // ---------------------------------------------------------------- invariant

  // The clock counts touches, and an entry remembers its key's last one.
  predicate Stamped(s: State) {
    s.cache.clock == |s.touches| && AllStamped(s.touches, s.cache.entries)
  }

  predicate AllStamped(touches: seq<Key>, entries: map<Key, Entry>) {
    forall key <- entries :: IsLastTouch(touches, key, entries[key].lastUsed)
  }

  predicate IsLastTouch(touches: seq<Key>, key: Key, stamp: nat) {
    1 <= stamp <= |touches| && touches[stamp - 1] == key && key !in touches[stamp..]
  }

  function FetchingKeys(entries: map<Key, Entry>): set<Key> {
    set key | key in entries && entries[key].fetching
  }

  function FlightKeys(flights: map<Caller, Flight>): set<Key> {
    set c | c in flights :: flights[c].key
  }

  predicate OneFlightEach(flights: map<Caller, Flight>) {
    forall c, d | c in flights && d in flights && flights[c].key == flights[d].key :: c == d
  }

  // Entries being fetched are exactly the flights' keys, one flight each, and
  // callers wait only for flights.
  predicate SingleFlight(s: State) {
    && FetchingKeys(s.cache.entries) == FlightKeys(s.flights)
    && OneFlightEach(s.flights)
    && (forall c <- s.waiting :: c !in s.flights && s.waiting[c] in FlightKeys(s.flights))
  }

  predicate TruthfulEntry(truth: Truth, repo: Repo, entry: Entry) {
    && (entry.source.status == Unset ==> entry.sha == "")
    && (entry.source.status != Unset ==> entry.source.ref == entry.sha && Truthful(truth, repo, entry.source))
  }

  predicate AllTruthful(truth: Truth, entries: map<Key, Entry>) {
    forall key <- entries :: TruthfulEntry(truth, key.repo, entries[key])
  }

  predicate Coherent(truth: Truth, s: State) {
    && AllTruthful(truth, s.cache.entries)
    && (forall c <- s.flights :: s.flights[c].prior.Some? ==> Truthful(truth, s.flights[c].key.repo, s.flights[c].prior.value))
    && (forall reply <- s.served :: SameUpToTag(reply.source, Scan(truth, reply.repo, reply.sha)))
  }

  predicate Bounded(s: State) {
    |s.flights| <= s.peak && |s.cache.entries| <= Max(MAX_ENTRIES, s.peak + 1)
  }

  predicate Inv(truth: Truth, s: State) {
    Stamped(s) && SingleFlight(s) && Coherent(truth, s) && Bounded(s)
  }

  // ----------------------------------------------------- what a visit changes

  lemma DecideEffect(entry: Entry, request: Request)
    ensures var (next, outcome) := Decide(entry, request);
            && outcome != Reject && next.lastUsed == entry.lastUsed
            && (outcome.Wait? <==> entry.fetching)
            && (next.fetching <==> outcome.Wait? || outcome.Fetch?)
  {
    hide ValidRecord, ValidPrior, PriorOf;
  }

  // A visit to a key being fetched waits; a visit that fetches marks the key;
  // nothing being fetched is evicted.
  lemma VisitMarksFetches(cache: Cache, request: Request, victim: Option<Key>)
    requires Acceptable(request) && Chosen(cache.entries, KeyOf(request), victim)
    ensures var (next, outcome) := Visit(cache, request, victim);
            && FetchingKeys(next.entries) == FetchingKeys(cache.entries) + (if outcome.Fetch? then {KeyOf(request)} else {})
            && (outcome.Wait? <==> KeyOf(request) in FetchingKeys(cache.entries)) && outcome != Reject
  {
  }

  lemma RoomKeepsStamps(touches: seq<Key>, entries: map<Key, Entry>, key: Key, victim: Option<Key>, entry: Entry)
    requires AllStamped(touches, entries) && entry.lastUsed == |touches| + 1
    ensures AllStamped(touches + [key], Room(entries, key, victim)[key := entry])
  {
  }

  lemma VisitKeepsStamps(s: State, caller: Caller, request: Request, victim: Option<Key>)
    requires Acceptable(request) && Stamped(s)
    ensures Stamped(AfterEnter(s, caller, request, victim))
  {
    var key := KeyOf(request);
    var touched := Touched(s.cache, key);
    DecideEffect(touched, request);
    RoomKeepsStamps(s.touches, s.cache.entries, key, victim, Decide(touched, request).0);
    hide Decide, Room, AllStamped;
  }

  lemma TakeOff(flights: map<Caller, Flight>, caller: Caller, flight: Flight)
    requires caller !in flights && OneFlightEach(flights) && flight.key !in FlightKeys(flights)
    ensures OneFlightEach(flights[caller := flight])
    ensures FlightKeys(flights[caller := flight]) == FlightKeys(flights) + {flight.key}
  {
    var next := flights[caller := flight];
    assert next[caller].key in FlightKeys(next);
    forall c | c in flights
      ensures flights[c].key in FlightKeys(next) && flights[c].key != flight.key
    {
      assert next[c].key in FlightKeys(next);
      assert flights[c].key in FlightKeys(flights);
    }
  }

  lemma TouchDown(flights: map<Caller, Flight>, caller: Caller)
    requires caller in flights && OneFlightEach(flights)
    ensures OneFlightEach(flights - {caller})
    ensures FlightKeys(flights - {caller}) == FlightKeys(flights) - {flights[caller].key}
    ensures |flights - {caller}| == |flights| - 1
  {
    var rest := flights - {caller};
    OneFewer(flights, caller);
    forall key
      ensures key in FlightKeys(rest) <==> key in FlightKeys(flights) && key != flights[caller].key
    {
      if key in FlightKeys(flights) && key != flights[caller].key {
        var c :| c in flights && flights[c].key == key;
        assert rest[c].key in FlightKeys(rest);
      }
    }
  }

  lemma OneFewer(flights: map<Caller, Flight>, caller: Caller)
    requires caller in flights
    ensures |flights - {caller}| == |flights| - 1
  {
    var rest := flights - {caller};
    assert flights.Keys == rest.Keys + {caller};
    assert |flights| == |flights.Keys| && |rest| == |rest.Keys|;
  }

  lemma VisitKeepsSingleFlight(s: State, caller: Caller, request: Request, victim: Option<Key>)
    requires Acceptable(request) && Chosen(s.cache.entries, KeyOf(request), victim) && SingleFlight(s)
    requires caller !in s.flights && caller !in s.waiting
    ensures SingleFlight(AfterEnter(s, caller, request, victim))
  {
    hide Visit, Chosen, OneFlightEach, FetchingKeys, FlightKeys, KeyOf;
    VisitMarksFetches(s.cache, request, victim);
    var outcome := Visit(s.cache, request, victim).1;
    if outcome.Fetch? {
      TakeOff(s.flights, caller, Flight(KeyOf(request), request.sha, outcome.prior));
    }
  }

  lemma DecideIsTruthful(truth: Truth, entry: Entry, request: Request)
    requires Acceptable(request) && TruthfulEntry(truth, request.repo, entry) && TruthfulRequest(truth, request)
    ensures var (next, outcome) := Decide(entry, request);
            && TruthfulEntry(truth, request.repo, next)
            && (outcome.Serve? ==> outcome.source.ref == request.sha && Truthful(truth, request.repo, outcome.source))
            && (outcome.Fetch? && outcome.prior.Some? ==> Truthful(truth, request.repo, outcome.prior.value))
  {
    hide Truthful;
  }

  lemma RoomStaysTruthful(truth: Truth, entries: map<Key, Entry>, key: Key, victim: Option<Key>, entry: Entry)
    requires AllTruthful(truth, entries) && TruthfulEntry(truth, key.repo, entry)
    ensures AllTruthful(truth, Room(entries, key, victim)[key := entry])
  {
    hide TruthfulEntry;
  }

  lemma TouchedIsTruthful(truth: Truth, cache: Cache, key: Key)
    requires AllTruthful(truth, cache.entries)
    ensures TruthfulEntry(truth, key.repo, Touched(cache, key))
  {
    hide Truthful;
  }

  lemma ServedIsScan(truth: Truth, repo: Repo, source: Source)
    requires Truthful(truth, repo, source)
    ensures SameUpToTag(source, Scan(truth, repo, source.ref))
  {
  }

  lemma VisitStaysCoherent(truth: Truth, s: State, caller: Caller, request: Request, victim: Option<Key>)
    requires Acceptable(request) && Coherent(truth, s) && TruthfulRequest(truth, request)
    ensures Coherent(truth, AfterEnter(s, caller, request, victim))
  {
    hide Decide, Room, Truthful, SameUpToTag, ValidPrior, Scan, AllTruthful, TruthfulEntry, TruthfulRequest, Touched;
    var key := KeyOf(request);
    var touched := Touched(s.cache, key);
    TouchedIsTruthful(truth, s.cache, key);
    DecideIsTruthful(truth, touched, request);
    RoomStaysTruthful(truth, s.cache.entries, key, victim, Decide(touched, request).0);
    var outcome := Decide(touched, request).1;
    if outcome.Serve? { ServedIsScan(truth, request.repo, outcome.source); }
  }

  // ------------------------------------------------------------- size bounds

  lemma FlightsCoverFetching(s: State)
    requires SingleFlight(s) && AllFetching(s.cache.entries)
    ensures |s.cache.entries| <= |s.flights|
  {
    assert s.cache.entries.Keys == FetchingKeys(s.cache.entries);
    FlightsAreNoFewer(s.flights);
    assert |s.cache.entries| == |s.cache.entries.Keys|;
  }

  lemma {:induction false} FlightsAreNoFewer(flights: map<Caller, Flight>)
    requires OneFlightEach(flights)
    ensures |FlightKeys(flights)| <= |flights|
    decreases |flights|
  {
    if caller :| caller in flights {
      TouchDown(flights, caller);
      FlightsAreNoFewer(flights - {caller});
    } else {
      assert FlightKeys(flights) == {};
    }
  }

  // Exact accounting of the map's size: it never shrinks, and at its limit it
  // grows only for a new key that arrives while every resident entry is being
  // fetched.
  lemma SizeOfVisit(cache: Cache, request: Request, victim: Option<Key>)
    requires Acceptable(request) ==> Chosen(cache.entries, KeyOf(request), victim)
    ensures var before := cache.entries;
            var after := Visit(cache, request, victim).0.entries;
            && |before| <= |after| <= |before| + 1
            && (|before| < |after| <==>
                  && Acceptable(request) && KeyOf(request) !in before
                  && (|before| < MAX_ENTRIES || AllFetching(before)))
  {
    if Acceptable(request) {
      RoomSize(cache.entries, KeyOf(request), victim, Decide(Touched(cache, KeyOf(request)), request).0);
      hide Decide, Room, Chosen, AllFetching;
    }
  }

  lemma RoomSize(entries: map<Key, Entry>, key: Key, victim: Option<Key>, entry: Entry)
    requires Chosen(entries, key, victim)
    ensures |Room(entries, key, victim)[key := entry]|
         == |entries| + (if key !in entries && (|entries| < MAX_ENTRIES || AllFetching(entries)) then 1 else 0)
  {
  }

  lemma VisitStaysBounded(s: State, caller: Caller, request: Request, victim: Option<Key>)
    requires Acceptable(request) && Chosen(s.cache.entries, KeyOf(request), victim) && SingleFlight(s) && Bounded(s)
    ensures Bounded(AfterEnter(s, caller, request, victim))
  {
    hide Visit, Chosen, SingleFlight, AllFetching, KeyOf;
    SizeOfVisit(s.cache, request, victim);
    if AllFetching(s.cache.entries) { FlightsCoverFetching(s); }
    var before, after := |s.cache.entries|, |Visit(s.cache, request, victim).0.entries|;
    assert after <= before || after <= Max(MAX_ENTRIES, |s.flights| + 1);
  }

  // -------------------------------------------------------- a fetch that lands

  lemma CompleteEffect(cache: Cache, key: Key, sha: Sha, result: Result<Source>)
    requires key in cache.entries
    ensures var next := Complete(cache, key, sha, result);
            && next.clock == cache.clock && next.entries.Keys == cache.entries.Keys && |next.entries| == |cache.entries|
            && FetchingKeys(next.entries) == FetchingKeys(cache.entries) - {key}
            && (forall other <- next.entries :: next.entries[other].lastUsed == cache.entries[other].lastUsed)
  {
  }

  lemma LandStaysCoherent(truth: Truth, s: State, caller: Caller, result: Result<Source>)
    requires Coherent(truth, s) && caller in s.flights && s.flights[caller].key in s.cache.entries
    requires result.Ok? ==>
               && result.value.ref == s.flights[caller].sha && result.value.status != Unset
               && Truthful(truth, s.flights[caller].key.repo, result.value)
    ensures Coherent(truth, AfterLand(s, caller, result))
  {
  }

  lemma LandKeepsFlights(s: State, caller: Caller, result: Result<Source>)
    requires caller in s.flights && s.flights[caller].key in s.cache.entries
    requires Stamped(s) && SingleFlight(s) && Bounded(s)
    ensures var t := AfterLand(s, caller, result);
            Stamped(t) && SingleFlight(t) && Bounded(t)
  {
    var flight := s.flights[caller];
    CompleteEffect(s.cache, flight.key, flight.sha, result);
    TouchDown(s.flights, caller);
    hide Complete, FetchingKeys, FlightKeys, OneFlightEach, IsLastTouch;
  }

  lemma LandKeepsInv(truth: Truth, s: State, caller: Caller, answer: (Path, ETag) -> Answer)
    requires Inv(truth, s) && Allowed(truth, s, Land(caller, answer))
    ensures Inv(truth, AfterLand(s, caller, Find(s.flights[caller].sha, s.flights[caller].prior, answer)))
  {
    hide Find, HonestServer, Truthful, SameUpToTag, AfterLand, Stamped, SingleFlight, Bounded;
    var flight := s.flights[caller];
    FindIsScan(truth, flight.key.repo, flight.sha, flight.prior, answer);
    var result := Find(flight.sha, flight.prior, answer);
    LandStaysCoherent(truth, s, caller, result);
    LandKeepsFlights(s, caller, result);
  }

  lemma AbandonKeepsInv(truth: Truth, s: State, caller: Caller)
    requires Inv(truth, s) && caller in s.waiting
    ensures Inv(truth, s.(waiting := s.waiting - {caller}))
  {
    hide Truthful, SameUpToTag, FetchingKeys, FlightKeys, OneFlightEach, IsLastTouch, Scan, AllTruthful;
  }

  lemma RejectKeepsState(s: State, caller: Caller, request: Request, victim: Option<Key>)
    ensures !Acceptable(request) ==> AfterEnter(s, caller, request, victim) == s
  {
  }

  lemma StepKeepsInv(truth: Truth, s: State, a: Action)
    requires Inv(truth, s) && Allowed(truth, s, a)
    ensures Inv(truth, Apply(truth, s, a))
  {
    hide Stamped, Coherent, Bounded, Visit, Find, HonestServer, Chosen, TruthfulRequest, AfterLand, FetchingKeys, FlightKeys, OneFlightEach;
    match a
    case Land(caller, answer) => LandKeepsInv(truth, s, caller, answer);
    case Abandon(_) => AbandonKeepsInv(truth, s, a.caller);
    case Enter(caller, request, victim) =>
      RejectKeepsState(s, caller, request, victim);
      if Acceptable(request) {
        VisitKeepsStamps(s, caller, request, victim);
        VisitKeepsSingleFlight(s, caller, request, victim);
        VisitStaysCoherent(truth, s, caller, request, victim);
        VisitStaysBounded(s, caller, request, victim);
      }
  }

  lemma {:induction false} RunKeepsInv(truth: Truth, s: State, actions: seq<Action>)
    requires Inv(truth, s) && Runs(truth, s, actions)
    ensures Inv(truth, Final(truth, s, actions))
    decreases |actions|
  {
    hide Inv, Allowed, Apply;
    if actions == [] {
    } else {
      StepKeepsInv(truth, s, actions[0]);
      RunKeepsInv(truth, Apply(truth, s, actions[0]), actions[1..]);
    }
  }

  // ---------------------------------------------------------------- theorems

  ghost function Reached(truth: Truth, actions: seq<Action>): State
    requires Runs(truth, Start, actions)
  {
    Final(truth, Start, actions)
  }

  lemma ReachedInv(truth: Truth, actions: seq<Action>)
    requires Runs(truth, Start, actions)
    ensures Inv(truth, Reached(truth, actions))
  {
    assert Inv(truth, Start);
    RunKeepsInv(truth, Start, actions);
  }

  // Source coherence: in every run, every source handed to a caller is what the
  // plain three-path scan finds at the commit the caller asked about.
  lemma EveryReplyIsTheScan(truth: Truth, actions: seq<Action>, reply: Reply)
    requires Runs(truth, Start, actions) && reply in Reached(truth, actions).served
    ensures SameUpToTag(reply.source, Scan(truth, reply.repo, reply.sha))
  {
    ReachedInv(truth, actions);
  }

  // Single flight: two fetches in progress are for different keys, the entry of
  // each stays resident, and nobody waits for a fetch that is not in progress.
  lemma OneFetchPerKey(truth: Truth, actions: seq<Action>)
    requires Runs(truth, Start, actions)
    ensures var s := Reached(truth, actions);
            && (forall c, d | c in s.flights && d in s.flights && c != d :: s.flights[c].key != s.flights[d].key)
            && FetchingKeys(s.cache.entries) == FlightKeys(s.flights)
            && (forall c <- s.waiting :: s.waiting[c] in FlightKeys(s.flights))
  {
    ReachedInv(truth, actions);
  }

  // Eviction: in every reachable state what a visit removes is idle, and of all
  // idle resident keys it is the one whose last touch lies furthest back.
  lemma EvictsLeastRecentlyTouched(truth: Truth, actions: seq<Action>, request: Request, victim: Option<Key>, gone: Key)
    requires Runs(truth, Start, actions) && Chosen(Reached(truth, actions).cache.entries, KeyOf(request), victim)
    requires var s := Reached(truth, actions);
             gone in s.cache.entries && gone !in Visit(s.cache, request, victim).0.entries
    ensures var s := Reached(truth, actions);
            && |s.cache.entries| >= MAX_ENTRIES && KeyOf(request) !in s.cache.entries
            && gone !in FlightKeys(s.flights)
            && forall other | Idle(s.cache.entries, other) && other != gone ::
                 exists i | 0 <= i < |s.touches| :: s.touches[i] == other && gone !in s.touches[i..]
  {
    ReachedInv(truth, actions);
    var s := Reached(truth, actions);
    hide Decide, Runs, Final, Reached;
    assert Acceptable(request) && KeyOf(request) !in s.cache.entries && victim == Some(gone);
    VictimIsLeastRecent(s, gone);
  }

  lemma VictimIsLeastRecent(s: State, gone: Key)
    requires Stamped(s) && IsOldestIdle(s.cache.entries, gone)
    ensures forall other | Idle(s.cache.entries, other) && other != gone ::
              exists i | 0 <= i < |s.touches| :: s.touches[i] == other && gone !in s.touches[i..]
  {
  }

  // Size: the map outgrows its limit only as far as concurrent fetches forced it.
  lemma CacheIsBounded(truth: Truth, actions: seq<Action>)
    requires Runs(truth, Start, actions)
    ensures |Reached(truth, actions).cache.entries| <= Max(MAX_ENTRIES, Reached(truth, actions).peak + 1)
  {
    ReachedInv(truth, actions);
  }

  // The excess is permanent: no step ever makes the map smaller.
  lemma {:induction false} CacheNeverShrinks(truth: Truth, s: State, actions: seq<Action>)
    requires Runs(truth, s, actions)
    ensures |s.cache.entries| <= |Final(truth, s, actions).cache.entries|
    decreases |actions|
  {
    if actions == [] {
    } else {
      var a := actions[0];
      var t := Apply(truth, s, a);
      match a {
        case Enter(_, request, victim) => SizeOfVisit(s.cache, request, victim);
        case Land(caller, _) =>
          assert t.cache.entries.Keys == s.cache.entries.Keys;
          assert |t.cache.entries| == |t.cache.entries.Keys| && |s.cache.entries| == |s.cache.entries.Keys|;
        case Abandon(_) =>
      }
      CacheNeverShrinks(truth, t, actions[1..]);
    }
  }

  // The n-th of a crowd of callers, each asking about a repository of its own.
  function Newcomer(n: nat): Action {
    Enter(n, Request(n + 1, "main", "sha", None), None)
  }

  function Crowd(n: nat): seq<Action> {
    if n == 0 then [] else Crowd(n - 1) + [Newcomer(n - 1)]
  }

  // All resident entries belong to the first n callers, who are all fetching.
  predicate Crowded(s: State, n: nat) {
    && s.waiting == map[] && |s.cache.entries| == n
    && (forall key <- s.cache.entries :: s.cache.entries[key].fetching && key.repo <= n)
    && (forall c <- s.flights :: c < n)
  }

  lemma CrowdGrows(truth: Truth, s: State, n: nat)
    requires Crowded(s, n)
    ensures Allowed(truth, s, Newcomer(n)) && Crowded(Apply(truth, s, Newcomer(n)), n + 1)
  {
    var request := Request(n + 1, "main", "sha", None);
    var key := KeyOf(request);
    assert key !in s.cache.entries;
    SizeOfVisit(s.cache, request, None);
    assert Decide(Touched(s.cache, key), request) == (Touched(s.cache, key).(fetching := true), Fetch(None));
    hide Scan, Find;
  }

  lemma {:induction false} RunsOneMore(truth: Truth, s: State, actions: seq<Action>, a: Action)
    requires Runs(truth, s, actions) && Allowed(truth, Final(truth, s, actions), a)
    ensures Runs(truth, s, actions + [a])
    ensures Final(truth, s, actions + [a]) == Apply(truth, Final(truth, s, actions), a)
    decreases |actions|
  {
    hide Allowed, Apply;
    if actions == [] {
      assert [] + [a] == [a] && [a][1..] == [];
      assert Runs(truth, Apply(truth, s, a), []);
    } else {
      RunsOneMore(truth, Apply(truth, s, actions[0]), actions[1..], a);
      assert (actions + [a])[1..] == actions[1..] + [a];
    }
  }

  /** There is no bound on the map: n concurrent fetches from the start leave n
      entries, for n above the limit too, and CacheNeverShrinks keeps them. */
  lemma {:induction false} CrowdOutgrowsLimit(truth: Truth, n: nat)
    ensures Runs(truth, Start, Crowd(n)) && Crowded(Reached(truth, Crowd(n)), n)
    ensures n > MAX_ENTRIES ==> |Reached(truth, Crowd(n)).cache.entries| > MAX_ENTRIES
  {
    hide Allowed, Apply;
    if n == 0 {
    } else {
      CrowdOutgrowsLimit(truth, n - 1);
      CrowdGrows(truth, Reached(truth, Crowd(n - 1)), n - 1);
      RunsOneMore(truth, Start, Crowd(n - 1), Newcomer(n - 1));
    }
  }
}
