/** The resolver object, whose critical sections are proved to be the cache's. */
module LiveResolver {
  import opened Results
  import opened SourceScan
  import opened Spec = SourceCache

  class SourceResolver {
    var entries: map<Key, Entry>
    var clock: nat

    ghost function View(): Cache
      reads this
    {
      Cache(entries, clock)
    }

    constructor ()
      ensures View() == Start.cache
    {
      entries, clock := map[], 0;
    }

    // Scans the resident entries, in any order, for the oldest idle one.
    method FindVictim() returns (victim: Option<Key>)
      ensures IsVictim(entries, victim)
    {
      victim := None;
      if |entries| < MAX_ENTRIES { return; }
      var rest := entries.Keys;
      while rest != {}
        invariant rest <= entries.Keys
        invariant victim.Some? ==>
                    && Idle(entries, victim.value)
                    && forall k | Idle(entries, k) && k !in rest :: entries[victim.value].lastUsed <= entries[k].lastUsed
        invariant victim.None? ==> forall k | k in entries && k !in rest :: entries[k].fetching
        decreases rest
      {
        var key :| key in rest;
        var entry := entries[key];
        if !entry.fetching && (victim.None? || entry.lastUsed < entries[victim.value].lastUsed) {
          victim := Some(key);
        }
        rest := rest - {key};
      }
    }

    method EvictLocked() returns (ghost victim: Option<Key>)
      modifies this`entries
      ensures IsVictim(old(entries), victim)
      ensures entries == if victim.None? then old(entries) else old(entries) - {victim.value}
    {
      var chosen := FindVictim();
      victim := chosen;
      if chosen.Some? { entries := entries - {chosen.value}; }
    }

    // From the lock to its release, up to the start of a fetch.
    method BeginResolve(request: Request) returns (outcome: Outcome, ghost victim: Option<Key>)
      modifies this
      ensures Acceptable(request) ==> Chosen(old(entries), KeyOf(request), victim)
      ensures (View(), outcome) == Visit(old(View()), request, victim)
    {
      victim := None;
      if request.repo <= 0 || request.sha == "" { return Reject, None; }
      var key := KeyOf(request);
      ghost var before := entries;
      if key !in entries {
        victim := EvictLocked();
        entries := entries[key := BLANK];
      }
      clock := clock + 1;
      var entry := entries[key].(lastUsed := clock);
      assert entry == Touched(Cache(before, clock - 1), key);
      if entry.fetching {
        outcome := Wait;
      } else if ValidRecord(request.mirrored, request.ref, request.sha) {
        outcome := Serve(request.mirrored.value.source);
        entry := entry.(sha := request.sha, source := request.mirrored.value.source);
      } else if entry.sha == request.sha {
        outcome := Serve(entry.source);
      } else {
        outcome := Fetch(PriorOf(entry, request));
        entry := entry.(fetching := true);
      }
      entries := entries[key := entry];
      assert entries == Room(before, key, victim)[key := entry];
    }

    // From the second lock to its release.
    method EndFetch(key: Key, sha: Sha, result: Result<Source>)
      requires key in entries
      modifies this`entries
      ensures View() == Complete(old(View()), key, sha, result)
    {
      var entry := entries[key].(fetching := false);
      if result.Ok? { entry := entry.(sha := sha, source := result.value); }
      entries := entries[key := entry];
    }
  }
}
