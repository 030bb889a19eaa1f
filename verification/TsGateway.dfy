/**
 * The TypeScript lease table and invoke gateway. A call enters synchronously, is suspended while its
 * provider runs, and leaves later; every other operation may come in between. Each method is one such
 * synchronous step, so any interleaving is a sequence of these calls.
 */
module TsGateway {
  import opened Base
  import opened Ordering

  datatype Method = Method(id: Word, name: Bytes)
  datatype CapEntry = CapEntry(generation: nat, version: Version, methods: seq<Method>)
  datatype Selector = ByName(name: Bytes) | ById(id: Word)

  datatype LeaseRecord = LeaseRecord(consumer: Bytes, provider: Bytes, generation: nat, version: Version, inFlight: nat)

  /** A call waiting for its provider's answer, with the guard it holds on its lease. */
  datatype Suspended = Suspended(handle: nat, consumer: Bytes, provider: Bytes, generation: nat, key: Bytes, target: Method)

  predicate Selects(wanted: Selector, m: Method) {
    match wanted
    case ByName(name) => m.name == name
    case ById(id) => m.id == id
  }

  /** The suspended calls that hold a guard on one lease. */
  ghost function Guards(calls: map<nat, Suspended>, handle: nat): set<nat> {
    set c | c in calls && calls[c].handle == handle
  }

  /** The gateway's bookkeeping, as it stands between two steps. */
  ghost predicate Consistent(records: map<nat, LeaseRecord>, nextHandle: nat, busy: set<Bytes>, calls: map<nat, Suspended>,
                             nextCall: nat, orphans: set<nat>) {
    && (forall h | h in records :: h < nextHandle && records[h].inFlight == |Guards(calls, h)|)
    && (forall c | c in calls :: c < nextCall && calls[c].handle < nextHandle && calls[c].key in busy)
    && (forall k | k in busy :: exists c :: c in calls && calls[c].key == k)
    && (forall c, d | c in calls && d in calls && calls[c].key == calls[d].key :: c == d)
    && (forall c | c in calls && calls[c].handle in records ::
          var r := records[calls[c].handle];
          r.consumer == calls[c].consumer && r.provider == calls[c].provider && r.generation == calls[c].generation)
    && (forall c | c in calls && calls[c].handle !in records :: c in orphans)
  }

  /** The lease is the consumer's, and pins the instance its provider publishes now. */
  predicate Current(records: map<nat, LeaseRecord>, published: map<Bytes, CapEntry>, consumer: Bytes, handle: nat) {
    && handle in records && records[handle].consumer == consumer
    && records[handle].provider in published && published[records[handle].provider].generation == records[handle].generation
  }

  /** What a well-formed call attempt meets, in the order it is found out. */
  ghost function Admission(records: map<nat, LeaseRecord>, published: map<Bytes, CapEntry>, busy: set<Bytes>, consumer: Bytes,
                           handle: nat, wanted: Selector, endpoint: Option<Bytes>, invokable: bool): Status {
    if !Current(records, published, consumer, handle) then Stale
    else if forall m | m in published[records[handle].provider].methods :: !Selects(wanted, m) then NotFound
    else if endpoint.None? then Stale
    else if endpoint.value in busy then Busy
    else if !invokable then Failed
    else Ok
  }

  /** The answers one by one: what makes each of them, and that nothing else does. */
  lemma AdmissionMeans(records: map<nat, LeaseRecord>, published: map<Bytes, CapEntry>, busy: set<Bytes>, consumer: Bytes,
                       handle: nat, wanted: Selector, endpoint: Option<Bytes>, invokable: bool)
    ensures var st := Admission(records, published, busy, consumer, handle, wanted, endpoint, invokable);
            var current := && handle in records && records[handle].consumer == consumer && records[handle].provider in published
                           && published[records[handle].provider].generation == records[handle].generation;
            var listed := current && exists m :: m in published[records[handle].provider].methods
                                                 && if wanted.ByName? then m.name == wanted.name else m.id == wanted.id;
            && (st == Stale <==> !current || (listed && endpoint.None?))
            && (st == NotFound <==> current && !listed)
            && (st == Busy <==> listed && endpoint.Some? && endpoint.value in busy)
            && (st == Failed <==> listed && endpoint.Some? && endpoint.value !in busy && !invokable)
            && (st == Ok <==> listed && endpoint.Some? && endpoint.value !in busy && invokable)
  {
    assert forall m: Method :: Selects(wanted, m) <==> if wanted.ByName? then m.name == wanted.name else m.id == wanted.id;
  }

  class Gateway {
    const payloadLimit: nat
    const outputLimit: nat
    var published: map<Bytes, CapEntry>
    var records: map<nat, LeaseRecord>
    var nextHandle: nat
    var busy: set<Bytes>
    var calls: map<nat, Suspended>
    var nextCall: nat
    var nextGeneration: nat
    // Calls whose consumer was cleaned up while they were waiting.
    ghost var orphans: set<nat>
    // The provider generations that were published once and are not any more.
    ghost var withdrawn: set<(Bytes, nat)>

    ghost predicate Valid()
      reads this
    {
      && Consistent(records, nextHandle, busy, calls, nextCall, orphans)
      && (forall p | p in published :: (p, published[p].generation) !in withdrawn && published[p].generation < nextGeneration)
      && (forall w | w in withdrawn :: w.1 < nextGeneration)
    }

    constructor (payloadLimit: nat, outputLimit: nat)
      ensures Valid() && records == map[] && calls == map[] && published == map[]
    {
      this.payloadLimit, this.outputLimit := payloadLimit, outputLimit;
      published, records, nextHandle, busy, calls, nextCall, nextGeneration := map[], map[], 0, {}, map[], 0, 0;
      orphans, withdrawn := {}, {};
    }

    // ---- what the host does around the gateway ----------------------------------------------------

    /** An instance is published under the next generation; an identity is published once at a time. */
    method Publish(provider: Bytes, version: Version, methods: seq<Method>) returns (st: Status)
      requires Valid()
      modifies this`published, this`nextGeneration
      ensures Valid() && old(nextGeneration) <= nextGeneration
      ensures st == if provider in old(published) then Duplicate else Ok
      ensures published == if st == Ok then old(published)[provider := CapEntry(old(nextGeneration), version, methods)] else old(published)
    {
      hide Consistent;
      if provider in published { return Duplicate; }
      published := published[provider := CapEntry(nextGeneration, version, methods)];
      nextGeneration := nextGeneration + 1;
      return Ok;
    }

    method Withdraw(provider: Bytes)
      requires Valid()
      modifies this`published, this`withdrawn
      ensures Valid() && published == old(published) - {provider} && old(withdrawn) <= withdrawn
      ensures provider in old(published) ==> (provider, old(published[provider].generation)) in withdrawn
    {
      hide Consistent;
      if provider in published { withdrawn := withdrawn + {(provider, published[provider].generation)}; }
      published := published - {provider};
    }

    // ---- leases -------------------------------------------------------------------------------------

    /** Lease the published instance of a provider under a fresh credential. */
    method Acquire(consumer: Bytes, provider: Bytes, allowed: VersionRange, revoker: bool)
      returns (st: Status, handle: nat, version: Version)
      requires Valid()
      modifies this
      ensures Valid() && calls == old(calls) && busy == old(busy) && published == old(published) && orphans == old(orphans)
      ensures withdrawn == old(withdrawn) && nextGeneration == old(nextGeneration)
      ensures st == if !revoker || !ValidRange(allowed) then InvalidArgument
                    else if provider !in published then NotFound
                    else if !Accepts(allowed, published[provider].version) then Unsupported
                    else Ok
      ensures st == Ok ==>
                && handle == old(nextHandle) && handle !in old(records) && version == published[provider].version
                && records == old(records)[handle := LeaseRecord(consumer, provider, published[provider].generation, version, 0)]
                && nextHandle == handle + 1
      ensures st != Ok ==> records == old(records) && nextHandle == old(nextHandle)
    {
      handle, version := 0, Version(0, 0, 0);
      if !revoker { return InvalidArgument, handle, version; }
      if !ValidRange(allowed) { return InvalidArgument, handle, version; }
      if provider !in published { return NotFound, handle, version; }
      var entry := published[provider];
      if !Accepts(allowed, entry.version) { return Unsupported, handle, version; }
      handle, version := nextHandle, entry.version;
      assert Guards(calls, handle) == {};
      records := records[handle := LeaseRecord(consumer, provider, entry.generation, entry.version, 0)];
      nextHandle := nextHandle + 1;
      st := Ok;
    }

    /** Return a lease: ok only when no call is waiting under it. */
    method Release(handle: nat, consumer: Bytes) returns (st: Status)
      requires Valid()
      modifies this`records
      ensures Valid()
      ensures st == if handle !in old(records) || old(records[handle].consumer) != consumer then Stale
                    else if old(records[handle].inFlight) > 0 then Busy
                    else Ok
      ensures records == if st == Ok then old(records) - {handle} else old(records)
      ensures st == Ok ==> forall c | c in calls :: calls[c].handle != handle
      ensures st == Busy ==> exists c :: c in calls && calls[c].handle == handle
    {
      if handle !in records || records[handle].consumer != consumer { return Stale; }
      if records[handle].inFlight > 0 {
        SomeGuard(calls, handle);
        return Busy;
      }
      NoGuard(calls, handle);
      records := records - {handle};
      return Ok;
    }

    /** Silent clean-up when a consumer stops: its leases vanish, also those with calls waiting. */
    method ReleaseAllFrom(consumer: Bytes)
      requires Valid()
      modifies this`records, this`orphans
      ensures Valid()
      ensures records == map h | h in old(records) && old(records)[h].consumer != consumer :: old(records)[h]
      ensures orphans == old(orphans) + set c | c in calls && calls[c].consumer == consumer
    {
      hide Guards;
      records := map h | h in records && records[h].consumer != consumer :: records[h];
      orphans := orphans + set c | c in calls && calls[c].consumer == consumer;
    }

    /** The leases on one provider generation. */
    predicate Borrows(handle: nat, provider: Bytes, generation: nat)
      reads this
    {
      handle in records && records[handle].provider == provider && records[handle].generation == generation
    }

    /** Ask for every lease on a withdrawn generation, one holder after the other. While a holder is awaited
        anything may happen; still no lease on that generation comes about, and it is quiet in the end
        exactly if every lease that was there at the beginning has ended. */
    method Revoke(provider: Bytes, generation: nat) returns (st: Status, asked: seq<nat>)
      requires Valid() && (provider, generation) in withdrawn
      modifies this
      ensures Valid() && (provider, generation) in withdrawn && NoneNew(old(records), records, old(withdrawn))
      ensures st == Ok || st == Failed
      ensures st == Ok <==> forall h | old(Borrows(h, provider, generation)) :: h !in records
      ensures st == Ok ==> forall h | h in records :: !Borrows(h, provider, generation)
      ensures st == Ok ==> forall c | c in calls && calls[c].provider == provider && calls[c].generation == generation :: c in orphans
      ensures forall h | h in asked :: old(Borrows(h, provider, generation))
      ensures forall h | old(Borrows(h, provider, generation)) && h !in asked :: h !in records
    {
      hide Consistent, NoneNew, HandlesOnce;
      ghost var before, first := records, nextHandle;
      var borrowed := set h | h in records && Borrows(h, provider, generation);
      var pending := AscendingTokens(borrowed);
      forall k | 0 <= k < |pending| ensures pending[k] in borrowed { assert pending[k] in pending; }
      asked := AskAll(pending);
      NothingElseBorrowed(before, records, old(withdrawn), first, provider, generation);
      forall h | old(Borrows(h, provider, generation)) ensures h in pending { assert h in borrowed; }
      st := RevocationEnds(provider, generation);
    }

    /** Ask the holders of these leases, one after the other; those that ended meanwhile are passed over. */
    method AskAll(pending: seq<nat>) returns (asked: seq<nat>)
      requires Valid() && forall k | 0 <= k < |pending| :: pending[k] in records
      modifies this
      ensures Valid() && old(withdrawn) <= withdrawn && old(nextHandle) <= nextHandle
      ensures NoneNew(old(records), records, old(withdrawn)) && HandlesOnce(old(records), records, old(nextHandle))
      ensures forall h | h in asked :: h in pending
      ensures forall k | 0 <= k < |pending| :: pending[k] in asked || pending[k] !in records
    {
      assert forall h | h in records :: h < nextHandle;
      hide Consistent, NoneNew, HandlesOnce;
      ghost var before, pairs, first := records, withdrawn, nextHandle;
      NoneNewYet(before, pairs, first);
      asked := [];
      var i := 0;
      while i < |pending|
        invariant 0 <= i <= |pending| && Valid() && pairs <= withdrawn && first <= nextHandle
        invariant NoneNew(before, records, pairs) && HandlesOnce(before, records, first)
        invariant forall k | 0 <= k < i :: pending[k] in asked || pending[k] !in records
        invariant forall h | h in asked :: h in pending
      {
        if pending[i] in records {
          asked := asked + [pending[i]];
          ghost var middle, later, next := records, withdrawn, nextHandle;
          Interleave();
          NoneNewOnward(before, middle, records, pairs, later, first, next);
          forall k | 0 <= k < i && pending[k] !in middle ensures pending[k] !in records {
            EndedStays(before, middle, records, first, next, pending[k]);
          }
        }
        i := i + 1;
      }
    }

    /** After every revoker was awaited: only leases really returned prove that the instance is quiet. */
    method RevocationEnds(provider: Bytes, generation: nat) returns (st: Status)
      requires Valid()
      ensures st == Ok || st == Failed
      ensures st == Ok <==> forall h | h in records :: !(records[h].provider == provider && records[h].generation == generation)
      ensures st == Ok ==> forall c | c in calls && calls[c].provider == provider && calls[c].generation == generation :: c in orphans
    {
      if exists h | h in records :: records[h].provider == provider && records[h].generation == generation { return Failed; }
      return Ok;
    }

    // ---- calls --------------------------------------------------------------------------------------

    /** Take a guard on a lease whose provider generation is still the published one. */
    method BeginCall(handle: nat, consumer: Bytes) returns (st: Status)
      requires Valid()
      modifies this`records
      ensures st == if Current(old(records), published, consumer, handle) then Ok else Stale
      ensures st == Ok ==>
                records == old(records)[handle := old(records[handle]).(inFlight := old(records[handle].inFlight) + 1)]
      ensures st != Ok ==> records == old(records)
    {
      if handle !in records || records[handle].consumer != consumer { return Stale; }
      var record := records[handle];
      if record.provider !in published || published[record.provider].generation != record.generation { return Stale; }
      records := records[handle := record.(inFlight := record.inFlight + 1)];
      return Ok;
    }

    /** Give the guard back, through a fresh lookup: the lease may be gone by now. */
    method EndCall(handle: nat)
      modifies this`records
      ensures records == if handle in old(records) && old(records[handle].inFlight) > 0
                         then old(records)[handle := old(records[handle]).(inFlight := old(records[handle].inFlight) - 1)]
                         else old(records)
    {
      if handle in records && records[handle].inFlight > 0 {
        records := records[handle := records[handle].(inFlight := records[handle].inFlight - 1)];
      }
    }

    method FindMethod(methods: seq<Method>, wanted: Selector) returns (found: Option<Method>)
      ensures found.Some? ==> found.value in methods && Selects(wanted, found.value)
      ensures found.Some? ==> exists i | 0 <= i < |methods| ::
                methods[i] == found.value && forall k | 0 <= k < i :: !Selects(wanted, methods[k])
      ensures found.None? ==> forall i | 0 <= i < |methods| :: !Selects(wanted, methods[i])
    {
      var i := 0;
      while i < |methods|
        invariant 0 <= i <= |methods| && forall k | 0 <= k < i :: !Selects(wanted, methods[k])
      {
        if Selects(wanted, methods[i]) { return Some(methods[i]); }
        i := i + 1;
      }
      return None;
    }

    /** The synchronous half of a call: either it fails and leaves no trace, or the provider is entered
        and the call waits. `endpoint` is what the host resolves for the leased generation. */
    method Enter(consumer: Bytes, handle: nat, wanted: Selector, json: bool, size: nat, endpoint: Option<Bytes>, invokable: bool)
      returns (st: Status, call: nat)
      requires Valid()
      modifies this
      ensures Valid() && published == old(published) && nextHandle == old(nextHandle) && orphans == old(orphans)
      ensures withdrawn == old(withdrawn) && nextGeneration == old(nextGeneration)
      ensures st != Ok ==> records == old(records) && busy == old(busy) && calls == old(calls) && nextCall == old(nextCall)
      ensures st == Ok ==>
                && call == old(nextCall) && nextCall == call + 1 && call !in old(calls) && call in calls
                && old(calls) == calls - {call} && endpoint == Some(calls[call].key)
                && calls[call].key !in old(busy) && busy == old(busy) + {calls[call].key}
                && calls[call].handle == handle && calls[call].consumer == consumer
                && Entitled(old(records), published, calls[call]) && Selects(wanted, calls[call].target)
                && records == old(records)[handle := old(records[handle]).(inFlight := old(records[handle].inFlight) + 1)]
      ensures st == if !json then InvalidArgument else if size > payloadLimit then LimitExceeded
                    else Admission(old(records), published, old(busy), consumer, handle, wanted, endpoint, invokable)
      ensures st == Ok <==>
                && json && size <= payloadLimit && handle in old(records) && old(records[handle].consumer) == consumer
                && old(records[handle].provider) in published
                && published[old(records[handle].provider)].generation == old(records[handle].generation)
                && (exists m :: m in published[old(records[handle].provider)].methods
                                && if wanted.ByName? then m.name == wanted.name else m.id == wanted.id)
                && endpoint.Some? && endpoint.value !in old(busy) && invokable
      ensures st == Ok ==>
                calls[call] == Suspended(handle, consumer, old(records[handle].provider), old(records[handle].generation),
                                         endpoint.value, calls[call].target)
    {
      hide Guards, Consistent;
      AdmissionMeans(records, published, busy, consumer, handle, wanted, endpoint, invokable);
      ghost var before, was, busyWas := records, calls, busy;
      call := 0;
      if !json { return InvalidArgument, call; }
      if size > payloadLimit { return LimitExceeded, call; }
      var found;
      st, found := Admit(consumer, handle, wanted, endpoint, invokable);
      if st != Ok { return; }
      var lease := records[handle];
      call := nextCall;
      CallIsNew(records, nextHandle, before, busy, calls, nextCall, orphans);
      calls := calls[call := Suspended(handle, consumer, lease.provider, lease.generation, endpoint.value, found)];
      busy := busy + {endpoint.value};
      nextCall := nextCall + 1;
      EnteredConsistent(before, nextHandle, busyWas, was, call, orphans, calls[call]);
    }

    lemma CallIsNew(records: map<nat, LeaseRecord>, nextHandle: nat, before: map<nat, LeaseRecord>, busy: set<Bytes>,
                    calls: map<nat, Suspended>, nextCall: nat, orphans: set<nat>)
      requires Consistent(before, nextHandle, busy, calls, nextCall, orphans)
      ensures nextCall !in calls
    {
      hide Guards;
    }

    /** The validation chain under the guard; a failure gives the guard back. */
    method Admit(consumer: Bytes, handle: nat, wanted: Selector, endpoint: Option<Bytes>, invokable: bool)
      returns (st: Status, found: Method)
      requires Valid()
      modifies this`records
      ensures st != Ok ==> records == old(records)
      ensures st == Ok ==>
                && handle in old(records) && endpoint.Some? && endpoint.value !in busy
                && records == old(records)[handle := old(records[handle]).(inFlight := old(records[handle].inFlight) + 1)]
                && old(records[handle].consumer) == consumer
                && old(records[handle].provider) in published
                && published[old(records[handle].provider)].generation == old(records[handle].generation)
                && found in published[old(records[handle].provider)].methods && Selects(wanted, found)
      ensures st == Admission(old(records), published, busy, consumer, handle, wanted, endpoint, invokable)
    {
      ghost var before := records;
      found := Method(0, []);
      st := BeginCall(handle, consumer);
      if st != Ok { return; }
      var disclosed := FindMethod(published[records[handle].provider].methods, wanted);
      st := if disclosed.None? then NotFound
            else if endpoint.None? then Stale
            else if endpoint.value in busy then Busy
            else if !invokable then Failed
            else Ok;
      if st != Ok {
        EndCall(handle);
        assert records == before;
        return;
      }
      found := disclosed.value;
    }

    /** The provider answered, or threw: the call leaves, whatever happened to its lease meanwhile. */
    method Exit(call: nat, threw: bool, json: bool, size: nat) returns (st: Status)
      requires Valid() && call in calls
      modifies this
      ensures Valid() && published == old(published) && nextHandle == old(nextHandle) && orphans == old(orphans)
      ensures withdrawn == old(withdrawn) && nextGeneration == old(nextGeneration)
      ensures calls == old(calls) - {call} && busy == old(busy) - {old(calls[call].key)} && nextCall == old(nextCall)
      ensures records == if old(calls[call].handle) in old(records)
                         then old(records)[old(calls[call].handle) := old(records[calls[call].handle]).(
                                             inFlight := |Guards(calls, old(calls[call].handle))|)]
                         else old(records)
      ensures st == if threw then Failed else if !json then InvalidArgument else if size > outputLimit then LimitExceeded else Ok
    {
      hide Guards, Consistent;
      var waiting := calls[call];
      ghost var before, was, busyWas := records, calls, busy;
      GuardCounts(records, nextHandle, busy, calls, nextCall, orphans, call);
      st := if threw then Failed else if !json then InvalidArgument else if size > outputLimit then LimitExceeded else Ok;
      busy := busy - {waiting.key};
      calls := calls - {call};
      EndCall(waiting.handle);
      LeftConsistent(before, nextHandle, busyWas, was, nextCall, orphans, call);
    }

    // ---- interleavings ------------------------------------------------------------------------------

    /** One step of whoever gets the turn. */
    method Turn()
      requires Valid()
      modifies this
      ensures Valid() && old(withdrawn) <= withdrawn && old(nextHandle) <= nextHandle
      ensures NoneNew(old(records), records, old(withdrawn)) && HandlesOnce(old(records), records, old(nextHandle))
    {
      hide Consistent, NoneNew, HandlesOnce;
      var call: bool := *;
      if call { CallTurn(); } else { LeaseTurn(); }
    }

    method LeaseTurn()
      requires Valid()
      modifies this
      ensures Valid() && old(withdrawn) <= withdrawn && old(nextHandle) <= nextHandle
      ensures NoneNew(old(records), records, old(withdrawn)) && HandlesOnce(old(records), records, old(nextHandle))
    {
      assert forall h | h in records :: h < nextHandle;
      hide Guards, Consistent;
      var op: nat := *;
      var text: Bytes := *;
      var other: Bytes := *;
      var number: nat := *;
      var flag: bool := *;
      if op == 0 {
        var version: Version := *;
        var methods: seq<Method> := *;
        var _ := Publish(text, version, methods);
      } else if op == 1 {
        Withdraw(text);
      } else if op == 2 {
        var allowed: VersionRange := *;
        var _, _, _ := Acquire(text, other, allowed, flag);
      } else if op == 3 {
        var _ := Release(number, text);
      } else if op == 4 {
        ReleaseAllFrom(text);
      }
    }

    method CallTurn()
      requires Valid()
      modifies this
      ensures Valid() && old(withdrawn) <= withdrawn && old(nextHandle) <= nextHandle
      ensures NoneNew(old(records), records, old(withdrawn)) && HandlesOnce(old(records), records, old(nextHandle))
    {
      assert forall h | h in records :: h < nextHandle;
      hide Guards, Consistent, Entitled, Admission, Selects, NoneNew, HandlesOnce;
      ghost var before := records;
      var text: Bytes := *;
      var other: Bytes := *;
      var number: nat := *;
      var flag: bool := *;
      var yes: bool := *;
      var enters: bool := *;
      if enters {
        var wanted: Selector := *;
        var endpoint: Option<Bytes> := *;
        var _, _ := Enter(text, number, wanted, flag, |other|, endpoint, yes);
      } else if number in calls {
        var _ := Exit(number, flag, yes, |text|);
      }
      SameLeases(before, records, old(withdrawn), old(nextHandle));
    }

    /** Any number of steps. */
    method Interleave()
      requires Valid()
      modifies this
      ensures Valid() && old(withdrawn) <= withdrawn && old(nextHandle) <= nextHandle
      ensures NoneNew(old(records), records, old(withdrawn)) && HandlesOnce(old(records), records, old(nextHandle))
    {
      assert forall h | h in records :: h < nextHandle;
      hide Consistent, NoneNew, HandlesOnce;
      ghost var before, pairs, first := records, withdrawn, nextHandle;
      NoneNewYet(before, pairs, first);
      var steps: nat := *;
      while steps > 0
        invariant Valid() && pairs <= withdrawn && first <= nextHandle
        invariant NoneNew(before, records, pairs) && HandlesOnce(before, records, first)
      {
        ghost var middle, later, next := records, withdrawn, nextHandle;
        Turn();
        NoneNewOnward(before, middle, records, pairs, later, first, next);
        steps := steps - 1;
      }
    }
  }

  /** No lease on a withdrawn generation has come about. */
  ghost predicate NoneNew(before: map<nat, LeaseRecord>, after: map<nat, LeaseRecord>, withdrawn: set<(Bytes, nat)>) {
    forall h | h in after && (after[h].provider, after[h].generation) in withdrawn :: h in before
  }

  /** A handle names one lease, and once that has ended, none. */
  ghost predicate HandlesOnce(before: map<nat, LeaseRecord>, after: map<nat, LeaseRecord>, nextHandle: nat) {
    && (forall h | h in before :: h < nextHandle)
    && (forall h | h in before && h in after ::
          after[h].provider == before[h].provider && after[h].generation == before[h].generation && after[h].consumer == before[h].consumer)
    && (forall h | h in after && h < nextHandle :: h in before)
  }

  lemma NoneNewYet(records: map<nat, LeaseRecord>, withdrawn: set<(Bytes, nat)>, nextHandle: nat)
    requires forall h | h in records :: h < nextHandle
    ensures NoneNew(records, records, withdrawn) && HandlesOnce(records, records, nextHandle)
  {
  }

  lemma SameLeases(before: map<nat, LeaseRecord>, after: map<nat, LeaseRecord>, withdrawn: set<(Bytes, nat)>, nextHandle: nat)
    requires after.Keys == before.Keys && forall h | h in before :: h < nextHandle && after[h] == before[h].(inFlight := after[h].inFlight)
    ensures NoneNew(before, after, withdrawn) && HandlesOnce(before, after, nextHandle)
  {
  }

  lemma EndedStays(a: map<nat, LeaseRecord>, b: map<nat, LeaseRecord>, c: map<nat, LeaseRecord>, first: nat, next: nat, h: nat)
    requires HandlesOnce(a, b, first) && HandlesOnce(b, c, next) && first <= next && h in a && h !in b
    ensures h !in c
  {
  }

  /** What is borrowed from a withdrawn generation was borrowed before, and is borrowed from it still. */
  lemma NothingElseBorrowed(before: map<nat, LeaseRecord>, after: map<nat, LeaseRecord>, withdrawn: set<(Bytes, nat)>,
                            first: nat, provider: Bytes, generation: nat)
    requires NoneNew(before, after, withdrawn) && HandlesOnce(before, after, first) && (provider, generation) in withdrawn
    ensures forall h | h in after ::
              (after[h].provider == provider && after[h].generation == generation
               <==> h in before && before[h].provider == provider && before[h].generation == generation)
  {
  }

  lemma NoneNewOnward(a: map<nat, LeaseRecord>, b: map<nat, LeaseRecord>, c: map<nat, LeaseRecord>,
                      withdrawn: set<(Bytes, nat)>, later: set<(Bytes, nat)>, first: nat, next: nat)
    requires withdrawn <= later && first <= next
    requires NoneNew(a, b, withdrawn) && HandlesOnce(a, b, first)
    requires NoneNew(b, c, later) && HandlesOnce(b, c, next)
    ensures NoneNew(a, c, withdrawn) && HandlesOnce(a, c, first)
  {
  }

  /** The lease is the consumer's, and the instance it pins is the one published now. */
  ghost predicate Entitled(records: map<nat, LeaseRecord>, published: map<Bytes, CapEntry>, call: Suspended) {
    && call.handle in records && records[call.handle].consumer == call.consumer
    && records[call.handle].provider == call.provider && records[call.handle].generation == call.generation
    && call.provider in published && published[call.provider].generation == call.generation
    && call.target in published[call.provider].methods
  }

  lemma SomeGuard(calls: map<nat, Suspended>, handle: nat)
    requires |Guards(calls, handle)| > 0
    ensures exists c :: c in calls && calls[c].handle == handle
  {
    var c :| c in Guards(calls, handle);
  }

  lemma NoGuard(calls: map<nat, Suspended>, handle: nat)
    requires |Guards(calls, handle)| == 0
    ensures forall c | c in calls :: calls[c].handle != handle
  {
    assert forall c | c in calls :: calls[c].handle == handle <==> c in Guards(calls, handle);
  }

  lemma HeldGuard(calls: map<nat, Suspended>, call: nat)
    requires call in calls
    ensures |Guards(calls, calls[call].handle)| > 0
  {
    assert call in Guards(calls, calls[call].handle);
  }

  /** A lease with a waiting call counts its guard, and one less when that call leaves. */
  lemma GuardCounts(records: map<nat, LeaseRecord>, nextHandle: nat, busy: set<Bytes>, calls: map<nat, Suspended>,
                    nextCall: nat, orphans: set<nat>, call: nat)
    requires Consistent(records, nextHandle, busy, calls, nextCall, orphans) && call in calls
    ensures var h := calls[call].handle;
            h in records ==> 0 < records[h].inFlight && records[h].inFlight - 1 == |Guards(calls - {call}, h)|
  {
    hide Guards;
    HeldGuard(calls, call);
    GuardDropped(calls, call, calls[call].handle);
  }

  lemma GuardAdded(calls: map<nat, Suspended>, call: nat, s: Suspended, h: nat)
    requires call !in calls
    ensures |Guards(calls[call := s], h)| == |Guards(calls, h)| + (if s.handle == h then 1 else 0)
  {
    if s.handle == h { assert Guards(calls[call := s], h) == Guards(calls, h) + {call}; }
    else { assert Guards(calls[call := s], h) == Guards(calls, h); }
  }

  lemma GuardDropped(calls: map<nat, Suspended>, call: nat, h: nat)
    requires call in calls
    ensures |Guards(calls - {call}, h)| == |Guards(calls, h)| - (if calls[call].handle == h then 1 else 0)
  {
    if calls[call].handle == h { assert Guards(calls, h) == Guards(calls - {call}, h) + {call}; }
    else { assert Guards(calls - {call}, h) == Guards(calls, h); }
  }

  lemma EnteredConsistent(records: map<nat, LeaseRecord>, nextHandle: nat, busy: set<Bytes>, calls: map<nat, Suspended>,
                          nextCall: nat, orphans: set<nat>, s: Suspended)
    requires Consistent(records, nextHandle, busy, calls, nextCall, orphans) && s.handle in records && s.key !in busy
    requires records[s.handle].consumer == s.consumer && records[s.handle].provider == s.provider
             && records[s.handle].generation == s.generation
    ensures Consistent(records[s.handle := records[s.handle].(inFlight := records[s.handle].inFlight + 1)], nextHandle,
                       busy + {s.key}, calls[nextCall := s], nextCall + 1, orphans)
  {
    hide Guards;
    var after := calls[nextCall := s];
    forall h | h in records ensures |Guards(after, h)| == |Guards(calls, h)| + (if s.handle == h then 1 else 0) {
      GuardAdded(calls, nextCall, s, h);
    }
    forall k | k in busy + {s.key} ensures exists c :: c in after && after[c].key == k {
      if k == s.key { assert after[nextCall].key == k; } else { var c :| c in calls && calls[c].key == k; assert after[c].key == k; }
    }
  }

  lemma LeftConsistent(records: map<nat, LeaseRecord>, nextHandle: nat, busy: set<Bytes>, calls: map<nat, Suspended>,
                       nextCall: nat, orphans: set<nat>, call: nat)
    requires Consistent(records, nextHandle, busy, calls, nextCall, orphans) && call in calls
    ensures var h := calls[call].handle;
            Consistent(if h in records && records[h].inFlight > 0
                       then records[h := records[h].(inFlight := records[h].inFlight - 1)] else records,
                       nextHandle, busy - {calls[call].key}, calls - {call}, nextCall, orphans)
  {
    hide Guards;
    var h, after := calls[call].handle, calls - {call};
    HeldGuard(calls, call);
    forall g | g in records ensures |Guards(after, g)| == |Guards(calls, g)| - (if h == g then 1 else 0) {
      GuardDropped(calls, call, g);
    }
    forall k | k in busy - {calls[call].key} ensures exists c :: c in after && after[c].key == k {
      var c :| c in calls && calls[c].key == k;
      assert after[c].key == k;
    }
  }

  /** Any interleaving of calls, answers, releases, revocations and clean-ups keeps the books. */
  method AnyInterleaving(payloadLimit: nat, outputLimit: nat) returns (g: Gateway)
    ensures g.Valid()
    ensures forall c, d | c in g.calls && d in g.calls && g.calls[c].key == g.calls[d].key :: c == d
    ensures forall h | h in g.records :: g.records[h].inFlight == |Guards(g.calls, h)|
  {
    hide Guards;
    g := new Gateway(payloadLimit, outputLimit);
    g.Interleave();
  }
}
