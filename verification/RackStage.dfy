/** Staging: one record is added beside the others, or taken back. */
module RackStage {
  import opened Base
  import opened RackProtocol
  import opened RackState
  import opened RackSteps
  import opened RackMoves
  import opened Utf8

  const MAX_STRING: nat := 64 * 1024

  /** A bounded, non-empty, NUL-free UTF-8 identity. */
  ghost predicate ValidIdentity(id: Bytes) {
    id != [] && |id| <= MAX_STRING && 0 !in id && WellFormed(id)
  }

  lemma IdentityNonEmpty(id: Bytes)
    requires ValidIdentity(id)
    ensures id != []
  {
    hide WellFormed;
  }

  method CheckIdentity(id: Bytes) returns (ok: bool)
    ensures ok <==> ValidIdentity(id)
    ensures ok <==> 0 < |id| <= 65536 && 0 !in id && WellFormed(id)
  {
    if id == [] || |id| > MAX_STRING || 0 in id { return false; }
    ok := AcceptByMask(id);
  }

  ghost predicate SameButGeneration(s: State, t: State) {
    && t.depth == s.depth && t.retiring == s.retiring && t.initializing == s.initializing
    && t.starting == s.starting && t.shutting == s.shutting && t.draining == s.draining
    && t.nextGen == s.nextGen + 1 && t.initOrder == s.initOrder && s.trace <= t.trace
    && t.ledger.stack == s.ledger.stack && t.ledger.inflight == s.ledger.inflight
    && (forall k | k in s.records :: Untouched(s, t, k))
  }

  /** The record of `id` stands beside those of `s`, which are untouched; `deeds` were done to it. */
  ghost predicate Beside(s: State, t: State, id: Bytes, deeds: seq<Deed>) {
    && SameButGeneration(s, t)
    && id !in s.records && t.records.Keys == s.records.Keys + {id} && t.records[id].gen == s.nextGen
    && t.ledger.history == s.ledger.history + deeds
  }

  lemma StagedBeside(s: State, node: OrderNode, version: Version)
    requires Core(s) && node.id !in s.records && Permitted(s.ledger, Staged(s.nextGen, node.id, version))
    ensures Beside(s, StagedIn(s, node, version), node.id, [])
  {
    hide Core;
    forall k | k in s.records ensures Untouched(s, StagedIn(s, node, version), k) { RecordFacts(s, k); }
  }

  lemma CalmBeside(s: State, t: State, u: State, id: Bytes, deeds: seq<Deed>)
    requires Beside(s, t, id, deeds) && Calm(t, u) && t.records[id].phase != Starting
    ensures Beside(s, u, id, deeds) && u.records[id] == t.records[id]
  {
    assert SameButAnnounced(t.records[id], u.records[id]);
    forall k | k in s.records ensures Untouched(s, u, k) {
      assert Untouched(s, t, k) && SameButAnnounced(t.records[k], u.records[k]);
    }
  }

  lemma ApartBeside(s: State, t: State, u: State, id: Bytes, deeds: seq<Deed>, more: seq<Deed>)
    requires Beside(s, t, id, deeds) && Apart(t, u, id, more)
    ensures Beside(s, u, id, deeds + more)
  {
    forall k | k in s.records ensures Untouched(s, u, k) {
      assert Untouched(s, t, k) && Untouched(t, u, k);
    }
  }

  lemma ObtainedApart(s: State, id: Bytes, accepted: bool)
    requires Core(s) && id in s.records && Permitted(s.ledger, Obtained(s.records[id].gen, accepted))
    ensures Apart(s, ObtainedBy(s, id, accepted), id, [])
    ensures ObtainedBy(s, id, accepted).records[id] == s.records[id].(live := accepted)
    ensures s.records[id].gen in ObtainedBy(s, id, accepted).ledger.lives
    ensures ObtainedBy(s, id, accepted).ledger.lives[s.records[id].gen] == Idle(if accepted then Made else Refused)
  {
    hide Core;
    var t := ObtainedBy(s, id, accepted);
    forall k | k in s.records && k != id ensures Untouched(s, t, k) { OtherGens(s, id, k); }
  }

  /** A staged record taken back leaves the registry as it was, but for the spent generation. */
  ghost predicate TakenBack(s: State, t: State, deeds: seq<Deed>) {
    SameButGeneration(s, t) && t.records.Keys == s.records.Keys && t.ledger.history == s.ledger.history + deeds
  }

  lemma ErasedBeside(s: State, t: State, id: Bytes, deeds: seq<Deed>)
    requires Core(s) && Beside(s, t, id, deeds) && |t.deferred| == |t.deferredGens|
    ensures TakenBack(s, Erased(t, id), deeds)
  {
    hide RecordsOk, LeasesOk, TokensOk, NoticesOk, DeferredOk, Sound;
    var u := Erased(t, id);
    assert id !in s.initOrder;
    forall k | k in s.records ensures Untouched(s, u, k) { assert Untouched(s, t, k); }
  }

  lemma BesideKeepsOrder(s: State, t: State, id: Bytes, deeds: seq<Deed>)
    requires Orderly(s) && Beside(s, t, id, deeds) && t.records[id].gen in t.ledger.lives
    requires Settled(t.records[id], t.ledger.lives[t.records[id].gen], t.starting, id in t.retiring)
    ensures Orderly(t)
  {
    forall k | k in t.records
      ensures t.records[k].gen in t.ledger.lives
              && Settled(t.records[k], t.ledger.lives[t.records[k].gen], t.starting, k in t.retiring)
    {
      if k != id { assert Untouched(s, t, k); }
    }
  }

  lemma TakenBackKeepsOrder(s: State, t: State, deeds: seq<Deed>)
    requires Orderly(s) && TakenBack(s, t, deeds)
    ensures Orderly(t)
  {
    forall k | k in t.records
      ensures t.records[k].gen in t.ledger.lives
              && Settled(t.records[k], t.ledger.lives[t.records[k].gen], t.starting, k in t.retiring)
    {
      assert Untouched(s, t, k);
    }
  }

  /** A new instance borrows nothing yet. */
  lemma NewcomerFacts(s: State, id: Bytes)
    requires Core(s) && s.depth == 0 && id in s.records && s.records[id].phase == Created && !s.records[id].live
    requires s.records[id].gen in s.ledger.lives && s.ledger.lives[s.records[id].gen] == Idle(Unmade)
    ensures Permitted(s.ledger, Obtained(s.records[id].gen, true)) && Permitted(s.ledger, Obtained(s.records[id].gen, false))
    ensures NotBorrowing(s.ledger, s.records[id].gen)
  {
    hide RecordsOk, LeasesOk, TokensOk, NoticesOk, DeferredOk, OrderOk;
    AtRest(s, id);
  }
}
