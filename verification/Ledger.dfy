/** The in-memory immutable ledger: an append-only list of decisions and the proofs it can vouch for (pkg/ledger/client.go). */
module Ledger {
  import opened Basics
  import Decimal

  datatype Decision = Decision(
    entryType: string, agentId: string, sourceId: string, correlationId: string,
    content: seq<Byte>, inputHash: string)

  /** What `VerifyProof` reports about an entry it finds; an entry it does not find is an invalid proof. */
  datatype Proof = Proof(
    entryId: string, entryType: string, agentId: string, sourceId: string, correlationId: string,
    inputHash: string, content: seq<Byte>, chainPosition: int, writtenAt: int)

  datatype ProofReceipt = ProofReceipt(
    entryId: string, entryHash: string, entryType: string, chainPosition: int, timestamp: int, inputHash: string)

  datatype State = State(entries: seq<Decision>, proofs: map<string, Proof>, counter: nat)

  const Empty := State([], map[], 0)

  const Nul: char := 0 as char

  /** `entryHash + "\x00" + entryType`. */
  function ProofKey(entryHash: string, entryType: string): string {
    entryHash + [Nul] + entryType
  }

  datatype Kind = Recorded | Issued

  /** `hash-%d` for RecordDecision, `proof-hash-%d` for IssueProofReceipt. */
  function EntryHash(kind: Kind, n: nat): string {
    (match kind case Recorded => "hash-" case Issued => "proof-hash-") + Decimal.Digits(n)
  }

  function ProofOf(d: Decision, n: nat, at: int): Proof {
    Proof("entry-" + Decimal.Digits(n), d.entryType, d.agentId, d.sourceId, d.correlationId,
          d.inputHash, d.content, n, at)
  }

  /** Appending one decision, by either route. */
  function Appended(s: State, kind: Kind, d: Decision, at: int): State {
    var n := s.counter + 1;
    State(s.entries + [d], s.proofs[ProofKey(EntryHash(kind, n), d.entryType) := ProofOf(d, n, at)], n)
  }

  function Verified(s: State, entryHash: string, entryType: string): Option<Proof> {
    var key := ProofKey(entryHash, entryType);
    if key in s.proofs then Some(s.proofs[key]) else None
  }

  /** One entry per counter value; every proof is the proof of the entry at its chain position. */
  ghost predicate Valid(s: State) {
    && s.counter == |s.entries|
    && (forall key | key in s.proofs :: Committed(s, key))
  }

  /** The entry at this chain position was written under this hash and type. */
  ghost predicate WrittenAs(s: State, position: int, entryHash: string, entryType: string) {
    && 1 <= position <= |s.entries|
    && s.entries[position - 1].entryType == entryType
    && exists kind :: ProofKey(entryHash, entryType) == ProofKey(EntryHash(kind, position), entryType)
  }

  ghost predicate Committed(s: State, key: string)
    requires key in s.proofs
  {
    var p := s.proofs[key];
    1 <= p.chainPosition <= |s.entries| &&
    var d := s.entries[p.chainPosition - 1];
    (exists kind :: key == ProofKey(EntryHash(kind, p.chainPosition), d.entryType)) &&
    p == ProofOf(d, p.chainPosition, p.writtenAt)
  }

  lemma DigitsInjective(m: nat, n: nat)
    requires Decimal.Digits(m) == Decimal.Digits(n)
    ensures m == n
  {
    Decimal.DigitsRoundTrip(m);
    Decimal.DigitsRoundTrip(n);
  }

  lemma EntryHashInjective(k1: Kind, m: nat, k2: Kind, n: nat)
    requires EntryHash(k1, m) == EntryHash(k2, n)
    ensures k1 == k2 && m == n
  {
    assert EntryHash(k1, m)[0] == EntryHash(k2, n)[0];
    var skip := match k1 case Recorded => 5 case Issued => 11;
    assert EntryHash(k1, m)[skip..] == Decimal.Digits(m);
    assert EntryHash(k2, n)[skip..] == Decimal.Digits(n);
    DigitsInjective(m, n);
  }

  lemma EntryHashHasNoNul(kind: Kind, n: nat)
    ensures Nul !in EntryHash(kind, n)
  {}

  /** The separator splits a key back into hash and type, as long as neither hash contains it. */
  lemma ProofKeyInjective(h1: string, t1: string, h2: string, t2: string)
    requires ProofKey(h1, t1) == ProofKey(h2, t2) && Nul !in h1 && Nul !in h2
    ensures h1 == h2 && t1 == t2
  {
    var key := ProofKey(h1, t1);
    assert key[|h1|] == Nul && key[|h2|] == Nul;
    assert |h1| == |h2|;
    assert h1 == key[..|h1|] && h2 == key[..|h2|];
    assert t1 == key[|h1| + 1..] && t2 == key[|h2| + 1..];
  }

  /** A new entry never reuses a key, so no proof is ever overwritten. */
  lemma FreshKey(s: State, kind: Kind, entryType: string)
    requires Valid(s)
    ensures ProofKey(EntryHash(kind, s.counter + 1), entryType) !in s.proofs
  {
    var key := ProofKey(EntryHash(kind, s.counter + 1), entryType);
    if key in s.proofs {
      assert Committed(s, key);
      var n := s.proofs[key].chainPosition;
      var k :| key == ProofKey(EntryHash(k, n), s.entries[n - 1].entryType);
      EntryHashHasNoNul(k, n);
      EntryHashHasNoNul(kind, s.counter + 1);
      ProofKeyInjective(EntryHash(k, n), s.entries[n - 1].entryType, EntryHash(kind, s.counter + 1), entryType);
      EntryHashInjective(k, n, kind, s.counter + 1);
    }
  }

  ghost predicate Extends(s: State, t: State) {
    && s.entries <= t.entries
    && (forall key | key in s.proofs :: key in t.proofs && t.proofs[key] == s.proofs[key])
  }

  /** Appending keeps every earlier entry and every earlier proof as it was. */
  lemma AppendExtends(s: State, kind: Kind, d: Decision, at: int)
    requires Valid(s)
    ensures Valid(Appended(s, kind, d, at)) && Extends(s, Appended(s, kind, d, at))
  {
    var t := Appended(s, kind, d, at);
    var n := s.counter + 1;
    var added := ProofKey(EntryHash(kind, n), d.entryType);
    FreshKey(s, kind, d.entryType);
    forall key | key in t.proofs ensures Committed(t, key) {
      if key == added {
        assert t.entries[n - 1] == d;
      } else {
        assert Committed(s, key);
        var i := s.proofs[key].chainPosition - 1;
        assert t.entries[i] == s.entries[i];
      }
    }
  }

  /** A proof found by hash and type is the proof of the entry at its chain position. */
  lemma ProofIsOfItsEntry(s: State, entryHash: string, entryType: string)
    requires Valid(s) && Verified(s, entryHash, entryType).Some? && Nul !in entryHash
    ensures var p := Verified(s, entryHash, entryType).value;
            && WrittenAs(s, p.chainPosition, entryHash, entryType)
            && p == ProofOf(s.entries[p.chainPosition - 1], p.chainPosition, p.writtenAt)
    ensures var p := Verified(s, entryHash, entryType).value;
            var d := s.entries[p.chainPosition - 1];
            && p.entryType == d.entryType && p.correlationId == d.correlationId && p.inputHash == d.inputHash
            && p.content == d.content && p.agentId == d.agentId && p.sourceId == d.sourceId
  {
    var key := ProofKey(entryHash, entryType);
    assert Committed(s, key);
    var n := s.proofs[key].chainPosition;
    var k :| key == ProofKey(EntryHash(k, n), s.entries[n - 1].entryType);
    EntryHashHasNoNul(k, n);
    ProofKeyInjective(EntryHash(k, n), s.entries[n - 1].entryType, entryHash, entryType);
  }

  datatype Write = Write(kind: Kind, decision: Decision, at: int)

  function AppendedAll(s: State, writes: seq<Write>): State {
    if writes == [] then s
    else
      var w := writes[|writes| - 1];
      Appended(AppendedAll(s, writes[..|writes| - 1]), w.kind, w.decision, w.at)
  }

  /** Whatever is written later, a proof that verified once verifies again, with the same committed content. */
  lemma {:induction false} ProofsArePermanent(s: State, writes: seq<Write>, entryHash: string, entryType: string)
    requires Valid(s) && Verified(s, entryHash, entryType).Some?
    ensures Valid(AppendedAll(s, writes))
    ensures Verified(AppendedAll(s, writes), entryHash, entryType) == Verified(s, entryHash, entryType)
    decreases |writes|
  {
    if writes != [] {
      var front := writes[..|writes| - 1];
      ProofsArePermanent(s, front, entryHash, entryType);
      var w := writes[|writes| - 1];
      AppendExtends(AppendedAll(s, front), w.kind, w.decision, w.at);
    }
  }

  class InMemoryLedgerClient {
    var entries: seq<Decision>
    var proofs: map<string, Proof>
    var counter: nat

    function Contents(): State
      reads this
    {
      State(entries, proofs, counter)
    }

    constructor ()
      ensures Contents() == Empty && Valid(Contents())
    {
      entries, proofs, counter := [], map[], 0;
    }

    method RecordDecision(decision: Decision, now: int) returns (receipt: ProofReceipt)
      requires Valid(Contents())
      modifies this
      ensures Contents() == Appended(old(Contents()), Recorded, decision, now)
      ensures Valid(Contents()) && Extends(old(Contents()), Contents())
      ensures Verified(Contents(), receipt.entryHash, decision.entryType) == Some(ProofOf(decision, counter, now))
      ensures receipt == ProofReceipt("entry-" + Decimal.Digits(counter), EntryHash(Recorded, counter), decision.entryType,
                                      counter, now, decision.inputHash)
    {
      AppendExtends(Contents(), Recorded, decision, now);
      counter := counter + 1;
      entries := entries + [decision];
      var hash := "hash-" + Decimal.Digits(counter);
      proofs := proofs[ProofKey(hash, decision.entryType) := ProofOf(decision, counter, now)];
      receipt := ProofReceipt("entry-" + Decimal.Digits(counter), hash, decision.entryType, counter, now, decision.inputHash);
    }

    method IssueProofReceipt(decision: Decision, now: int) returns (receipt: ProofReceipt)
      requires Valid(Contents())
      modifies this
      ensures Contents() == Appended(old(Contents()), Issued, decision, now)
      ensures Valid(Contents()) && Extends(old(Contents()), Contents())
      ensures Verified(Contents(), receipt.entryHash, decision.entryType) == Some(ProofOf(decision, counter, now))
      ensures receipt == ProofReceipt("entry-" + Decimal.Digits(counter), EntryHash(Issued, counter), decision.entryType,
                                      counter, now, decision.inputHash)
    {
      AppendExtends(Contents(), Issued, decision, now);
      counter := counter + 1;
      entries := entries + [decision];
      var hash := "proof-hash-" + Decimal.Digits(counter);
      proofs := proofs[ProofKey(hash, decision.entryType) := ProofOf(decision, counter, now)];
      receipt := ProofReceipt("entry-" + Decimal.Digits(counter), hash, decision.entryType, counter, now, decision.inputHash);
    }

    /** Answers with the proof of the entry written under this hash and type. */
    method VerifyProof(entryHash: string, entryType: string) returns (r: Option<Proof>)
      ensures r == Verified(Contents(), entryHash, entryType)
      ensures Valid(Contents()) && Nul !in entryHash && r.Some? ==>
        && WrittenAs(Contents(), r.value.chainPosition, entryHash, entryType)
        && r.value == ProofOf(entries[r.value.chainPosition - 1], r.value.chainPosition, r.value.writtenAt)
    {
      if Valid(Contents()) && Nul !in entryHash && Verified(Contents(), entryHash, entryType).Some? {
        ProofIsOfItsEntry(Contents(), entryHash, entryType);
      }
      var key := ProofKey(entryHash, entryType);
      if key in proofs {
        r := Some(proofs[key]);
      } else {
        r := None;
      }
    }
  }
}
