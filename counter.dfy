/**
 * The sequence counter of backend/utils/getNextCode.js: one counter document per key,
 * `getNextSequence` increments it (creating it on first use), `peekNextSequence` only reads.
 */
module Counter {

  /** What `getNextSequence(key)` returns against the counters `seqs`. */
  function NextValue(seqs: map<string, nat>, key: string): nat {
    if key in seqs then seqs[key] + 1 else 1
  }

  /** The counters after one `getNextSequence(key)`. */
  function Advance(seqs: map<string, nat>, key: string): map<string, nat> {
    seqs[key := NextValue(seqs, key)]
  }

  /** The values that `count` successive `getNextSequence(key)` calls return. */
  function NextRun(seqs: map<string, nat>, key: string, count: nat): seq<nat>
    decreases count
  {
    if count == 0 then [] else [NextValue(seqs, key)] + NextRun(Advance(seqs, key), key, count - 1)
  }

  /** The counters after `count` successive `getNextSequence(key)` calls. */
  function AdvanceBy(seqs: map<string, nat>, key: string, count: nat): map<string, nat>
    decreases count
  {
    if count == 0 then seqs else AdvanceBy(Advance(seqs, key), key, count - 1)
  }

  /** A new key starts at 1; an existing one continues from its stored value. */
  lemma NextValueStartsAtOne(seqs: map<string, nat>, key: string)
    ensures NextValue(seqs, key) >= 1
    ensures key !in seqs ==> NextValue(seqs, key) == 1
    ensures key in seqs ==> NextValue(seqs, key) == seqs[key] + 1
  {
  }

  /** Each call returns strictly more than the previous one on the same key. */
  lemma NextStrictlyIncreasing(seqs: map<string, nat>, key: string)
    ensures NextValue(Advance(seqs, key), key) == NextValue(seqs, key) + 1
  {
  }

  /** Advancing one key leaves every other key's next value alone. */
  lemma AdvanceOtherKeys(seqs: map<string, nat>, key: string, other: string)
    requires other != key
    ensures NextValue(Advance(seqs, key), other) == NextValue(seqs, other)
  {
  }

  /**
   * `count` successive calls return `count` consecutive numbers starting at the peeked value,
   * and leave the key's counter at the last of them; other keys are not touched.
   */
  lemma {:induction false} NextRunConsecutive(seqs: map<string, nat>, key: string, count: nat)
    ensures |NextRun(seqs, key, count)| == count
    ensures forall i :: 0 <= i < count ==> NextRun(seqs, key, count)[i] == NextValue(seqs, key) + i
    ensures count > 0 ==> AdvanceBy(seqs, key, count) == seqs[key := NextValue(seqs, key) + count - 1]
    ensures count == 0 ==> AdvanceBy(seqs, key, count) == seqs
    decreases count
  {
    if count > 0 {
      var s1 := Advance(seqs, key);
      NextRunConsecutive(s1, key, count - 1);
      assert NextValue(s1, key) == NextValue(seqs, key) + 1;
      var r := NextRun(seqs, key, count);
      forall i | 0 <= i < count
        ensures r[i] == NextValue(seqs, key) + i
      {
        if i > 0 {
          assert r[i] == NextRun(s1, key, count - 1)[i - 1];
        }
      }
      if count - 1 > 0 {
        assert s1[key := NextValue(s1, key) + count - 2] == seqs[key := NextValue(seqs, key) + count - 1];
      }
    }
  }

  /** The counter store: the `counters` collection, one `seq` per `key`. */
  class CounterStore {
    var seqs: map<string, nat>

    constructor ()
      ensures seqs == map[]
    {
      seqs := map[];
    }

    /** `peekNextSequence(key)`: the stored value plus one, 1 for a new key; a pure read. */
    function Peek(key: string): nat
      reads this
    {
      NextValue(seqs, key)
    }

    /**
     * `getNextSequence(key)`: upsert with `$inc: {seq: 1}` and return the new value, which is
     * exactly what `Peek(key)` announced; no other key changes.
     */
    method Next(key: string) returns (n: nat)
      modifies this
      ensures n == old(Peek(key))
      ensures seqs == old(seqs)[key := n]
      ensures forall k :: k != key ==> Peek(k) == old(Peek(k))
    {
      if key in seqs {
        n := seqs[key] + 1;
      } else {
        n := 1;
      }
      seqs := seqs[key := n];
    }
  }
}
