/** The `AtomicU64` counters that hand out connection ids, control-peer ids and temp-file
    numbers: `fetch_add(1)` wraps at 2^64. */
module IdCounter {

  const WRAP: nat := 0x1_0000_0000_0000_0000

  /** What the `k`-th `fetch_add` (from 0) returns on a counter that starts at `first`. */
  function IdAt(first: nat, k: nat): nat {
    (first + k) % WRAP
  }

  lemma IdsDiffer(first: nat, i: nat, j: nat)
    requires i < j < i + WRAP
    ensures IdAt(first, i) != IdAt(first, j)
  {
    var a, b := first + i, first + j;
    if a % WRAP == b % WRAP {
      assert b - a == WRAP * (b / WRAP - a / WRAP);
      Multiple(b / WRAP - a / WRAP);
    }
  }

  lemma Multiple(q: int)
    ensures WRAP * q <= 0 || WRAP * q >= WRAP
  {
  }

  /** `n` numbers drawn from one counter are pairwise different exactly up to 2^64 draws. */
  lemma DistinctIff(first: nat, n: nat)
    ensures (forall i, j :: 0 <= i < j < n ==> IdAt(first, i) != IdAt(first, j)) <==> n <= WRAP
  {
    if n <= WRAP {
      forall i, j | 0 <= i < j < n ensures IdAt(first, i) != IdAt(first, j) {
        IdsDiffer(first, i, j);
      }
    } else {
      assert IdAt(first, 0) == IdAt(first, WRAP) by {
        assert (first + WRAP) % WRAP == first % WRAP;
      }
    }
  }
}
