/** Allocation of 16-bit peer ids by a cyclic search from a moving start. */
module PeerIds {
  const ID_COUNT := 0x1_0000
  const TRIES := 0xFFFF

  function Candidate(cur: nat, k: nat): nat { (cur + k) % ID_COUNT }

  /** `id` is the first id, cyclically from `cur`, that is not taken; one id is never tried. */
  predicate FirstFree(cur: nat, taken: set<nat>, id: nat) {
    exists k | 0 <= k < TRIES ::
      id == Candidate(cur, k) && id !in taken && forall j | 0 <= j < k :: Candidate(cur, j) in taken
  }

  /** The first `n` candidates. */
  function Window(cur: nat, n: nat): set<nat> { set k | 0 <= k < n :: Candidate(cur, k) }

  lemma CandidatesDiffer(cur: nat, j: nat, k: nat)
    requires j < k < ID_COUNT
    ensures Candidate(cur, j) != Candidate(cur, k)
  {
  }

  lemma {:induction false} WindowSize(cur: nat, n: nat)
    requires n <= ID_COUNT
    ensures |Window(cur, n)| == n
  {
    if n > 0 {
      WindowSize(cur, n - 1);
      assert Window(cur, n) == Window(cur, n - 1) + {Candidate(cur, n - 1)};
      forall j | 0 <= j < n - 1 ensures Candidate(cur, j) != Candidate(cur, n - 1) {
        CandidatesDiffer(cur, j, n - 1);
      }
    } else {
      assert Window(cur, 0) == {};
    }
  }

  lemma {:induction false} SubsetSize<T>(a: set<T>, b: set<T>)
    requires a <= b
    ensures |a| <= |b|
    decreases |a|
  {
    if a != {} {
      var x :| x in a;
      SubsetSize(a - {x}, b - {x});
    }
  }

  lemma {:induction false} SearchFinds(cur: nat, taken: set<nat>, k: nat)
    requires k <= TRIES && forall j | 0 <= j < k :: Candidate(cur, j) in taken
    requires exists j | 0 <= j < TRIES :: Candidate(cur, j) !in taken
    ensures exists id :: FirstFree(cur, taken, id)
    decreases TRIES - k
  {
    if k < TRIES && Candidate(cur, k) in taken {
      SearchFinds(cur, taken, k + 1);
    } else {
      assert k < TRIES;
      assert FirstFree(cur, taken, Candidate(cur, k));
    }
  }

  /** By pigeonhole the search succeeds whenever fewer than 65535 ids are taken. */
  lemma Available(cur: nat, taken: set<nat>)
    requires |taken| < TRIES
    ensures exists id :: FirstFree(cur, taken, id)
  {
    if forall j | 0 <= j < TRIES :: Candidate(cur, j) in taken {
      WindowSize(cur, TRIES);
      SubsetSize(Window(cur, TRIES), taken);
      assert false;
    }
    SearchFinds(cur, taken, 0);
  }

  /** The result is unique, a valid id, and fresh. */
  lemma FirstFreeUnique(cur: nat, taken: set<nat>, a: nat, b: nat)
    requires FirstFree(cur, taken, a) && FirstFree(cur, taken, b)
    ensures a == b && a < ID_COUNT && a !in taken
  {
    var k :| 0 <= k < TRIES && a == Candidate(cur, k) && forall j | 0 <= j < k :: Candidate(cur, j) in taken;
    var m :| 0 <= m < TRIES && b == Candidate(cur, m) && forall j | 0 <= j < m :: Candidate(cur, j) in taken;
    assert !(k < m) && !(m < k);
  }
}
