/** Host port numbers and the search for a free one (`HostState::find_available_port`). */
module PortSearch {
  import opened Wrappers

  /** A `u16`. */
  type Port = p: int | 0 <= p < 65536

  const FIRST_UNPRIVILEGED: Port := 1024
  const UNPRIVILEGED_COUNT: nat := 64512

  predicate Unprivileged(p: Port) { FIRST_UNPRIVILEGED <= p }

  /** The k-th port the search looks at: `preferred`, then upward through the
      unprivileged ports with wraparound. */
  function Candidate(preferred: Port, k: nat): Port
    requires preferred != 0
  {
    if k == 0 then preferred
    else if preferred < 1024 then 1024 + (k - 1) % UNPRIVILEGED_COUNT
    else 1024 + (preferred - 1024 + k) % UNPRIVILEGED_COUNT
  }

  ghost predicate AllUsedBefore(used: set<Port>, preferred: Port, k: nat)
    requires preferred != 0
  {
    forall j: nat | j < k :: Candidate(preferred, j) in used
  }

  /** What the search promises about its result. */
  ghost predicate IsFirstFree(used: set<Port>, preferred: Port, r: Option<Port>) {
    match r
    case Some(p) =>
      preferred != 0 && p !in used
      && (exists k: nat :: k <= UNPRIVILEGED_COUNT && p == Candidate(preferred, k) && AllUsedBefore(used, preferred, k))
    case None =>
      preferred == 0
      || (Unprivileged(preferred) && forall q: Port | Unprivileged(q) :: q in used)
  }

  /** The search ends exactly when this holds (see `SearchEndsExactly`). */
  ghost predicate SearchEnds(used: set<Port>, preferred: Port) {
    preferred == 0 || Unprivileged(preferred) || preferred !in used
    || exists q: Port :: Unprivileged(q) && q !in used
  }

  /** One turn of the loop: `wrapping_add(1)`, then skip the privileged ports. */
  function NextPort(port: Port, preferred: Port): Port {
    var next: Port := (port + 1) % 65536;
    if next < 1024 && next != preferred then 1024 else next
  }

  /** The port the loop looks at on its n-th turn. */
  function LoopPort(preferred: Port, n: nat): Port
    requires preferred != 0
  {
    if n == 0 then preferred else NextPort(LoopPort(preferred, n - 1), preferred)
  }

  lemma ModStep(a: nat)
    ensures (a + 1) % UNPRIVILEGED_COUNT
         == if a % UNPRIVILEGED_COUNT == UNPRIVILEGED_COUNT - 1 then 0 else a % UNPRIVILEGED_COUNT + 1
  {
  }

  /** A turn of the loop moves from one candidate to the next. */
  lemma NextIsNextCandidate(preferred: Port, k: nat)
    requires preferred != 0
    ensures NextPort(Candidate(preferred, k), preferred) == Candidate(preferred, k + 1)
  {
    if preferred < 1024 {
      if k > 0 { ModStep(k - 1); }
    } else {
      ModStep(preferred - 1024 + k);
    }
  }

  /** The search comes back to an unprivileged preference after all 64,512 ports, no sooner. */
  lemma CandidatePeriod(preferred: Port, k: nat)
    requires Unprivileged(preferred) && 0 < k <= UNPRIVILEGED_COUNT
    ensures Candidate(preferred, k) == preferred <==> k == UNPRIVILEGED_COUNT
  {
  }

  /** Every unprivileged port is some candidate, so the search misses none. */
  lemma CandidatesCover(preferred: Port, q: Port) returns (k: nat)
    requires preferred != 0 && Unprivileged(q)
    ensures k <= UNPRIVILEGED_COUNT && Candidate(preferred, k) == q
    ensures Unprivileged(preferred) ==> k < UNPRIVILEGED_COUNT
  {
    if preferred < 1024 {
      k := q - 1024 + 1;
    } else if q >= preferred {
      k := q - preferred;
    } else {
      k := UNPRIVILEGED_COUNT + q - preferred;
      assert (preferred - 1024 + k) % UNPRIVILEGED_COUNT == q - 1024;
    }
  }

  lemma {:induction false} LoopPortIsCandidate(preferred: Port, n: nat)
    requires preferred != 0
    ensures LoopPort(preferred, n) == Candidate(preferred, n)
  {
    if n > 0 {
      LoopPortIsCandidate(preferred, n - 1);
      NextIsNextCandidate(preferred, n - 1);
    }
  }

  /** Turn n is the last one: its port is free, or it has come back to the preference. */
  ghost predicate EndsAt(used: set<Port>, preferred: Port, n: nat)
    requires preferred != 0
  {
    LoopPort(preferred, n) !in used || (n > 0 && LoopPort(preferred, n) == preferred)
  }

  /** `SearchEnds` is exact: the source's loop reaches a last turn if and only if it holds.
      The failing family is a used privileged preference with every unprivileged port used. */
  lemma SearchEndsExactly(used: set<Port>, preferred: Port)
    requires preferred != 0
    ensures SearchEnds(used, preferred) <==> exists n: nat :: EndsAt(used, preferred, n)
  {
    if SearchEnds(used, preferred) {
      var n: nat;
      if preferred !in used {
        n := 0;
      } else if Unprivileged(preferred) {
        n := UNPRIVILEGED_COUNT;
        CandidatePeriod(preferred, n);
      } else {
        var q: Port :| Unprivileged(q) && q !in used;
        n := CandidatesCover(preferred, q);
      }
      LoopPortIsCandidate(preferred, n);
      assert EndsAt(used, preferred, n);
    } else {
      forall n: nat ensures !EndsAt(used, preferred, n) {
        LoopPortIsCandidate(preferred, n);
      }
    }
  }

  /** Where the search does not end nothing counts as its result. */
  lemma FoundMeansEnds(used: set<Port>, preferred: Port, found: Option<Port>)
    requires IsFirstFree(used, preferred, found)
    ensures SearchEnds(used, preferred)
  {
    if found.Some? {
      var k: nat :| found.value == Candidate(preferred, k) && AllUsedBefore(used, preferred, k);
      if k > 0 {
        var turns := if preferred < 1024 then k - 1 else preferred - 1024 + k;
        assert turns >= 0 && Candidate(preferred, k) == 1024 + turns % UNPRIVILEGED_COUNT;
      }
    }
  }

  /** The specification leaves the search no choice. */
  lemma FirstFreeIsUnique(used: set<Port>, preferred: Port, r: Option<Port>, r': Option<Port>)
    requires IsFirstFree(used, preferred, r) && IsFirstFree(used, preferred, r')
    ensures r == r'
  {
  }

  /** The turn at which the search is certain to be over. */
  ghost function SearchBound(used: set<Port>, preferred: Port): (bound: nat)
    requires preferred != 0 && SearchEnds(used, preferred)
    ensures bound <= UNPRIVILEGED_COUNT
    ensures preferred in used ==> bound > 0
    ensures Unprivileged(preferred) ==> bound == UNPRIVILEGED_COUNT
    ensures !Unprivileged(preferred) ==> Candidate(preferred, bound) !in used
  {
    if Unprivileged(preferred) then UNPRIVILEGED_COUNT
    else if preferred !in used then 0
    else
      var q: Port :| Unprivileged(q) && q !in used;
      q - 1024 + 1
  }

  method FindAvailablePort<T>(used: map<Port, T>, preferred: Port) returns (r: Option<Port>)
    requires SearchEnds(used.Keys, preferred)
    ensures IsFirstFree(used.Keys, preferred, r)
  {
    if preferred == 0 {
      return None;
    }
    var port := preferred;
    ghost var k: nat := 0;
    ghost var bound := SearchBound(used.Keys, preferred);
    while port in used
      invariant k <= bound
      invariant Unprivileged(preferred) ==> k < bound
      invariant port == Candidate(preferred, k)
      invariant AllUsedBefore(used.Keys, preferred, k)
      decreases bound - k
    {
      NextIsNextCandidate(preferred, k);
      port := (port as int + 1) % 65536;
      // Privileged ports are skipped unless one was the preference.
      if port < 1024 && port != preferred {
        port := 1024;
      }
      if port == preferred {
        assert Unprivileged(preferred);
        CandidatePeriod(preferred, k + 1);
        forall q: Port | Unprivileged(q) ensures q in used {
          var j := CandidatesCover(preferred, q);
          assert j <= k;
        }
        return None;
      }
      k := k + 1;
      if Unprivileged(preferred) { CandidatePeriod(preferred, k); }
    }
    return Some(port);
  }
}
