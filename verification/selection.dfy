/** The problem-selection policy of `challenge`: the exclusion filter, the
    step-down over ratings, the sort by contest age and the biased index. */
module Selection {
  import opened Wrappers
  import opened Codeforces

  /** The search never goes to ratings at or below this floor. */
  const StepFloor: int := 400
  const Step: int := 100

  /** Every problem a submission list shows as attempted, compile errors aside. */
  function AttemptedNames(subs: seq<Submission>): (names: set<string>)
    ensures forall s :: s in subs && s.verdict != CompilationError ==> s.problem.name in names
    ensures forall n :: n in names ==>
              exists s :: s in subs && s.verdict != CompilationError && s.problem.name == n
  {
    if |subs| == 0 then {}
    else
      var rest := AttemptedNames(subs[1..]);
      assert forall s :: s in subs[1..] ==> s in subs;
      if subs[0].verdict != CompilationError then {subs[0].problem.name} + rest else rest
  }

  /** What a duel's problem must avoid: the names in the solved, seen and seen2 sets,
      contests written by either handle, and non-standard problems. */
  datatype Exclusions = Exclusions(solved: set<string>, seen: set<string>, seen2: set<string>,
                                   handles: seq<string>, writers: set<(ContestId, string)>,
                                   nonstandard: set<Problem>)

  predicate WrittenByHandle(c: ContestId, ex: Exclusions) {
    exists h :: h in ex.handles && (c, h) in ex.writers
  }

  /** The conjunctive filter of `get_problems` at one rating. */
  predicate Eligible(p: Problem, rating: int, ex: Exclusions) {
    && p.rating == Some(rating)
    && p.name !in ex.solved
    && p.name !in ex.seen
    && p.name !in ex.seen2
    && !WrittenByHandle(p.contestId, ex)
    && p !in ex.nonstandard
  }

  /** s is t with some entries left out and the rest in their order in t. */
  predicate IsSubsequence(s: seq<Problem>, t: seq<Problem>)
    decreases |t|
  {
    if t == [] then s == []
    else (s != [] && s[0] == t[0] && IsSubsequence(s[1..], t[1..])) || IsSubsequence(s, t[1..])
  }

  /** `get_problems(rating)`: the eligible catalog problems, in catalog order. */
  function Candidates(catalog: seq<Problem>, rating: int, ex: Exclusions): (r: seq<Problem>)
    ensures forall p :: multiset(r)[p] == (if Eligible(p, rating, ex) then multiset(catalog)[p] else 0)
    ensures forall p :: p in r <==> p in catalog && Eligible(p, rating, ex)
    ensures IsSubsequence(r, catalog)
  {
    if |catalog| == 0 then []
    else
      var rest := Candidates(catalog[1..], rating, ex);
      assert catalog == [catalog[0]] + catalog[1..];
      if Eligible(catalog[0], rating, ex) then [catalog[0]] + rest else rest
  }

  /** t is one of the ratings `range(start, 400, -100)` visits. */
  predicate IsStep(start: int, t: int) {
    StepFloor < t <= start && (start - t) % Step == 0
  }

  /** The ratings visited after `start` are the ones visited from `start - 100`. */
  lemma StepsBelow(start: int)
    ensures forall t :: IsStep(start, t) && t != start ==> IsStep(start - Step, t)
  {
  }

  /** Result of the step-down search. `Unbound` is the as-written outcome of an empty
      rating range, where the loop variable `problems` is never assigned. */
  datatype Selection = Found(rating: int, problems: seq<Problem>) | NoneLeft | Unbound

  /** The step-down loop: the first visited rating with a non-empty candidate list. */
  function StepDown(catalog: seq<Problem>, ex: Exclusions, start: int): (s: Selection)
    decreases start
    ensures !s.Unbound?
    ensures s.Found? ==> IsStep(start, s.rating) && s.problems != []
                         && s.problems == Candidates(catalog, s.rating, ex)
    ensures s.Found? ==> forall t :: IsStep(start, t) && t > s.rating ==> Candidates(catalog, t, ex) == []
    ensures s.NoneLeft? ==> forall t :: IsStep(start, t) ==> Candidates(catalog, t, ex) == []
  {
    if start <= StepFloor then NoneLeft
    else
      var here := Candidates(catalog, start, ex);
      if here != [] then Found(start, here)
      else
        var s := StepDown(catalog, ex, start - Step);
        StepsBelow(start);
        s
  }

  /** The selection as written: an empty rating range leaves `problems` unbound. */
  function SelectAsWritten(catalog: seq<Problem>, ex: Exclusions, start: int): (s: Selection)
    ensures s.Unbound? <==> start <= StepFloor
    ensures start > StepFloor ==> s == StepDown(catalog, ex, start)
  {
    if start <= StepFloor then Unbound else StepDown(catalog, ex, start)
  }

  /** The selection as intended: an empty rating range is reported like an exhausted one. */
  function Select(catalog: seq<Problem>, ex: Exclusions, start: int): (s: Selection)
    ensures !s.Unbound?
    ensures start <= StepFloor ==> s == NoneLeft
    ensures s.Found? ==> IsStep(start, s.rating) && s.problems != []
                         && forall p :: p in s.problems ==> Eligible(p, s.rating, ex)
    ensures s.NoneLeft? <==> forall t :: IsStep(start, t) ==> Candidates(catalog, t, ex) == []
  {
    var s := StepDown(catalog, ex, start);
    assert s.Found? ==> IsStep(start, s.rating) && Candidates(catalog, s.rating, ex) != [];
    s
  }

  /** The two selections differ exactly on the empty rating range. */
  lemma SelectAgreesAboveFloor(catalog: seq<Problem>, ex: Exclusions, start: int)
    ensures start > StepFloor ==> SelectAsWritten(catalog, ex, start) == Select(catalog, ex, start)
    ensures start <= StepFloor ==> SelectAsWritten(catalog, ex, start) == Unbound
                                   && Select(catalog, ex, start) == NoneLeft
  {
  }

  /** The selected problems come from the first rating of the search with any candidate,
      and each is eligible at exactly that rating. */
  lemma SelectedIsFirstNonEmpty(catalog: seq<Problem>, ex: Exclusions, start: int)
    requires Select(catalog, ex, start).Found?
    ensures var s := Select(catalog, ex, start);
            && s.problems == Candidates(catalog, s.rating, ex)
            && (forall t :: IsStep(start, t) && t > s.rating ==> Candidates(catalog, t, ex) == [])
            && (forall p :: p in s.problems ==>
                  && p in catalog && p.rating == Some(s.rating)
                  && p.name !in ex.solved && p.name !in ex.seen && p.name !in ex.seen2
                  && (forall h :: h in ex.handles ==> (p.contestId, h) !in ex.writers)
                  && p !in ex.nonstandard)
  {
  }

  // ---- sorting by contest start time (Python's stable `list.sort`) ----

  predicate SortedByStart(s: seq<Problem>) {
    forall i, j :: 0 <= i < j < |s| ==> s[i].contestStart <= s[j].contestStart
  }

  /** The subsequence of s whose contests start at time k. */
  function WithStart(s: seq<Problem>, k: int): (r: seq<Problem>)
  {
    if |s| == 0 then []
    else if s[0].contestStart == k then [s[0]] + WithStart(s[1..], k)
    else WithStart(s[1..], k)
  }

  /** Insert p before the first element whose contest starts no earlier. */
  function Insert(p: Problem, s: seq<Problem>): (r: seq<Problem>)
    requires SortedByStart(s)
    ensures SortedByStart(r)
    ensures multiset(r) == multiset(s) + multiset{p}
  {
    if |s| == 0 then [p]
    else if p.contestStart <= s[0].contestStart then [p] + s
    else
      var rest := Insert(p, s[1..]);
      assert s == [s[0]] + s[1..];
      forall q | q in rest ensures s[0].contestStart <= q.contestStart {
        assert q in multiset(rest);
      }
      [s[0]] + rest
  }

  /** Inserting p in front of the elements no earlier than it keeps equal-start order. */
  lemma {:induction false} InsertStable(p: Problem, s: seq<Problem>, k: int)
    requires SortedByStart(s)
    ensures WithStart(Insert(p, s), k)
            == (if p.contestStart == k then [p] + WithStart(s, k) else WithStart(s, k))
  {
    if |s| == 0 {
    } else if p.contestStart <= s[0].contestStart {
      assert Insert(p, s) == [p] + s;
      assert ([p] + s)[1..] == s;
    } else {
      var rest := Insert(p, s[1..]);
      assert Insert(p, s) == [s[0]] + rest;
      assert ([s[0]] + rest)[1..] == rest;
      InsertStable(p, s[1..], k);
      if s[0].contestStart == k {
        assert p.contestStart != k;
      }
    }
  }

  /** `problems.sort(key=contest start)`: ordered by start time, a permutation of the
      input, and stable: problems from contests that start together keep their order. */
  function SortByStart(s: seq<Problem>): (r: seq<Problem>)
    ensures SortedByStart(r)
    ensures multiset(r) == multiset(s)
    ensures forall k :: WithStart(r, k) == WithStart(s, k)
  {
    if |s| == 0 then []
    else
      var rest := SortByStart(s[1..]);
      assert s == [s[0]] + s[1..];
      forall k ensures WithStart(Insert(s[0], rest), k) == WithStart(s, k) {
        InsertStable(s[0], rest, k);
      }
      Insert(s[0], rest)
  }

  // ---- the biased pick ----

  /** `max(randrange(n) for _ in range(2))`, with the two draws given. */
  function ChoiceIndex(n: nat, i: nat, j: nat): (k: nat)
    requires i < n && j < n
    ensures k < n
    ensures k >= i && k >= j
    ensures k == i || k == j
  {
    if i >= j then i else j
  }

  /** Number of second draws j < m that give index k together with first draw i. */
  function Hits(n: nat, i: nat, m: nat, k: nat): nat
    requires i < n && m <= n
  {
    if m == 0 then 0
    else Hits(n, i, m - 1, k) + (if ChoiceIndex(n, i, m - 1) == k then 1 else 0)
  }

  /** Number of draw pairs (i, j) with i < m, j < n that give index k. */
  function Weight(n: nat, m: nat, k: nat): nat
    requires m <= n
  {
    if m == 0 then 0 else Weight(n, m - 1, k) + Hits(n, m - 1, n, k)
  }

  lemma {:induction false} HitsValue(n: nat, i: nat, m: nat, k: nat)
    requires i < n && m <= n
    ensures Hits(n, i, m, k) == if i < k then (if k < m then 1 else 0)
                                else if i == k then (if m <= k + 1 then m else k + 1)
                                else 0
  {
    if m > 0 {
      HitsValue(n, i, m - 1, k);
    }
  }

  lemma {:induction false} WeightValue(n: nat, m: nat, k: nat)
    requires k < n && m <= n
    ensures Weight(n, m, k) == if m <= k then m else 2 * k + 1
  {
    if m > 0 {
      WeightValue(n, m - 1, k);
      HitsValue(n, m - 1, n, k);
    }
  }

  /** Of the n*n equally likely draw pairs, exactly 2k+1 pick index k: the pick is
      biased toward the later (newer-contest) end of the sorted list. */
  lemma PickWeight(n: nat, k: nat)
    requires k < n
    ensures Weight(n, n, k) == 2 * k + 1
    ensures k + 1 < n ==> Weight(n, n, k) < Weight(n, n, k + 1)
  {
    WeightValue(n, n, k);
    if k + 1 < n {
      WeightValue(n, n, k + 1);
    }
  }
}
