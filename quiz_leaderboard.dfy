/**
 * The leaderboard orders a quiz's participants with a comparator: by score,
 * highest first, or by completion time, earliest first (a missing time counts
 * as 0); any other choice keeps the stored order. `Array.prototype.sort` is
 * stable (ECMA-262, from the 2019 edition on), so entries the comparator
 * calls equal keep their relative order. The sort works on a copy, so the
 * input list is left as it was; here that is a function returning a new
 * sequence.
 *
 * A comparator of the form `key(a) - key(b)` makes the sort an ascending
 * stable sort on `key`; `SortKey` is that key for each choice, and `Sort` is a
 * stable insertion sort on it.
 */
module QuizLeaderboard {
  import opened JsSupport

  datatype Participant = Participant(id: string, name: string, score: int, quizId: string, completedAt: Option<int>)

  const ByScore: string := "score"
  const ByTime: string := "time"

  /** `a.completedAt || 0`. */
  function CompletedAtOrZero(p: Participant): (t: int)
    ensures p.completedAt.None? ==> t == 0
    ensures p.completedAt.Some? ==> t == p.completedAt.value
  {
    if p.completedAt.None? then 0 else p.completedAt.value
  }

  /** The three behaviours of the comparator, chosen by the `sortBy` string. */
  datatype Order = HighestScore | EarliestTime | Unordered

  function OrderOf(sortBy: string): (o: Order)
    ensures o == HighestScore <==> sortBy == ByScore
    ensures o == EarliestTime <==> sortBy == ByTime
  {
    if sortBy == ByScore then HighestScore
    else if sortBy == ByTime then EarliestTime
    else Unordered
  }

  /**
   * The key whose ascending order the comparator gives: `b.score - a.score`
   * compares negated scores, `timeA - timeB` compares times, and `0` makes every
   * pair equal.
   */
  function SortKey(order: Order, p: Participant): int
  {
    match order
    case HighestScore => -p.score
    case EarliestTime => CompletedAtOrZero(p)
    case Unordered => 0
  }

  /** The comparator: negative when `a` goes first, zero when the two are tied. */
  function Compare(sortBy: string, a: Participant, b: Participant): (c: int)
    ensures c == SortKey(OrderOf(sortBy), a) - SortKey(OrderOf(sortBy), b)
  {
    if sortBy == ByScore then b.score - a.score
    else if sortBy == ByTime then CompletedAtOrZero(a) - CompletedAtOrZero(b)
    else 0
  }

  predicate Sorted(order: Order, s: seq<Participant>)
  {
    forall i, j :: 0 <= i < j < |s| ==> SortKey(order, s[i]) <= SortKey(order, s[j])
  }

  /** The entries of `s` whose key is `k`, in their order in `s`. */
  function WithKey(order: Order, s: seq<Participant>, k: int): seq<Participant>
  {
    if s == [] then []
    else WithKey(order, s[..|s| - 1], k) + (if SortKey(order, s[|s| - 1]) == k then [s[|s| - 1]] else [])
  }

  /** Inserts `x` into a sorted sequence after every entry whose key is at most its own. */
  function InsertSorted(order: Order, s: seq<Participant>, x: Participant): (r: seq<Participant>)
    ensures |r| == |s| + 1
    ensures multiset(r) == multiset(s) + multiset{x}
  {
    if s == [] || SortKey(order, s[|s| - 1]) <= SortKey(order, x) then
      s + [x]
    else
      assert s == s[..|s| - 1] + [s[|s| - 1]];
      InsertSorted(order, s[..|s| - 1], x) + [s[|s| - 1]]
  }

  predicate AllAtMost(order: Order, s: seq<Participant>, b: int)
  {
    forall i :: 0 <= i < |s| ==> SortKey(order, s[i]) <= b
  }

  lemma {:induction false} InsertSortedBound(order: Order, s: seq<Participant>, x: Participant, b: int)
    requires AllAtMost(order, s, b) && SortKey(order, x) <= b
    ensures AllAtMost(order, InsertSorted(order, s, x), b)
  {
    if !(s == [] || SortKey(order, s[|s| - 1]) <= SortKey(order, x)) {
      var init := s[..|s| - 1];
      assert AllAtMost(order, init, b) by {
        forall i | 0 <= i < |init| ensures SortKey(order, init[i]) <= b {
          assert init[i] == s[i];
        }
      }
      InsertSortedBound(order, init, x, b);
    }
  }

  /** Inserting into a sorted sequence keeps it sorted. */
  lemma {:induction false} InsertSortedIsSorted(order: Order, s: seq<Participant>, x: Participant)
    requires Sorted(order, s)
    ensures Sorted(order, InsertSorted(order, s, x))
  {
    if s == [] || SortKey(order, s[|s| - 1]) <= SortKey(order, x) {
      assert AllAtMost(order, s, SortKey(order, x)) by {
        forall i | 0 <= i < |s| ensures SortKey(order, s[i]) <= SortKey(order, x) {
          if i < |s| - 1 { assert SortKey(order, s[i]) <= SortKey(order, s[|s| - 1]); }
        }
      }
      AppendSorted(order, s, x);
    } else {
      var init := s[..|s| - 1];
      var y := s[|s| - 1];
      assert Sorted(order, init) by {
        forall i, j | 0 <= i < j < |init| ensures SortKey(order, init[i]) <= SortKey(order, init[j]) {
          assert init[i] == s[i] && init[j] == s[j];
        }
      }
      assert AllAtMost(order, init, SortKey(order, y)) by {
        forall i | 0 <= i < |init| ensures SortKey(order, init[i]) <= SortKey(order, y) {
          assert init[i] == s[i];
        }
      }
      InsertSortedIsSorted(order, init, x);
      var ins := InsertSorted(order, init, x);
      InsertSortedBound(order, init, x, SortKey(order, y));
      AppendSorted(order, ins, y);
      assert InsertSorted(order, s, x) == ins + [y];
    }
  }

  /** A sorted sequence stays sorted when an entry whose key bounds them all is appended. */
  lemma AppendSorted(order: Order, s: seq<Participant>, x: Participant)
    requires Sorted(order, s) && AllAtMost(order, s, SortKey(order, x))
    ensures Sorted(order, s + [x])
  {
    var r := s + [x];
    forall i, j | 0 <= i < j < |r| ensures SortKey(order, r[i]) <= SortKey(order, r[j]) {
      assert r[i] == s[i];
      if j < |s| { assert r[j] == s[j]; }
    }
  }

  /** `[...participants].sort(comparator)`: a stable sort on `SortKey`. */
  function Sort(order: Order, s: seq<Participant>): (r: seq<Participant>)
    ensures |r| == |s| && multiset(r) == multiset(s)
    ensures Sorted(order, r)
  {
    if s == [] then []
    else
      assert s == s[..|s| - 1] + [s[|s| - 1]];
      var sorted := Sort(order, s[..|s| - 1]);
      InsertSortedIsSorted(order, sorted, s[|s| - 1]);
      InsertSorted(order, sorted, s[|s| - 1])
  }

  /** Inserting `x` adds it to the end of its own key's run and leaves every other run alone. */
  lemma {:induction false} InsertSortedRuns(order: Order, s: seq<Participant>, x: Participant, k: int)
    ensures WithKey(order, InsertSorted(order, s, x), k)
            == WithKey(order, s, k) + (if SortKey(order, x) == k then [x] else [])
  {
    if s == [] || SortKey(order, s[|s| - 1]) <= SortKey(order, x) {
      AppendOne(order, s, x, k);
    } else {
      var init := s[..|s| - 1];
      InsertSortedRuns(order, init, x, k);
      InsertBeforeLast(order, init, s[|s| - 1], x, k);
      assert s == init + [s[|s| - 1]];
    }
  }

  /** The step of `InsertSortedRuns` where `x` goes in before the last entry `y`, whose key is larger. */
  lemma InsertBeforeLast(order: Order, init: seq<Participant>, y: Participant, x: Participant, k: int)
    requires SortKey(order, y) > SortKey(order, x)
    requires WithKey(order, InsertSorted(order, init, x), k)
             == WithKey(order, init, k) + (if SortKey(order, x) == k then [x] else [])
    ensures WithKey(order, InsertSorted(order, init + [y], x), k)
            == WithKey(order, init + [y], k) + (if SortKey(order, x) == k then [x] else [])
  {
    InsertSortedPastLast(order, init, y, x);
    var ins := InsertSorted(order, init, x);
    AppendOne(order, ins, y, k);
    AppendOne(order, init, y, k);
    if SortKey(order, x) == k {
      calc {
        WithKey(order, ins + [y], k);
        WithKey(order, ins, k);
        WithKey(order, init, k) + [x];
        WithKey(order, init + [y], k) + [x];
      }
    } else {
      calc {
        WithKey(order, ins + [y], k);
        WithKey(order, ins, k) + (if SortKey(order, y) == k then [y] else []);
        WithKey(order, init, k) + (if SortKey(order, y) == k then [y] else []);
        WithKey(order, init + [y], k);
      }
    }
  }

  /** Inserting below a larger last entry keeps that entry last. */
  lemma InsertSortedPastLast(order: Order, init: seq<Participant>, y: Participant, x: Participant)
    requires SortKey(order, y) > SortKey(order, x)
    ensures InsertSorted(order, init + [y], x) == InsertSorted(order, init, x) + [y]
  {
    var s := init + [y];
    assert s[..|s| - 1] == init && s[|s| - 1] == y;
  }

  /** Appending one entry adds it to its key's run only. */
  lemma AppendOne(order: Order, s: seq<Participant>, x: Participant, k: int)
    ensures WithKey(order, s + [x], k) == WithKey(order, s, k) + (if SortKey(order, x) == k then [x] else [])
  {
    assert (s + [x])[..|s|] == s;
  }

  /**
   * Stability: for every key, the entries with that key appear in the result
   * in exactly the order they had in the input.
   */
  lemma {:induction false} SortIsStable(order: Order, s: seq<Participant>, k: int)
    ensures WithKey(order, Sort(order, s), k) == WithKey(order, s, k)
  {
    if s != [] {
      var init := s[..|s| - 1];
      SortIsStable(order, init, k);
      InsertSortedRuns(order, Sort(order, init), s[|s| - 1], k);
    }
  }

  lemma {:induction false} WithKeyAll(order: Order, s: seq<Participant>, k: int)
    requires forall i :: 0 <= i < |s| ==> SortKey(order, s[i]) == k
    ensures WithKey(order, s, k) == s
  {
    if s != [] {
      WithKeyAll(order, s[..|s| - 1], k);
    }
  }

  /** `sortParticipants(participants, sortBy)`: sorts a copy, leaving `participants` as it was. */
  function SortParticipants(participants: seq<Participant>, sortBy: string): (r: seq<Participant>)
    ensures |r| == |participants| && multiset(r) == multiset(participants)
    ensures Sorted(OrderOf(sortBy), r)
  {
    Sort(OrderOf(sortBy), participants)
  }

  /** Any `sortBy` other than `'score'` and `'time'` leaves the order unchanged. */
  lemma OtherSortKeepsOrder(sortBy: string, s: seq<Participant>)
    requires sortBy != ByScore && sortBy != ByTime
    ensures SortParticipants(s, sortBy) == s
  {
    var r := Sort(Unordered, s);
    SortIsStable(Unordered, s, 0);
    WithKeyAll(Unordered, s, 0);
    WithKeyAll(Unordered, r, 0);
  }

  /**
   * `sortParticipants(participants, 'score')`: the same participants, highest
   * score first, and participants with equal scores in their stored order.
   */
  lemma SortByScore(s: seq<Participant>)
    ensures var r := SortParticipants(s, ByScore);
            && multiset(r) == multiset(s)
            && (forall i, j :: 0 <= i < j < |r| ==> r[i].score >= r[j].score)
            && forall n :: WithKey(HighestScore, r, n) == WithKey(HighestScore, s, n)
  {
    var r := Sort(HighestScore, s);
    assert forall i, j :: 0 <= i < j < |r| ==> SortKey(HighestScore, r[i]) <= SortKey(HighestScore, r[j]);
    forall n ensures WithKey(HighestScore, r, n) == WithKey(HighestScore, s, n) {
      SortIsStable(HighestScore, s, n);
    }
  }

  /**
   * `sortParticipants(participants, 'time')`: the same participants, earliest
   * completion first, and equal times in their stored order.
   */
  lemma SortByTime(s: seq<Participant>)
    ensures var r := SortParticipants(s, ByTime);
            && multiset(r) == multiset(s)
            && (forall i, j :: 0 <= i < j < |r| ==> CompletedAtOrZero(r[i]) <= CompletedAtOrZero(r[j]))
            && forall t :: WithKey(EarliestTime, r, t) == WithKey(EarliestTime, s, t)
  {
    var r := Sort(EarliestTime, s);
    assert forall i, j :: 0 <= i < j < |r| ==> SortKey(EarliestTime, r[i]) <= SortKey(EarliestTime, r[j]);
    forall t ensures WithKey(EarliestTime, r, t) == WithKey(EarliestTime, s, t) {
      SortIsStable(EarliestTime, s, t);
    }
  }

  /**
   * The list shown after loading: the stored participants sorted by score. The
   * stored list itself is not changed.
   */
  function LoadedOrder(stored: seq<Participant>): (r: seq<Participant>)
    ensures multiset(r) == multiset(stored)
    ensures forall i, j :: 0 <= i < j < |r| ==> r[i].score >= r[j].score
  {
    SortByScore(stored);
    SortParticipants(stored, ByScore)
  }
}
