/**
 * `calculateStats` (worker/src/poker-room.ts): the statistics a reveal announces.
 * Votes are digit strings read as decimal numbers; the average is kept in exact
 * tenths (Math.round(average * 10) on a non-negative value rounds halves upward) and
 * the median as an exact rational.
 */
module VoteStats {
  import opened Wrappers
  import opened Text
  import opened RoomTypes

  const UnknownCard: string := "?"
  const CoffeeCard: string := "\U{2615}"

  /** A vote enters the statistics when it is set, not empty, and neither "?" nor the coffee card. */
  predicate Counts(vote: Option<string>)
  {
    Truthy(vote) && vote.value != UnknownCard && vote.value != CoffeeCard
  }

  predicate AllDigits(s: string)
  {
    forall i :: 0 <= i < |s| ==> '0' <= s[i] <= '9'
  }

  predicate IsNumeral(s: string)
  {
    |s| > 0 && AllDigits(s)
  }

  function DigitValue(c: char): nat
    requires '0' <= c <= '9'
  {
    c as int - '0' as int
  }

  function Digit(d: nat): (c: char)
    requires d < 10
    ensures '0' <= c <= '9' && DigitValue(c) == d
  {
    ('0' as int + d) as char
  }

  /** `parseInt(s)` on a string of decimal digits. */
  function ParseNumeral(s: string): nat
    requires AllDigits(s)
  {
    if s == [] then 0 else 10 * ParseNumeral(s[..|s| - 1]) + DigitValue(s[|s| - 1])
  }

  /** The decimal numeral of `n`, as a card shows it. */
  function Numeral(n: nat): (s: string)
    ensures IsNumeral(s)
  {
    if n < 10 then [Digit(n)] else Numeral(n / 10) + [Digit(n % 10)]
  }

  /** Reading a card's numeral gives back its number. */
  lemma {:induction false} ParseNumeralOfNumeral(n: nat)
    ensures ParseNumeral(Numeral(n)) == n
  {
    if n >= 10 {
      var s := Numeral(n);
      assert s[..|s| - 1] == Numeral(n / 10);
      ParseNumeralOfNumeral(n / 10);
    }
  }

  /** Every vote that would be counted is a numeral: the cards this model reads. */
  predicate NumericCards(users: seq<User>)
  {
    forall i :: 0 <= i < |users| && Counts(users[i].vote) ==> IsNumeral(users[i].vote.value)
  }

  /** The counted votes, as numbers, in join order (the filter and map of `calculateStats`). */
  function CountedVotes(users: seq<User>): (votes: seq<nat>)
    requires NumericCards(users)
    ensures |votes| <= |users|
  {
    if users == [] then []
    else
      assert NumericCards(users[1..]) by {
        forall i | 0 <= i < |users[1..]| && Counts(users[1..][i].vote)
          ensures IsNumeral(users[1..][i].vote.value)
        {
          assert users[1..][i] == users[i + 1];
        }
      }
      (if Counts(users[0].vote) then [ParseNumeral(users[0].vote.value)] else [])
      + CountedVotes(users[1..])
  }

  lemma NumericCardsConcat(a: seq<User>, b: seq<User>)
    ensures NumericCards(a + b) <==> NumericCards(a) && NumericCards(b)
  {
    if NumericCards(a + b) {
      forall k | 0 <= k < |a| ensures (a + b)[k] == a[k] { }
      forall k | 0 <= k < |b| ensures (a + b)[|a| + k] == b[k] { }
    }
    if NumericCards(a) && NumericCards(b) {
      forall k | 0 <= k < |a + b| && Counts((a + b)[k].vote)
        ensures IsNumeral((a + b)[k].vote.value)
      {
        if k < |a| { assert (a + b)[k] == a[k]; } else { assert (a + b)[k] == b[k - |a|]; }
      }
    }
  }

  /** The counted votes of two rosters in a row are those of the first, then those of the second. */
  lemma {:induction false} CountedVotesConcat(a: seq<User>, b: seq<User>)
    requires NumericCards(a) && NumericCards(b)
    ensures NumericCards(a + b)
    ensures CountedVotes(a + b) == CountedVotes(a) + CountedVotes(b)
    decreases |a|
  {
    NumericCardsConcat(a, b);
    if a == [] {
      assert a + b == b;
    } else {
      assert a == [a[0]] + a[1..];
      NumericCardsConcat([a[0]], a[1..]);
      CountedVotesConcat(a[1..], b);
      assert (a + b)[1..] == a[1..] + b;
    }
  }

  lemma UncountedHead(u: User, rest: seq<User>)
    requires !Counts(u.vote) && NumericCards(rest)
    ensures NumericCards([u] + rest)
    ensures CountedVotes([u] + rest) == CountedVotes(rest)
  {
    NumericCardsConcat([u], rest);
    assert ([u] + rest)[1..] == rest;
  }

  /** Taking out a user whose vote is not counted, from anywhere in the roster, leaves the counted votes. */
  lemma UncountedVoteDropped(users: seq<User>, a: seq<User>, here: User, b: seq<User>)
    requires users == a + ([here] + b)
    requires NumericCards(users) && !Counts(here.vote)
    ensures NumericCards(a + b)
    ensures CountedVotes(users) == CountedVotes(a + b)
  {
    NumericCardsConcat(a, [here] + b);
    NumericCardsConcat([here], b);
    NumericCardsConcat(a, b);
    CountedVotesConcat(a, [here] + b);
    UncountedHead(here, b);
    CountedVotesConcat(a, b);
  }

  /** A user whose vote is null, empty, "?" or the coffee card contributes nothing to the statistics. */
  lemma UncountedVoteIsIgnored(users: seq<User>, i: nat)
    requires NumericCards(users) && i < |users| && !Counts(users[i].vote)
    ensures NumericCards(users[..i] + users[i + 1..])
    ensures CalculateStats(users) == CalculateStats(users[..i] + users[i + 1..])
  {
    assert users == users[..i] + ([users[i]] + users[i + 1..]);
    UncountedVoteDropped(users, users[..i], users[i], users[i + 1..]);
  }

  predicate Sorted(s: seq<nat>)
  {
    forall i, j :: 0 <= i < j < |s| ==> s[i] <= s[j]
  }

  /** A value no larger than the head of an ascending sequence extends it at the front. */
  lemma SortedCons(a: nat, t: seq<nat>)
    requires Sorted(t) && (t == [] || a <= t[0])
    ensures Sorted([a] + t)
  {
    forall i, j | 0 <= i < j < |[a] + t| ensures ([a] + t)[i] <= ([a] + t)[j] {
      if i > 0 {
        assert ([a] + t)[i] == t[i - 1] && ([a] + t)[j] == t[j - 1];
      } else {
        assert ([a] + t)[j] == t[j - 1];
      }
    }
  }

  /** Places `x` into an ascending sequence. */
  function Insert(x: nat, s: seq<nat>): (r: seq<nat>)
    requires Sorted(s)
    ensures Sorted(r) && multiset(r) == multiset(s) + multiset{x}
    ensures |r| > 0 && r[0] == (if s == [] || x <= s[0] then x else s[0])
  {
    if s == [] || x <= s[0] then
      SortedCons(x, s);
      [x] + s
    else
      var tail := s[1..];
      assert Sorted(tail) by {
        forall i, j | 0 <= i < j < |tail| ensures tail[i] <= tail[j] { assert tail[i] == s[i + 1] && tail[j] == s[j + 1]; }
      }
      var t := Insert(x, tail);
      assert tail != [] ==> s[0] <= tail[0] by { if tail != [] { assert tail[0] == s[1]; } }
      SortedCons(s[0], t);
      assert s == [s[0]] + tail;
      [s[0]] + t
  }

  /** The ascending order of the votes (`[...votes].sort((a, b) => a - b)`). */
  function SortAscending(s: seq<nat>): (r: seq<nat>)
    ensures Sorted(r) && multiset(r) == multiset(s) && |r| == |s|
  {
    if s == [] then []
    else
      assert s == [s[0]] + s[1..];
      Insert(s[0], SortAscending(s[1..]))
  }

  function Sum(xs: seq<nat>): nat
  {
    if xs == [] then 0 else xs[0] + Sum(xs[1..])
  }

  function Min(xs: seq<nat>): (m: nat)
    requires |xs| > 0
    ensures m in xs && forall i :: 0 <= i < |xs| ==> m <= xs[i]
  {
    if |xs| == 1 then xs[0]
    else
      var m := Min(xs[1..]);
      if xs[0] <= m then xs[0] else m
  }

  function Max(xs: seq<nat>): (m: nat)
    requires |xs| > 0
    ensures m in xs && forall i :: 0 <= i < |xs| ==> xs[i] <= m
  {
    if |xs| == 1 then xs[0]
    else
      var m := Max(xs[1..]);
      if xs[0] >= m then xs[0] else m
  }

  /** The middle value of an ascending sequence, or the mean of its two middle values. */
  function Median(sorted: seq<nat>): real
    requires |sorted| > 0
  {
    var n := |sorted|;
    if n % 2 == 0 then (sorted[n / 2 - 1] + sorted[n / 2]) as real / 2.0
    else sorted[n / 2] as real
  }

  /** `r` is ten times `sum / n` to the nearest integer, a half going up. */
  predicate RoundsToTenths(r: int, sum: nat, n: nat)
  {
    (2 * r - 1) * n <= 20 * sum < (2 * r + 1) * n
  }

  /**
   * Ten times `sum / n`, rounded to the nearest integer with halves going up:
   * `Math.round((sum / n) * 10)`, in exact arithmetic.
   */
  function RoundTenths(sum: nat, n: nat): (r: int)
    requires n > 0
    ensures RoundsToTenths(r, sum, n)
  {
    var q := (20 * sum + n) / (2 * n);
    assert q * (2 * n) <= 20 * sum + n < q * (2 * n) + 2 * n;
    assert (2 * q - 1) * n == q * (2 * n) - n;
    assert (2 * q + 1) * n == q * (2 * n) + n;
    q
  }

  /** How many of `s` satisfy `p`. */
  function CountWhere(s: seq<nat>, p: nat -> bool): nat
  {
    if s == [] then 0 else (if p(s[0]) then 1 else 0) + CountWhere(s[1..], p)
  }

  function LeP(m: real): nat -> bool
  {
    x => x as real <= m
  }

  function GeP(m: real): nat -> bool
  {
    x => x as real >= m
  }

  /** How many votes are at most `m`, and at least `m`. */
  function AtMost(s: seq<nat>, m: real): nat
  {
    CountWhere(s, LeP(m))
  }

  function AtLeast(s: seq<nat>, m: real): nat
  {
    CountWhere(s, GeP(m))
  }

  lemma {:induction false} CountWhereConcat(a: seq<nat>, b: seq<nat>, p: nat -> bool)
    ensures CountWhere(a + b, p) == CountWhere(a, p) + CountWhere(b, p)
  {
    if a == [] {
      assert a + b == b;
    } else {
      assert (a + b)[1..] == a[1..] + b;
      CountWhereConcat(a[1..], b, p);
    }
  }

  lemma {:induction false} CountWhereAll(s: seq<nat>, p: nat -> bool)
    requires forall i :: 0 <= i < |s| ==> p(s[i])
    ensures CountWhere(s, p) == |s|
  {
    if s != [] {
      CountWhereAll(s[1..], p);
    }
  }

  /** Taking out the element at `j` leaves one fewer of it. */
  lemma RemoveAtMultiset(b: seq<nat>, j: nat)
    requires j < |b|
    ensures multiset(b[..j] + b[j + 1..]) == multiset(b) - multiset{b[j]}
  {
    var pre, post := b[..j], b[j + 1..];
    assert b == pre + [b[j]] + post;
    assert multiset(b) == multiset(pre) + multiset{b[j]} + multiset(post);
  }

  /** Taking out the element at `j` counts one fewer if it satisfies `p`. */
  lemma RemoveAtCount(b: seq<nat>, j: nat, p: nat -> bool)
    requires j < |b|
    ensures CountWhere(b, p) == CountWhere(b[..j] + b[j + 1..], p) + (if p(b[j]) then 1 else 0)
  {
    var pre, mid, post := b[..j], [b[j]], b[j + 1..];
    assert b == (pre + mid) + post;
    assert CountWhere(mid, p) == if p(b[j]) then 1 else 0 by {
      assert mid[1..] == [];
    }
    CountWhereConcat(pre + mid, post, p);
    CountWhereConcat(pre, mid, p);
    CountWhereConcat(pre, post, p);
  }

  /** Counting does not depend on the order of the votes. */
  lemma {:induction false} CountWherePermutation(a: seq<nat>, b: seq<nat>, p: nat -> bool)
    requires multiset(a) == multiset(b)
    ensures CountWhere(a, p) == CountWhere(b, p)
  {
    if a == [] {
      assert |multiset(b)| == 0;
    } else {
      assert a[0] in multiset(b);
      var j :| 0 <= j < |b| && b[j] == a[0];
      RemoveAtMultiset(b, j);
      RemoveAtCount(b, j, p);
      assert a == [a[0]] + a[1..];
      assert multiset(a[1..]) == multiset(a) - multiset{a[0]};
      CountWherePermutation(a[1..], b[..j] + b[j + 1..], p);
    }
  }

  /** In an ascending sequence the first half (rounded up) lies at or below the median. */
  lemma LowerHalfAtMostMedian(s: seq<nat>)
    requires Sorted(s) && |s| > 0
    ensures 2 * AtMost(s, Median(s)) >= |s|
  {
    var n, m := |s|, Median(s);
    var low := (n + 1) / 2;
    var le := LeP(m);
    assert s[low - 1] as real <= m;
    var front := s[..low];
    forall i | 0 <= i < low ensures le(front[i]) {
      assert front[i] == s[i] && s[i] <= s[low - 1];
    }
    CountWhereAll(front, le);
    assert s == front + s[low..];
    CountWhereConcat(front, s[low..], le);
  }

  /** In an ascending sequence the second half (rounded up) lies at or above the median. */
  lemma UpperHalfAtLeastMedian(s: seq<nat>)
    requires Sorted(s) && |s| > 0
    ensures 2 * AtLeast(s, Median(s)) >= |s|
  {
    var n, m := |s|, Median(s);
    var high := n / 2;
    var ge := GeP(m);
    assert s[high] as real >= m;
    var back := s[high..];
    forall i | 0 <= i < n - high ensures ge(back[i]) {
      assert back[i] == s[high + i] && s[high] <= s[high + i];
    }
    CountWhereAll(back, ge);
    assert s == s[..high] + back;
    CountWhereConcat(s[..high], back, ge);
  }

  /** In an ascending sequence at least half the values lie on each side of the median. */
  lemma MedianSplitsSorted(s: seq<nat>)
    requires Sorted(s) && |s| > 0
    ensures 2 * AtMost(s, Median(s)) >= |s| && 2 * AtLeast(s, Median(s)) >= |s|
  {
    LowerHalfAtMostMedian(s);
    UpperHalfAtLeastMedian(s);
  }

  /** Bounds on a sum from bounds on its terms. */
  lemma {:induction false} SumBetween(xs: seq<nat>, lo: nat, hi: nat)
    requires forall i :: 0 <= i < |xs| ==> lo <= xs[i] <= hi
    ensures |xs| * lo <= Sum(xs) <= |xs| * hi
  {
    if xs != [] {
      SumBetween(xs[1..], lo, hi);
      assert |xs| * lo == (|xs| - 1) * lo + lo;
      assert |xs| * hi == (|xs| - 1) * hi + hi;
    }
  }

  /** Every element of a permutation of `v` lies between the least and the greatest of `v`. */
  lemma PermutationBetween(v: seq<nat>, s: seq<nat>, k: nat)
    requires |v| > 0 && multiset(s) == multiset(v) && k < |s|
    ensures Min(v) <= s[k] <= Max(v)
  {
    assert s[k] in multiset(s);
    var i :| 0 <= i < |v| && v[i] == s[k];
  }

  lemma SortedEnds(v: seq<nat>)
    requires |v| > 0
    ensures var s := SortAscending(v); |s| == |v| && Min(v) <= s[0] && s[|s| - 1] <= Max(v)
  {
    var s := SortAscending(v);
    PermutationBetween(v, s, 0);
    PermutationBetween(v, s, |s| - 1);
  }

  /** The median of an ascending sequence lies between its first and last values. */
  lemma MedianWithin(s: seq<nat>)
    requires Sorted(s) && |s| > 0
    ensures s[0] as real <= Median(s) <= s[|s| - 1] as real
  {
    var n := |s|;
    assert s[0] <= s[n / 2] <= s[n - 1];
    if n % 2 == 0 {
      assert s[0] <= s[n / 2 - 1] <= s[n - 1];
    }
  }

  lemma MulMono(a: int, b: int, n: nat)
    requires a <= b
    ensures a * n <= b * n
  {
    assert b * n - a * n == (b - a) * n;
  }

  lemma TenthsAtLeast(r: int, sum: nat, n: nat, lo: nat)
    requires n > 0 && RoundsToTenths(r, sum, n) && n * lo <= sum
    ensures 10 * lo <= r
  {
    assert (20 * lo) * n == 20 * (n * lo);
    if r < 10 * lo {
      MulMono(2 * r + 1, 20 * lo, n);
      assert false;
    }
  }

  lemma TenthsAtMost(r: int, sum: nat, n: nat, hi: nat)
    requires n > 0 && RoundsToTenths(r, sum, n) && sum <= n * hi
    ensures r <= 10 * hi
  {
    assert (20 * hi + 1) * n == 20 * (n * hi) + n;
    if r > 10 * hi {
      MulMono(20 * hi + 1, 2 * r - 1, n);
      assert false;
    }
  }

  /** The rounded average lies between any lower and upper bound of the votes. */
  lemma RoundTenthsBetween(sum: nat, n: nat, lo: nat, hi: nat)
    requires n > 0 && n * lo <= sum <= n * hi
    ensures 10 * lo <= RoundTenths(sum, n) <= 10 * hi
  {
    var r := RoundTenths(sum, n);
    TenthsAtLeast(r, sum, n, lo);
    TenthsAtMost(r, sum, n, hi);
  }

  /** Only one number of tenths rounds a given average. */
  lemma RoundsToTenthsUnique(r1: int, r2: int, sum: nat, n: nat)
    requires n > 0 && RoundsToTenths(r1, sum, n) && RoundsToTenths(r2, sum, n)
    ensures r1 == r2
  {
    if r1 < r2 {
      MulMono(2 * r1 + 1, 2 * r2 - 1, n);
    } else if r2 < r1 {
      MulMono(2 * r2 + 1, 2 * r1 - 1, n);
    }
  }

  lemma AverageBetween(votes: seq<nat>)
    requires |votes| > 0
    ensures 10 * Min(votes) <= RoundTenths(Sum(votes), |votes|) <= 10 * Max(votes)
  {
    SumBetween(votes, Min(votes), Max(votes));
    RoundTenthsBetween(Sum(votes), |votes|, Min(votes), Max(votes));
  }

  lemma MedianBetween(votes: seq<nat>)
    requires |votes| > 0
    ensures Min(votes) as real <= Median(SortAscending(votes)) <= Max(votes) as real
  {
    SortedEnds(votes);
    MedianWithin(SortAscending(votes));
  }

  lemma MedianSplitsVotes(votes: seq<nat>)
    requires |votes| > 0
    ensures var med := Median(SortAscending(votes));
      2 * AtMost(votes, med) >= |votes| && 2 * AtLeast(votes, med) >= |votes|
  {
    var sorted := SortAscending(votes);
    var med := Median(sorted);
    SortedEnds(votes);
    MedianSplitsSorted(sorted);
    CountWherePermutation(sorted, votes, LeP(med));
    CountWherePermutation(sorted, votes, GeP(med));
  }

  lemma SortedTail(a: seq<nat>)
    requires Sorted(a) && a != []
    ensures Sorted(a[1..])
  {
    forall p, q | 0 <= p < q < |a[1..]| ensures a[1..][p] <= a[1..][q] {
      assert a[1..][p] == a[p + 1] && a[1..][q] == a[q + 1];
    }
  }

  /** The head of an ascending sequence is no larger than any of its elements. */
  lemma SortedHeadLeast(a: seq<nat>, x: nat)
    requires Sorted(a) && x in multiset(a)
    ensures a != [] && a[0] <= x
  {
    var i :| 0 <= i < |a| && a[i] == x;
  }

  /** Sequences with the same elements and the same head have tails with the same elements. */
  lemma SameHeadTails(a: seq<nat>, b: seq<nat>)
    requires a != [] && b != [] && a[0] == b[0] && multiset(a) == multiset(b)
    ensures multiset(a[1..]) == multiset(b[1..])
  {
    assert a == [a[0]] + a[1..] && b == [b[0]] + b[1..];
    assert multiset(a[1..]) == multiset(a) - multiset{a[0]};
    assert multiset(b[1..]) == multiset(b) - multiset{b[0]};
  }

  lemma HeadTailEqual(a: seq<nat>, b: seq<nat>)
    requires a != [] && b != [] && a[0] == b[0] && a[1..] == b[1..]
    ensures a == b
  {
    assert a == [a[0]] + a[1..] && b == [b[0]] + b[1..];
  }

  /** Two ascending sequences with the same elements are the same sequence: the sorted order is unique. */
  lemma {:induction false} SortedUnique(a: seq<nat>, b: seq<nat>)
    requires Sorted(a) && Sorted(b) && multiset(a) == multiset(b)
    ensures a == b
    decreases |a|
  {
    assert |a| == |multiset(a)| == |multiset(b)| == |b|;
    if a != [] {
      SortedHeadLeast(b, a[0]);
      SortedHeadLeast(a, b[0]);
      SameHeadTails(a, b);
      SortedTail(a);
      SortedTail(b);
      SortedUnique(a[1..], b[1..]);
      HeadTailEqual(a, b);
    }
  }

  /** Whatever ascending order of the votes one takes, the median is its middle value or middle pair. */
  lemma MedianFormula(s: seq<nat>)
    requires |s| > 0
    ensures |s| % 2 == 1 ==> Median(s) == s[|s| / 2] as real
    ensures |s| % 2 == 0 ==> 2.0 * Median(s) == (s[|s| / 2 - 1] + s[|s| / 2]) as real
  {
  }

  lemma MedianOfSortedOrder(votes: seq<nat>, s: seq<nat>)
    requires |votes| > 0 && Sorted(s) && multiset(s) == multiset(votes)
    ensures |s| == |votes|
    ensures |s| % 2 == 1 ==> Median(SortAscending(votes)) == s[|s| / 2] as real
    ensures |s| % 2 == 0 ==> 2.0 * Median(SortAscending(votes)) == (s[|s| / 2 - 1] + s[|s| / 2]) as real
  {
    var t := SortAscending(votes);
    SortedUnique(s, t);
    assert |s| == |multiset(s)| == |multiset(votes)| == |votes|;
    MedianFormula(t);
  }

  lemma MedianOfEverySortedOrder(votes: seq<nat>)
    requires |votes| > 0
    ensures forall s: seq<nat> :: Sorted(s) && multiset(s) == multiset(votes) ==>
      && |s| == |votes|
      && (|s| % 2 == 1 ==> Median(SortAscending(votes)) == s[|s| / 2] as real)
      && (|s| % 2 == 0 ==> 2.0 * Median(SortAscending(votes)) == (s[|s| / 2 - 1] + s[|s| / 2]) as real)
  {
    forall s: seq<nat> | Sorted(s) && multiset(s) == multiset(votes)
      ensures |s| == |votes|
      ensures |s| % 2 == 1 ==> Median(SortAscending(votes)) == s[|s| / 2] as real
      ensures |s| % 2 == 0 ==> 2.0 * Median(SortAscending(votes)) == (s[|s| / 2 - 1] + s[|s| / 2]) as real
    {
      MedianOfSortedOrder(votes, s);
    }
  }

  /**
   * `calculateStats`: with no counted vote, all zero; otherwise the count, the
   * average rounded to one decimal, and the median of the counted votes.
   */
  function CalculateStats(users: seq<User>): (st: Stats)
    requires NumericCards(users)
    ensures st.total == |CountedVotes(users)|
    ensures st.total == 0 ==> st == Stats(0, 0.0, 0)
    ensures st.total > 0 ==> var v := CountedVotes(users);
      && RoundsToTenths(st.averageTenths, Sum(v), st.total)
      && 10 * Min(v) <= st.averageTenths <= 10 * Max(v)
      && Min(v) as real <= st.median <= Max(v) as real
      && 2 * AtMost(v, st.median) >= st.total && 2 * AtLeast(v, st.median) >= st.total
    ensures st.total > 0 ==> forall s: seq<nat> :: Sorted(s) && multiset(s) == multiset(CountedVotes(users)) ==>
      && |s| == st.total
      && (|s| % 2 == 1 ==> st.median == s[|s| / 2] as real)
      && (|s| % 2 == 0 ==> 2.0 * st.median == (s[|s| / 2 - 1] + s[|s| / 2]) as real)
  {
    var votes := CountedVotes(users);
    if |votes| == 0 then Stats(0, 0.0, 0)
    else
      AverageBetween(votes);
      MedianBetween(votes);
      MedianSplitsVotes(votes);
      MedianOfEverySortedOrder(votes);
      Stats(RoundTenths(Sum(votes), |votes|), Median(SortAscending(votes)), |votes|)
  }

  /** A participant holding `card`, for the worked examples below. */
  function Voter(id: string, card: string): User
  {
    User(id, id, Some(card), true, "")
  }

  lemma ParseDigit(c: char)
    requires '0' <= c <= '9'
    ensures AllDigits([c]) && ParseNumeral([c]) == DigitValue(c)
  {
    assert [c][..0] == [];
  }

  /** A participant holding a one-digit card adds that digit in front of the others' votes. */
  lemma DigitVoterFirst(id: string, c: char, rest: seq<User>)
    requires '0' <= c <= '9' && NumericCards(rest)
    ensures NumericCards([Voter(id, [c])] + rest)
    ensures CountedVotes([Voter(id, [c])] + rest) == [DigitValue(c)] + CountedVotes(rest)
  {
    ParseDigit(c);
    var users := [Voter(id, [c])] + rest;
    NumericCardsConcat([Voter(id, [c])], rest);
    assert users[1..] == rest;
  }

  /** When the counted votes are already ascending, the statistics read straight off them. */
  lemma StatsOfAscendingVotes(users: seq<User>, v: seq<nat>)
    requires NumericCards(users) && CountedVotes(users) == v && |v| > 0 && Sorted(v)
    ensures CalculateStats(users).total == |v|
    ensures RoundsToTenths(CalculateStats(users).averageTenths, Sum(v), |v|)
    ensures |v| % 2 == 1 ==> CalculateStats(users).median == v[|v| / 2] as real
    ensures |v| % 2 == 0 ==> 2.0 * CalculateStats(users).median == (v[|v| / 2 - 1] + v[|v| / 2]) as real
  {
    MedianOfSortedOrder(v, v);
  }

  /** Statistics whose count, rounding and doubled median are known are determined by them. */
  lemma StatsPinned(st: Stats, avg: int, twiceMedian: real, sum: nat, n: nat)
    requires n > 0 && st.total == n && 2.0 * st.median == twiceMedian
    requires RoundsToTenths(st.averageTenths, sum, n) && RoundsToTenths(avg, sum, n)
    ensures st == Stats(avg, twiceMedian / 2.0, n)
  {
    RoundsToTenthsUnique(st.averageTenths, avg, sum, n);
  }

  lemma OneTwoThreeFiveAscending()
    ensures Sorted([1, 2, 3, 5]) && Sum([1, 2, 3, 5]) == 11
  {
  }

  lemma FiveEightAscending()
    ensures Sorted([5, 8]) && Sum([5, 8]) == 13
  {
  }

  const OneTwoThreeFive: seq<User> := [Voter("a", "1"), Voter("b", "2"), Voter("c", "3"), Voter("d", "5")]
  const FiveEight: seq<User> := [Voter("a", "5"), Voter("b", "8")]

  lemma OneTwoThreeFiveVotes()
    ensures NumericCards(OneTwoThreeFive) && CountedVotes(OneTwoThreeFive) == [1, 2, 3, 5]
  {
    DigitVoterFirst("d", '5', []);
    DigitVoterFirst("c", '3', [Voter("d", "5")]);
    DigitVoterFirst("b", '2', [Voter("c", "3"), Voter("d", "5")]);
    DigitVoterFirst("a", '1', [Voter("b", "2"), Voter("c", "3"), Voter("d", "5")]);
  }

  lemma FiveEightVotes()
    ensures NumericCards(FiveEight) && CountedVotes(FiveEight) == [5, 8]
  {
    DigitVoterFirst("b", '8', []);
    DigitVoterFirst("a", '5', [Voter("b", "8")]);
  }

  /** Cards 1, 2, 3 and 5: average 2.8, kept as 28 tenths; median 2.5; four votes. */
  lemma StatsOfOneTwoThreeFive()
    ensures NumericCards(OneTwoThreeFive) && CalculateStats(OneTwoThreeFive) == Stats(28, 2.5, 4)
  {
    var v: seq<nat> := [1, 2, 3, 5];
    OneTwoThreeFiveVotes();
    OneTwoThreeFiveAscending();
    StatsOfAscendingVotes(OneTwoThreeFive, v);
    StatsPinned(CalculateStats(OneTwoThreeFive), 28, 5.0, 11, 4);
  }


  /** Cards 5 and 8: average 6.5, kept as 65 tenths; median 6.5; two votes. */
  lemma StatsOfFiveEight()
    ensures NumericCards(FiveEight) && CalculateStats(FiveEight) == Stats(65, 6.5, 2)
  {
    var v: seq<nat> := [5, 8];
    FiveEightVotes();
    FiveEightAscending();
    StatsOfAscendingVotes(FiveEight, v);
    StatsPinned(CalculateStats(FiveEight), 65, 13.0, 13, 2);
  }

}
