/**
 The Fisher-Yates shuffle of `shuffle` in main.go. The random source is an
 oracle: `js[i]` is the value `rand.Intn(i + 1)` returned in round `i`.
 */
module FisherYates {

  import opened Seqs

  /** `js` supplies a legal draw for each of the first `n` rounds: round `i`
      draws from `0 .. i`, as `rand.Intn(i + 1)` does. */
  predicate Draws(js: seq<nat>, n: nat)
  {
    |js| >= n && forall i :: 0 <= i < n ==> js[i] <= i
  }

  /** The draws that never move anything: round `i` draws `i`. */
  function StayDraws(n: nat): (js: seq<nat>)
    ensures Draws(js, n)
  {
    seq(n, i => i)
  }

  /** Exchange the entries at `i` and `j` (the tuple assignment in the loop body). */
  function Swap<T>(s: seq<T>, i: nat, j: nat): (r: seq<T>)
    requires i < |s| && j < |s|
    ensures |r| == |s|
    ensures r[i] == s[j] && r[j] == s[i]
    ensures forall k :: 0 <= k < |s| && k != i && k != j ==> r[k] == s[k]
    ensures multiset(r) == multiset(s)
  {
    s[i := s[j]][j := s[i]]
  }

  /** The first `n` rounds of the loop. */
  function ShuffleRounds<T>(s: seq<T>, js: seq<nat>, n: nat): (r: seq<T>)
    requires n <= |s| && Draws(js, n)
    ensures |r| == |s|
    ensures multiset(r) == multiset(s)
    decreases n
  {
    if n == 0 then s else Swap(ShuffleRounds(s, js, n - 1), n - 1, js[n - 1])
  }

  /** `shuffle(&s)`: one round per position, front to back. */
  function Shuffle<T>(s: seq<T>, js: seq<nat>): (r: seq<T>)
    requires Draws(js, |s|)
    ensures |r| == |s|
    ensures multiset(r) == multiset(s)
  {
    ShuffleRounds(s, js, |s|)
  }

  /** A shuffle is a permutation, so it keeps the set of elements and, for a
      sequence without repetitions, keeps it without repetitions. */
  lemma ShufflePermutes<T>(s: seq<T>, js: seq<nat>)
    requires Draws(js, |s|)
    ensures Elems(Shuffle(s, js)) == Elems(s)
    ensures Distinct(s) ==> Distinct(Shuffle(s, js))
  {
    var r := Shuffle(s, js);
    assert forall x :: x in r <==> x in multiset(r);
    assert forall x :: x in s <==> x in multiset(s);
    if Distinct(s) {
      PermutationKeepsDistinct(s, r);
    }
  }

  /** Drawing `i` in every round `i` leaves the sequence as it was. */
  lemma {:induction false} StayDrawsKeepOrder<T>(s: seq<T>, n: nat)
    requires n <= |s|
    ensures ShuffleRounds(s, StayDraws(|s|), n) == s
    decreases n
  {
    if n > 0 {
      StayDrawsKeepOrder(s, n - 1);
      assert StayDraws(|s|)[n - 1] == n - 1;
    }
  }
}
