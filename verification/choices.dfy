/**
 Answer-choice generation (`getFallacyChoices` in main.go): the correct kind,
 the first two of its related kinds after shuffling them in place, and the first
 key of a shuffled key order that is not already chosen, all shuffled together.
 */
module Choices {

  import opened Wrappers
  import opened Seqs
  import opened Content
  import opened FisherYates

  /** The run-time panic of `related[0]` / `related[1]` on a short or missing entry. */
  datatype Panic = IndexOutOfRange

  /** The choices offered, and the table afterwards: the shuffle works on the slice
      stored in the table, so the entry's related list stays reordered. */
  datatype Outcome = Outcome(choices: seq<string>, table: Table)

  /** `order` lists every key of `t` exactly once, as ranging over a Go map does. */
  predicate Enumerates(order: seq<string>, t: Table)
  {
    Distinct(order) && (forall k :: k in order ==> k in t) && (forall k :: k in t ==> k in order)
  }

  /** Some enumeration of the table's keys starts with `first`: Go leaves the
      iteration order of a map unspecified, so any such order can occur. */
  lemma EnumerationFrom(t: Table, first: string) returns (order: seq<string>)
    requires first in t
    ensures Enumerates(order, t) && |order| >= 1 && order[0] == first
  {
    var rest := SetToSeq(t.Keys - {first});
    order := [first] + rest;
    assert forall k :: k in order <==> k == first || k in Elems(rest);
  }

  lemma {:induction false} SetToSeq(s: set<string>) returns (r: seq<string>)
    ensures Distinct(r) && Elems(r) == s
    decreases |s|
  {
    if s == {} {
      r := [];
    } else {
      var x :| x in s;
      var rest := SetToSeq(s - {x});
      r := [x] + rest;
      assert x !in Elems(rest);
      assert forall k :: k in r <==> k == x || k in Elems(rest);
    }
  }

  /** The first position at or after `from` whose key is not in `chosen` (the inner
      search loop of the choice builder). */
  function FirstAbsent<T(==)>(keys: seq<T>, chosen: seq<T>, from: nat): (r: Option<nat>)
    requires from <= |keys|
    ensures r.Some? ==> from <= r.value < |keys| && keys[r.value] !in chosen
    ensures r.Some? ==> forall j :: from <= j < r.value ==> keys[j] in chosen
    ensures r.None? <==> forall j :: from <= j < |keys| ==> keys[j] in chosen
    decreases |keys| - from
  {
    if from == |keys| then None
    else if keys[from] !in chosen then Some(from)
    else FirstAbsent(keys, chosen, from + 1)
  }

  /** `picked` extended by the first of `keys` it lacks, if there is one. */
  function AddFirstAbsent<T(==)>(picked: seq<T>, keys: seq<T>): (result: seq<T>)
    ensures |picked| <= |result| <= |picked| + 1 && result[..|picked|] == picked
    ensures |result| == |picked| + 1 <==> exists j :: 0 <= j < |keys| && keys[j] !in picked
    ensures |result| == |picked| + 1 ==> result[|picked|] in keys && result[|picked|] !in picked
  {
    match FirstAbsent(keys, picked, 0)
    case Some(i) => picked + [keys[i]]
    case None => picked
  }

  /** The related list of `name` after the in-place shuffle; a missing key reads as
      Go's zero value, an empty list. */
  function ShuffledRelated(t: Table, name: string, relDraws: seq<nat>): (related: seq<string>)
    requires name in t ==> Draws(relDraws, |t[name].related|)
    ensures name in t ==> multiset(related) == multiset(t[name].related)
  {
    if name in t then Shuffle(t[name].related, relDraws) else []
  }

  /** `getFallacyChoices(name)`, with every `rand.Intn` result and the map's
      iteration order supplied as oracles. */
  function GetFallacyChoices(t: Table, name: string, relDraws: seq<nat>, keyOrder: seq<string>,
                             keyDraws: seq<nat>, resultDraws: seq<nat>): (r: Result<Outcome, Panic>)
    requires name in t ==> Draws(relDraws, |t[name].related|)
    requires Enumerates(keyOrder, t) && Draws(keyDraws, |keyOrder|)
    requires Draws(resultDraws, 4)
    ensures r.Failure? <==> name !in t || |t[name].related| < 2
  {
    var related := ShuffledRelated(t, name, relDraws);
    if |related| < 2 then Failure(IndexOutOfRange)
    else
      var t' := t[name := t[name].(related := related)];
      var picked := [name, related[0], related[1]];
      var keys := Shuffle(keyOrder, keyDraws);
      Success(Outcome(Shuffle(AddFirstAbsent(picked, keys), resultDraws), t'))
  }

  /** The only change to the table is the new order of `name`'s related list,
      which holds the same kinds as before. */
  lemma TableOnlyReordered(t: Table, name: string, relDraws: seq<nat>, keyOrder: seq<string>,
                           keyDraws: seq<nat>, resultDraws: seq<nat>)
    requires name in t ==> Draws(relDraws, |t[name].related|)
    requires Enumerates(keyOrder, t) && Draws(keyDraws, |keyOrder|)
    requires Draws(resultDraws, 4)
    ensures var r := GetFallacyChoices(t, name, relDraws, keyOrder, keyDraws, resultDraws);
      r.Success? ==>
        && r.value.table.Keys == t.Keys
        && (forall k :: k in t && k != name ==> r.value.table[k] == t[k])
        && r.value.table[name] == t[name].(related := r.value.table[name].related)
        && multiset(r.value.table[name].related) == multiset(t[name].related)
  {
    TableAfter(t, name, relDraws, keyOrder, keyDraws, resultDraws);
    if name in t {
      EntryReordered(t, name, ShuffledRelated(t, name, relDraws));
    }
  }

  lemma EntryReordered(t: Table, name: string, related: seq<string>)
    requires name in t && multiset(related) == multiset(t[name].related)
    ensures var t' := t[name := t[name].(related := related)];
      && t'.Keys == t.Keys
      && (forall k :: k in t && k != name ==> t'[k] == t[k])
      && t'[name] == t[name].(related := t'[name].related)
      && multiset(t'[name].related) == multiset(t[name].related)
  {
    var t' := t[name := t[name].(related := related)];
    assert t'.Keys == t.Keys;
  }

  /** The table a successful run returns. Kept as a
      lemma of its own so that the proofs using it do not unfold the whole run. */
  lemma TableAfter(t: Table, name: string, relDraws: seq<nat>, keyOrder: seq<string>,
                   keyDraws: seq<nat>, resultDraws: seq<nat>)
    requires name in t ==> Draws(relDraws, |t[name].related|)
    requires Enumerates(keyOrder, t) && Draws(keyDraws, |keyOrder|)
    requires Draws(resultDraws, 4)
    ensures var r := GetFallacyChoices(t, name, relDraws, keyOrder, keyDraws, resultDraws);
      r.Success? ==> name in t && r.value.table == t[name := t[name].(related := ShuffledRelated(t, name, relDraws))]
  {
  }

  /** Reordering one entry's related list keeps a well-formed table well formed. */
  lemma ReorderKeepsTableOk(t: Table, name: string, related: seq<string>)
    requires TableOk(t) && name in t
    requires multiset(related) == multiset(t[name].related)
    ensures TableOk(t[name := t[name].(related := related)])
  {
    var t' := t[name := t[name].(related := related)];
    assert t'.Keys == t.Keys;
    forall k | k in t' ensures EntryOk(t', k) {
      assert EntryOk(t, k);
      if k == name {
        assert forall x :: x in related <==> x in multiset(t[name].related);
        assert |related| == |t[name].related|;
        PermutationKeepsDistinct(t[name].related, related);
      }
    }
  }

  /** Four distinct keys cannot all be among three picked names. */
  lemma SomeKeyAbsent<T>(keys: seq<T>, picked: seq<T>)
    requires Distinct(keys) && |keys| >= 4 && |picked| == 3
    ensures FirstAbsent(keys, picked, 0).Some?
  {
    if FirstAbsent(keys, picked, 0).None? {
      assert Elems(keys) <= Elems(picked);
      SubsetCard(Elems(keys), Elems(picked));
      ElemsCard(picked);
      DistinctCard(keys);
    }
  }

  /** What every use of choice generation below assumes: a well-formed table, a key
      of it, and legal oracles. */
  predicate Inputs(t: Table, name: string, relDraws: seq<nat>, keyOrder: seq<string>,
                   keyDraws: seq<nat>, resultDraws: seq<nat>)
  {
    && TableOk(t) && name in t
    && Draws(relDraws, |t[name].related|)
    && Enumerates(keyOrder, t) && Draws(keyDraws, |keyOrder|)
    && Draws(resultDraws, 4)
  }

  /** The successful run spelled out step by step. Kept as a
      lemma of its own so that the proofs using it do not unfold the whole run. */
  lemma Unfold(t: Table, name: string, relDraws: seq<nat>, keyOrder: seq<string>,
               keyDraws: seq<nat>, resultDraws: seq<nat>)
    requires Inputs(t, name, relDraws, keyOrder, keyDraws, resultDraws)
    requires |t[name].related| >= 2
    ensures var related := ShuffledRelated(t, name, relDraws);
      && |related| == |t[name].related|
      && GetFallacyChoices(t, name, relDraws, keyOrder, keyDraws, resultDraws)
         == Success(Outcome(Shuffle(AddFirstAbsent([name, related[0], related[1]], Shuffle(keyOrder, keyDraws)),
                                    resultDraws),
                            t[name := t[name].(related := related)]))
  {
  }

  /** On a well-formed table, choice generation never panics, yields four distinct
      keys, and leaves the table well formed. */
  lemma ChoicesSpec(t: Table, name: string, relDraws: seq<nat>, keyOrder: seq<string>,
                    keyDraws: seq<nat>, resultDraws: seq<nat>)
    requires Inputs(t, name, relDraws, keyOrder, keyDraws, resultDraws)
    ensures var r := GetFallacyChoices(t, name, relDraws, keyOrder, keyDraws, resultDraws);
      && r.Success?
      && TableOk(r.value.table)
      && |r.value.choices| == 4
      && Distinct(r.value.choices)
      && (forall x :: x in r.value.choices ==> x in t)
  {
    var related := ShuffledRelated(t, name, relDraws);
    PickedDistinct(t, name, relDraws);
    Unfold(t, name, relDraws, keyOrder, keyDraws, resultDraws);
    ReorderKeepsTableOk(t, name, related);
    var picked := [name, related[0], related[1]];
    var keys := Shuffle(keyOrder, keyDraws);
    KeysDistinct(t, keyOrder, keyDraws);
    AddedChoice(picked, keys, resultDraws);
    var choices := Shuffle(AddFirstAbsent(picked, keys), resultDraws);
    forall x | x in choices ensures x in t {
      assert x in picked || x in keys;
    }
  }

  /** The choices contain `name` and the first two related kinds in their new order,
      both taken from the entry's related list. */
  lemma ChoicesHoldPicked(t: Table, name: string, relDraws: seq<nat>, keyOrder: seq<string>,
                          keyDraws: seq<nat>, resultDraws: seq<nat>)
    requires Inputs(t, name, relDraws, keyOrder, keyDraws, resultDraws)
    ensures var r := GetFallacyChoices(t, name, relDraws, keyOrder, keyDraws, resultDraws);
      && r.Success?
      && var rel := r.value.table[name].related;
      && |rel| >= 2
      && name in r.value.choices
      && rel[0] in r.value.choices && rel[0] in t[name].related
      && rel[1] in r.value.choices && rel[1] in t[name].related
  {
    var related := ShuffledRelated(t, name, relDraws);
    PickedDistinct(t, name, relDraws);
    Unfold(t, name, relDraws, keyOrder, keyDraws, resultDraws);
    var picked := [name, related[0], related[1]];
    KeysDistinct(t, keyOrder, keyDraws);
    AddedChoice(picked, Shuffle(keyOrder, keyDraws), resultDraws);
  }

  /** The fourth choice is the first key of the shuffled key order that is none of
      the three picked kinds; nothing else excludes it, so it may be a related kind. */
  lemma FourthChoiceFirstAbsent(t: Table, name: string, relDraws: seq<nat>, keyOrder: seq<string>,
                                keyDraws: seq<nat>, resultDraws: seq<nat>)
    requires Inputs(t, name, relDraws, keyOrder, keyDraws, resultDraws)
    ensures var r := GetFallacyChoices(t, name, relDraws, keyOrder, keyDraws, resultDraws);
      && r.Success?
      && var rel := r.value.table[name].related;
      && var keys := Shuffle(keyOrder, keyDraws);
      && |rel| >= 2
      && exists i :: 0 <= i < |keys|
           && keys[i] in r.value.choices && keys[i] != name && keys[i] != rel[0] && keys[i] != rel[1]
           && forall j :: 0 <= j < i ==> keys[j] in [name, rel[0], rel[1]]
  {
    var related := ShuffledRelated(t, name, relDraws);
    PickedDistinct(t, name, relDraws);
    Unfold(t, name, relDraws, keyOrder, keyDraws, resultDraws);
    var picked := [name, related[0], related[1]];
    KeysDistinct(t, keyOrder, keyDraws);
    AddedChoice(picked, Shuffle(keyOrder, keyDraws), resultDraws);
  }

  /** The correct kind and the first two related kinds after the shuffle are three
      different keys. */
  lemma PickedDistinct(t: Table, name: string, relDraws: seq<nat>)
    requires TableOk(t) && name in t
    requires Draws(relDraws, |t[name].related|)
    ensures var related := ShuffledRelated(t, name, relDraws);
      && multiset(related) == multiset(t[name].related)
      && |related| >= 2
      && related[0] in t[name].related && related[1] in t[name].related
      && related[0] in t && related[1] in t
      && Distinct([name, related[0], related[1]])
  {
    var related := ShuffledRelated(t, name, relDraws);
    assert EntryOk(t, name);
    ShufflePermutes(t[name].related, relDraws);
    assert related[0] in Elems(t[name].related) && related[1] in Elems(t[name].related);
  }

  /** The shuffled key order still lists every key once, and there are at least four. */
  lemma KeysDistinct(t: Table, keyOrder: seq<string>, keyDraws: seq<nat>)
    requires TableOk(t)
    requires Enumerates(keyOrder, t) && Draws(keyDraws, |keyOrder|)
    ensures var keys := Shuffle(keyOrder, keyDraws);
      Distinct(keys) && |keys| >= 4 && forall k :: k in keys ==> k in t
  {
    ShufflePermutes(keyOrder, keyDraws);
    DistinctCard(keyOrder);
    assert Elems(keyOrder) == t.Keys;
  }

  /** Adding the first absent key to three distinct names and shuffling gives four
      distinct names: the three, plus the first key not among them. */
  lemma AddedChoice<T>(picked: seq<T>, keys: seq<T>, resultDraws: seq<nat>)
    requires |picked| == 3 && Distinct(picked)
    requires Distinct(keys) && |keys| >= 4
    requires Draws(resultDraws, 4)
    ensures var c := Shuffle(AddFirstAbsent(picked, keys), resultDraws);
      && |c| == 4
      && Distinct(c)
      && (forall x :: x in picked ==> x in c)
      && exists i :: 0 <= i < |keys|
           && keys[i] in c && keys[i] !in picked
           && (forall j :: 0 <= j < i ==> keys[j] in picked)
           && (forall x :: x in c ==> x in picked || x == keys[i])
  {
    SomeKeyAbsent(keys, picked);
    var i := FirstAbsent(keys, picked, 0).value;
    var result := picked + [keys[i]];
    assert AddFirstAbsent(picked, keys) == result;
    DistinctAppend(picked, keys[i]);
    var c := Shuffle(result, resultDraws);
    assert Distinct(c) && Elems(c) == Elems(result) by {
      ShufflePermutes(result, resultDraws);
    }
    assert keys[i] in Elems(result);
    forall x | x in picked ensures x in c {
      assert x in Elems(result);
    }
    forall x | x in c ensures x in picked || x == keys[i] {
      assert x in Elems(result);
    }
  }

  /** With the draws that move nothing and a key order that starts with the third
      related kind, the fourth choice is that related kind. */
  lemma FourthChoiceFromOrder(t: Table, name: string, order: seq<string>)
    requires name in t && |t[name].related| >= 3
    requires Distinct(t[name].related) && name !in t[name].related
    requires Enumerates(order, t) && |order| >= 1 && order[0] == t[name].related[2]
    ensures var rel := t[name].related;
      var r := GetFallacyChoices(t, name, StayDraws(|rel|), order, StayDraws(|order|), StayDraws(4));
      && r.Success?
      && r.value.choices == [name, rel[0], rel[1], rel[2]]
  {
    var related := t[name].related;
    assert ShuffledRelated(t, name, StayDraws(|related|)) == related by {
      StayDrawsKeepOrder(related, |related|);
    }
    ChoicesAfter(t, name, StayDraws(|related|), order, StayDraws(|order|), StayDraws(4));
    StillRun(name, related, order);
  }

  /** The choices a successful run returns. Kept as a
      lemma of its own so that the proofs using it do not unfold the whole run. */
  lemma ChoicesAfter(t: Table, name: string, relDraws: seq<nat>, keyOrder: seq<string>,
                     keyDraws: seq<nat>, resultDraws: seq<nat>)
    requires name in t ==> Draws(relDraws, |t[name].related|)
    requires Enumerates(keyOrder, t) && Draws(keyDraws, |keyOrder|)
    requires Draws(resultDraws, 4)
    ensures var r := GetFallacyChoices(t, name, relDraws, keyOrder, keyDraws, resultDraws);
      var related := ShuffledRelated(t, name, relDraws);
      && (|related| >= 2 ==> r.Success?)
      && (r.Success? ==>
            && |related| >= 2
            && r.value.choices
               == Shuffle(AddFirstAbsent([name, related[0], related[1]], Shuffle(keyOrder, keyDraws)), resultDraws))
  {
  }

  /** The choice builder when no shuffle moves anything. */
  lemma StillRun(name: string, related: seq<string>, order: seq<string>)
    requires |related| >= 3 && Distinct(related) && name !in related
    requires |order| >= 1 && order[0] == related[2]
    ensures Shuffle(AddFirstAbsent([name, related[0], related[1]], Shuffle(order, StayDraws(|order|))), StayDraws(4))
      == [name, related[0], related[1], related[2]]
  {
    StayDrawsKeepOrder(order, |order|);
    var picked := [name, related[0], related[1]];
    AddsFirstKey(picked, order);
    StayDrawsKeepOrder(picked + [order[0]], 4);
  }

  lemma AddsFirstKey<T>(picked: seq<T>, keys: seq<T>)
    requires |keys| >= 1 && keys[0] !in picked
    ensures AddFirstAbsent(picked, keys) == picked + [keys[0]]
  {
    assert FirstAbsent(keys, picked, 0) == Some(0);
  }

  /** For every question `reload` can draw from a deck that fits a well-formed table,
      generating its choices does not panic and offers four different kinds of the
      table, the question's own among them. */
  lemma DrawnChoicesOk(t: Table, d: Deck, pick: nat, tutorial: bool, relDraws: seq<nat>,
                       keyOrder: seq<string>, keyDraws: seq<nat>, resultDraws: seq<nat>)
    requires TableOk(t) && DeckOk(t, d) && pick < |d.questions|
    requires var name := DrawQuestion(d, pick, tutorial).name;
      name in t ==> Draws(relDraws, |t[name].related|)
    requires Enumerates(keyOrder, t) && Draws(keyDraws, |keyOrder|)
    requires Draws(resultDraws, 4)
    ensures var name := DrawQuestion(d, pick, tutorial).name;
      var r := GetFallacyChoices(t, name, relDraws, keyOrder, keyDraws, resultDraws);
      && r.Success?
      && |r.value.choices| == 4
      && Distinct(r.value.choices)
      && name in r.value.choices
      && (forall x :: x in r.value.choices ==> x in t)
  {
    DrawnQuestionOk(t, d, pick, tutorial);
    var name := DrawQuestion(d, pick, tutorial).name;
    ChoicesSpec(t, name, relDraws, keyOrder, keyDraws, resultDraws);
    ChoicesHoldPicked(t, name, relDraws, keyOrder, keyDraws, resultDraws);
  }
}
