/**
 The answer check run when the Check button is released (inside `start` in
 main.go): the selected radio button must name the question's kind, and the
 clicked phrases must be exactly the answer phrases.
 */
module Answer {

  import opened Wrappers
  import opened Seqs
  import opened Passage

  /** A radio button of the choice list: the key it stands for and whether it is selected. */
  datatype Radio = Radio(name: string, pressed: bool)

  /** The position of the first selected radio button, if any. */
  function FirstPressed(radios: seq<Radio>): (r: Option<nat>)
    ensures r.Some? ==> r.value < |radios| && radios[r.value].pressed
    ensures r.Some? ==> forall j :: 0 <= j < r.value ==> !radios[j].pressed
    ensures r.None? <==> forall j :: 0 <= j < |radios| ==> !radios[j].pressed
  {
    if |radios| == 0 then None
    else if radios[0].pressed then Some(0)
    else match FirstPressed(radios[1..])
      case Some(i) => Some(i + 1)
      case None => None
  }

  /** The list `selected` built by the check: active phrase indices, in increasing order. */
  function Selected(active: seq<bool>): (sel: seq<nat>)
    ensures forall i, j :: 0 <= i < j < |sel| ==> sel[i] < sel[j]
    ensures forall k :: k in sel <==> 0 <= k < |active| && active[k]
    decreases |active|
  {
    if |active| == 0 then []
    else
      var n := |active| - 1;
      var front := Selected(active[..n]);
      assert forall i :: 0 <= i < |front| ==> front[i] < n by {
        forall i | 0 <= i < |front| ensures front[i] < n {
          assert front[i] in front;
        }
      }
      assert forall k :: k in front <==> 0 <= k < n && active[k] by {
        forall k ensures k in front <==> 0 <= k < n && active[k] {
          if 0 <= k < n {
            assert active[..n][k] == active[k];
          }
        }
      }
      front + (if active[n] then [n] else [])
  }

  /** The verdict of the selected radio button alone: whether it names the question's
      kind, or the previous verdict when no button is selected. */
  function RadioVerdict(radios: seq<Radio>, name: string, previous: bool): (verdict: bool)
    ensures (forall j :: 0 <= j < |radios| ==> !radios[j].pressed) ==> verdict == previous
    ensures (exists j :: 0 <= j < |radios| && radios[j].pressed) ==>
              (verdict <==> exists i :: 0 <= i < |radios| && radios[i].pressed && radios[i].name == name
                                        && forall j :: 0 <= j < i ==> !radios[j].pressed)
  {
    match FirstPressed(radios)
    case Some(i) => radios[i].name == name
    case None => previous
  }

  /** `correct` after the check: the radio verdict, then cleared unless the selected
      phrase list has as many entries as `ans` and each of them occurs in `ans`. */
  function CheckAnswer(radios: seq<Radio>, name: string, active: seq<bool>, ans: seq<int>,
                       previous: bool): (correct: bool)
    ensures correct ==> RadioVerdict(radios, name, previous)
    ensures correct ==> forall k :: 0 <= k < |active| && active[k] ==> k in ans
    ensures FirstPressed(radios).None? && !previous ==> !correct
  {
    var sel := Selected(active);
    RadioVerdict(radios, name, previous) && |ans| == |sel| && forall v :: v in sel ==> v in ans
  }

  /** When the answer indices are distinct, the count-and-membership test is exactly a
      set comparison: the check succeeds iff the radio verdict holds and the active
      phrases are precisely the answer phrases. */
  lemma CheckIsSetEquality(radios: seq<Radio>, name: string, active: seq<bool>, ans: seq<int>,
                           previous: bool)
    requires Distinct(ans)
    ensures CheckAnswer(radios, name, active, ans, previous)
        <==> RadioVerdict(radios, name, previous) && ActiveSet(active) == Elems(ans)
  {
    var sel := Selected(active);
    assert Distinct(sel);
    DistinctCard(sel);
    DistinctCard(ans);
    assert Elems(sel) == ActiveSet(active);
    if |ans| == |sel| && forall v :: v in sel ==> v in ans {
      assert Elems(sel) <= Elems(ans);
      SubsetSameCard(Elems(sel), Elems(ans));
    }
    if ActiveSet(active) == Elems(ans) {
      assert Elems(sel) == Elems(ans);
      assert |sel| == |ans|;
      assert forall v :: v in sel ==> v in Elems(ans);
    }
  }
}
