/**
 Radio-button exclusivity in `choice.draw` (main.go): a newly clicked button
 becomes the only selection, otherwise the current selection is kept.
 */
module RadioGroup {

  /** Button `i` was not selected and reported a completed click this frame
      (`b.check()` is only asked of buttons that are not selected). */
  predicate NewClick(pressed: seq<bool>, clicks: seq<bool>, i: int)
    requires |clicks| == |pressed|
  {
    0 <= i < |pressed| && !pressed[i] && clicks[i]
  }

  /** At most one button is selected. */
  predicate AtMostOne(pressed: seq<bool>)
  {
    forall i, j :: 0 <= i < j < |pressed| && pressed[i] ==> !pressed[j]
  }

  /** One frame of `choice.draw`: `curPressed` is the last selected button,
      `newPressed` the last newly clicked one; the latter wins if it exists,
      and every other button is cleared. */
  method Draw(pressed: seq<bool>, clicks: seq<bool>) returns (next: seq<bool>)
    requires |clicks| == |pressed|
    ensures |next| == |pressed|
    ensures AtMostOne(next)
    ensures forall k :: 0 <= k < |next| && NewClick(pressed, clicks, k) ==>
              (next[k] <==> forall j :: k < j < |pressed| ==> !NewClick(pressed, clicks, j))
    ensures (forall j :: 0 <= j < |pressed| ==> !NewClick(pressed, clicks, j)) ==>
              forall k :: 0 <= k < |next| ==>
                (next[k] <==> pressed[k] && forall j :: k < j < |pressed| ==> !pressed[j])
    ensures (exists j :: 0 <= j < |pressed| && NewClick(pressed, clicks, j)) ==>
              exists k :: 0 <= k < |next| && next[k] && NewClick(pressed, clicks, k)
    ensures (exists j :: 0 <= j < |pressed| && pressed[j]) ==> exists k :: 0 <= k < |next| && next[k]
    ensures AtMostOne(pressed) && (forall j :: 0 <= j < |pressed| ==> !NewClick(pressed, clicks, j)) ==>
              next == pressed
  {
    var curPressed := -1;
    var newPressed := -1;
    var i := 0;
    while i < |pressed|
      invariant 0 <= i <= |pressed|
      invariant -1 <= curPressed < i && -1 <= newPressed < i
      invariant curPressed >= 0 ==> pressed[curPressed]
      invariant forall j :: curPressed < j < i ==> !pressed[j]
      invariant newPressed >= 0 ==> NewClick(pressed, clicks, newPressed)
      invariant forall j :: newPressed < j < i ==> !NewClick(pressed, clicks, j)
    {
      if pressed[i] {
        curPressed := i;
      } else if clicks[i] {
        newPressed := i;
      }
      i := i + 1;
    }
    var chosen := curPressed;
    if newPressed > -1 {
      chosen := newPressed;
    }
    next := [];
    i := 0;
    while i < |pressed|
      invariant 0 <= i <= |pressed| && |next| == i
      invariant forall j :: 0 <= j < i ==> (next[j] <==> j == chosen)
    {
      next := next + [i == chosen];
      i := i + 1;
    }
    if newPressed == -1 {
      assert forall j :: 0 <= j < |pressed| ==> !NewClick(pressed, clicks, j);
      assert forall k :: 0 <= k < |next| ==>
        (k == curPressed <==> pressed[k] && forall j :: k < j < |pressed| ==> !pressed[j]);
      if exists j :: 0 <= j < |pressed| && pressed[j] {
        assert curPressed >= 0 && next[curPressed];
      }
    } else {
      assert next[newPressed];
    }
  }
}
